/** Keeping the notes current from what tools returned, without the model taking part. */
module NoteTaking {
  import opened Text
  import opened ToolNames
  import opened Notes
  import opened NotesRuns
  import Pruning

  /** What the notes read of a call's arguments: these two, where they are strings. */
  datatype Arguments = Arguments(path: Option<string>, language: Option<string>)

  datatype Observation = Observation(tool: string, args: Arguments, text: string, at: string)

  /** Every marker in a text, at its first place. */
  function MarkersIn(text: string): seq<string> { Pruning.Distinct(Pruning.Markers(text)) }

  /** What follows the last separator of either kind. */
  function LastSegment(path: string): string {
    if path == "" || path[|path| - 1] == '/' || path[|path| - 1] == '\\' then ""
    else LastSegment(path[..|path| - 1]) + [path[|path| - 1]]
  }

  /** What a call acted on, by a name that is the same on every attempt. */
  function TargetOf(tool: string, args: Arguments): (target: Option<string>)
    ensures target.Some? ==> target.value != ""
  {
    if args.path.Some? && args.path.value != "" then
      Some(if LastSegment(args.path.value) != "" then LastSegment(args.path.value) else args.path.value)
    else if IsCodeExecution(tool) then
      Some(if args.language.Some? then args.language.value + " (an execution)" else "an execution")
    else None
  }

  // ---------------------------------------------------------------- calculation ids

  /** The number of an id of the shape `C<n>`. */
  function CalculationNumber(id: string): Option<nat> {
    var t := Trim(id);
    if |t| < 2 || t[0] != 'C' then None
    else
      var digits := t[1..];
      if DigitRun(digits) == |digits| then
        assert digits[..|digits|] == digits;
        Some(ParseDecimal(digits))
      else None
  }

  function Highest(ids: seq<string>): nat {
    if ids == [] then 0
    else
      var before, n := Highest(ids[..|ids| - 1]), CalculationNumber(ids[|ids| - 1]);
      if n.Some? && n.value > before then n.value else before
  }

  function CalculationId(n: nat): string { "C" + Decimal(n) }

  /** One past the highest number held; read off the list, so that it survives a reload. */
  method NextCalculationId(existing: seq<string>) returns (id: string)
    ensures id == CalculationId(Highest(existing) + 1)
  {
    hide CalculationNumber, Decimal;
    var highest := 0;
    for k := 0 to |existing|
      invariant highest == Highest(existing[..k])
    {
      assert existing[..k + 1][..k] == existing[..k];
      var n := CalculationNumber(existing[k]);
      if n.Some? && n.value > highest {
        highest := n.value;
      }
    }
    assert existing[..|existing|] == existing;
    return CalculationId(highest + 1);
  }

  // ---------------------------------------------------------------- one observation

  function EvidenceNotes(o: Observation): seq<Note> {
    if IsEvidenceProducing(o.tool) then Ids(MarkersIn(o.text), EvidenceIds) else []
  }

  function CalculationNotes(st: State, o: Observation): seq<Note> {
    if IsCalculation(o.tool) then [Listed(CalculationIds, CalculationId(Highest(st.calculationIds) + 1))] else []
  }

  function EffectNotes(o: Observation): seq<Note> {
    var target := TargetOf(o.tool, o.args);
    if target.Some? && IsSideEffecting(o.tool) then
      [DidEffect(NameOf(o.tool), target.value, o.at)] + if IsArtifactProducing(o.tool) then [Listed(ArtifactIds, target.value)] else []
    else []
  }

  /** What one result leaves in the notes, whatever its tool. */
  function Observe(st: State, o: Observation): State {
    var seen := ApplyAll(st, EvidenceNotes(o));
    ApplyAll(ApplyAll(seen, CalculationNotes(seen, o)), EffectNotes(o))
  }

  lemma ApplyOne(st: State, note: Note)
    ensures ApplyAll(st, []) == st && ApplyAll(st, [note]) == Apply(st, note)
  {
    assert [note][..0] == [];
  }

  lemma ApplyTwo(st: State, note: Note, other: Note)
    ensures ApplyAll(st, [note] + [other]) == Apply(Apply(st, note), other)
  {
    ApplyOne(st, note);
    assert ([note] + [other])[..1] == [note];
  }

  method ObserveToolResult(notes: WorkingNotes, o: Observation)
    modifies notes
    ensures notes.Abs() == Observe(old(notes.Abs()), o)
  {
    hide Apply, ApplyAll, Pruning.Markers, Pruning.Distinct, Highest, Canonical, Decimal;
    hide IsSideEffecting, IsCalculation, IsArtifactProducing, IsEvidenceProducing;
    ghost var st := notes.Abs();
    ApplyOne(st, Goal(""));
    if IsEvidenceProducing(o.tool) {
      var markers := MarkersIn(o.text);
      AllOf(st, Ids(markers, EvidenceIds));
      for k := 0 to |markers|
        invariant notes.Abs() == ApplyAll(st, Ids(markers, EvidenceIds)[..k])
      {
        notes.SeeEvidence(markers[k]);
        OneMore(st, Ids(markers, EvidenceIds), k);
      }
    }
    ghost var seen := notes.Abs();
    assert seen == ApplyAll(st, EvidenceNotes(o));
    ApplyOne(seen, Goal(""));
    if IsCalculation(o.tool) {
      var id := NextCalculationId(notes.calculationIds);
      ApplyOne(seen, Listed(CalculationIds, id));
      notes.Calculate(id);
    }
    ghost var counted := notes.Abs();
    assert counted == ApplyAll(seen, CalculationNotes(seen, o));
    ApplyOne(counted, Goal(""));
    var target := TargetOf(o.tool, o.args);
    if target.Some? && IsSideEffecting(o.tool) {
      ApplyOne(counted, DidEffect(NameOf(o.tool), target.value, o.at));
      ApplyTwo(counted, DidEffect(NameOf(o.tool), target.value, o.at), Listed(ArtifactIds, target.value));
      notes.RecordEffect(NameOf(o.tool), target.value, o.at);
      if IsArtifactProducing(o.tool) {
        notes.Produce(target.value);
      } else {
        assert [DidEffect(NameOf(o.tool), target.value, o.at)] + [] == [DidEffect(NameOf(o.tool), target.value, o.at)];
      }
    }
  }

  // ---------------------------------------------------------------- what one result leaves behind

  /** What stands behind the last separator of a path, whatever stands before it. */
  lemma {:induction false} SegmentIsBehind(front: string, segment: string)
    requires front == "" || front[|front| - 1] == '/' || front[|front| - 1] == '\\'
    requires forall k :: 0 <= k < |segment| ==> segment[k] != '/' && segment[k] != '\\'
    ensures LastSegment(front + segment) == segment
  {
    var path := front + segment;
    if segment == "" {
      assert path == front;
    } else {
      var n := |segment| - 1;
      assert path[|path| - 1] == segment[n] && path[..|path| - 1] == front + segment[..n];
      SegmentIsBehind(front, segment[..n]);
      assert segment == segment[..n] + [segment[n]];
    }
  }

  /** What a call acted on: the last segment of its path, or the path where that is empty; without a path, an execution and its language. */
  lemma TargetIs(tool: string, args: Arguments, front: string, segment: string)
    requires front == "" || front[|front| - 1] == '/' || front[|front| - 1] == '\\'
    requires forall k :: 0 <= k < |segment| ==> segment[k] != '/' && segment[k] != '\\'
    ensures args.path == Some(front + segment) && front + segment != "" ==>
              TargetOf(tool, args) == Some(if segment != "" then segment else front)
    ensures args.path.None? || args.path == Some("") ==>
              TargetOf(tool, args) ==
                if !IsCodeExecution(tool) then None
                else if args.language.Some? then Some(args.language.value + " (an execution)") else Some("an execution")
  {
    hide LastSegment, IsCodeExecution;
    SegmentIsBehind(front, segment);
    assert front + "" == front;
  }

  /** Which of what a result leaves depends on what: everything single-valued, decided or asked is left alone. */
  ghost predicate Left(st: State, o: Observation, now: State) {
    var target := TargetOf(o.tool, o.args);
    && now.goal == st.goal && now.stage == st.stage && now.nextAction == st.nextAction
    && now.decisions == st.decisions && now.openQuestions == st.openQuestions
    && (!IsEvidenceProducing(o.tool) ==> now.evidenceIds == st.evidenceIds)
    && (if target.Some? && IsSideEffecting(o.tool) && !Done(st.completed, o.tool, target.value)
        then now.completed == Keep(st.completed + [Effect(NameOf(o.tool), Line(target.value), o.at)], 32)
        else now.completed == st.completed)
    && (if target.Some? && IsSideEffecting(o.tool) && IsArtifactProducing(o.tool)
           && Line(target.value) != "" && Line(target.value) !in st.artifactIds
        then now.artifactIds == Keep(st.artifactIds + [Line(target.value)], 16)
        else now.artifactIds == st.artifactIds)
  }

  /** What applying some notes can have changed. */
  lemma {:induction false} IdsTouchOnlyTheirList(st: State, notes: seq<Note>, l: IdList)
    requires l == EvidenceIds || l == CalculationIds
    requires forall n :: n in notes ==> n.Listed? && n.into == l
    ensures var t := ApplyAll(st, notes);
            && t.goal == st.goal && t.stage == st.stage && t.nextAction == st.nextAction && t.decisions == st.decisions
            && t.openQuestions == st.openQuestions && t.completed == st.completed && t.artifactIds == st.artifactIds
            && (l == CalculationIds ==> t.evidenceIds == st.evidenceIds)
  {
    hide Line, NameOf, Done, Pushed, WithId, Without;
    if notes != [] {
      IdsTouchOnlyTheirList(st, notes[..|notes| - 1], l);
      assert notes[|notes| - 1] in notes;
    }
  }

  lemma ResultLeaves(st: State, o: Observation)
    ensures Left(st, o, Observe(st, o))
  {
    hide Apply, ApplyAll, Line, NameOf, Done, Keep, TargetOf, MarkersIn, Highest, CalculationId, IsSideEffecting, IsArtifactProducing, IsCalculation, IsEvidenceProducing;
    var seen := ApplyAll(st, EvidenceNotes(o));
    IdsTouchOnlyTheirList(st, EvidenceNotes(o), EvidenceIds);
    if !IsEvidenceProducing(o.tool) { ApplyOne(st, Goal("")); }
    var counted := ApplyAll(seen, CalculationNotes(seen, o));
    IdsTouchOnlyTheirList(seen, CalculationNotes(seen, o), CalculationIds);
    EffectsLeave(counted, o);
  }

  lemma EffectsLeave(st: State, o: Observation)
    ensures var now, target := ApplyAll(st, EffectNotes(o)), TargetOf(o.tool, o.args);
            && now.goal == st.goal && now.stage == st.stage && now.nextAction == st.nextAction
            && now.decisions == st.decisions && now.openQuestions == st.openQuestions && now.evidenceIds == st.evidenceIds
            && (if target.Some? && IsSideEffecting(o.tool) && !Done(st.completed, o.tool, target.value)
                then now.completed == Keep(st.completed + [Effect(NameOf(o.tool), Line(target.value), o.at)], 32)
                else now.completed == st.completed)
            && (if target.Some? && IsSideEffecting(o.tool) && IsArtifactProducing(o.tool)
                   && Line(target.value) != "" && Line(target.value) !in st.artifactIds
                then now.artifactIds == Keep(st.artifactIds + [Line(target.value)], 16)
                else now.artifactIds == st.artifactIds)
  {
    hide ApplyAll, Apply, TargetOf, IsSideEffecting, IsArtifactProducing, Keep, Done, NameOf, Line;
    var target := TargetOf(o.tool, o.args);
    ApplyOne(st, Goal(""));
    if target.Some? && IsSideEffecting(o.tool) {
      var did, made := DidEffect(NameOf(o.tool), target.value, o.at), Listed(ArtifactIds, target.value);
      EffectLeaves(st, o.tool, target.value, o.at);
      if IsArtifactProducing(o.tool) {
        ApplyTwo(st, did, made);
        ArtifactLeaves(Apply(st, did), target.value);
      } else {
        ApplyOne(st, did);
        assert [did] + [] == [did];
      }
    }
  }

  lemma EffectLeaves(st: State, tool: string, target: string, at: string)
    ensures var now := Apply(st, DidEffect(NameOf(tool), target, at));
            now == if Done(st.completed, tool, target) then st
                   else st.(completed := Keep(st.completed + [Effect(NameOf(tool), Line(target), at)], 32), dropped := now.dropped)
  {
    hide Line, NameOf, Keep, CountDrops;
    NameIsStable(tool);
    DoneEitherWay(st.completed, tool, target);
  }

  lemma DoneEitherWay(completed: seq<Effect>, tool: string, target: string)
    ensures Done(completed, NameOf(tool), target) <==> Done(completed, tool, target)
  {
    hide Line, NameOf;
    NameIsStable(tool);
    if k :| 0 <= k < |completed| && Matches(completed[k], NameOf(tool), target) { assert Matches(completed[k], tool, target); }
    if k :| 0 <= k < |completed| && Matches(completed[k], tool, target) { assert Matches(completed[k], NameOf(tool), target); }
  }

  lemma ArtifactLeaves(st: State, target: string)
    ensures var now := Apply(st, Listed(ArtifactIds, target));
            now == if Line(target) == "" || Line(target) in st.artifactIds then st
                   else st.(artifactIds := Keep(st.artifactIds + [Line(target)], 16), dropped := now.dropped)
  {
    hide Line, Keep, CountDrops;
  }

  // ---------------------------------------------------------------- no calculation id is given twice

  /** Whole numbers are exact below this. */
  const SAFE: nat := 9007199254740992

  lemma SafeNumeralsAreShort(n: nat)
    requires n < SAFE
    ensures |Decimal(n)| <= 16
  {
    assert PowerOfTen(4) == 10000;
    assert PowerOfTen(8) == 10000 * PowerOfTen(4) && PowerOfTen(12) == 10000 * PowerOfTen(8) && PowerOfTen(16) == 10000 * PowerOfTen(12);
    DecimalLength(n, 16);
  }

  lemma CalculationIdIsTidy(n: nat)
    requires n < SAFE
    ensures Tidy(CalculationId(n)) && CalculationId(n) != ""
  {
    SafeNumeralsAreShort(n);
    hide Decimal;
    var id := CalculationId(n);
    forall k | 0 <= k < |id| ensures !IsSpace(id[k]) {
      if k > 0 { assert id[k] == Decimal(n)[k - 1]; }
    }
  }

  lemma {:induction false} RunOfDigits(s: string)
    requires AllDigits(s)
    ensures DigitRun(s) == |s|
  {
    if s != [] { RunOfDigits(s[1..]); }
  }

  lemma NumberOfCalculationId(n: nat)
    ensures CalculationNumber(CalculationId(n)) == Some(n)
  {
    hide Decimal, Trim, DigitRun, ParseDecimal, IsSpace;
    var id, digits := CalculationId(n), Decimal(n);
    assert id[1..] == digits && id[0] == 'C';
    DigitsAreTrimmed(digits);
    TrimOfTrimmed(id);
    RunOfDigits(digits);
    ParseOfDecimal(n);
  }

  lemma DigitsAreTrimmed(digits: string)
    requires AllDigits(digits) && digits != []
    ensures Trimmed("C" + digits)
  {
    assert ("C" + digits)[|digits|] == digits[|digits| - 1];
  }

  lemma {:induction false} HighestBounds(ids: seq<string>, id: string)
    requires id in ids && CalculationNumber(id).Some?
    ensures CalculationNumber(id).value <= Highest(ids)
  {
    hide CalculationNumber;
    if ids[|ids| - 1] != id {
      HighestBounds(ids[..|ids| - 1], id);
    }
  }

  /** Nothing held bears the next number. */
  lemma NextIsNew(ids: seq<string>)
    ensures CalculationId(Highest(ids) + 1) !in ids
  {
    hide CalculationNumber, CalculationId, Highest;
    var id := CalculationId(Highest(ids) + 1);
    NumberOfCalculationId(Highest(ids) + 1);
    if id in ids {
      HighestBounds(ids, id);
    }
  }

  lemma {:induction false} HighestOfSlice(ids: seq<string>, from: nat)
    requires from <= |ids|
    ensures Highest(ids[from..]) <= Highest(ids)
  {
    hide CalculationNumber;
    if from < |ids| {
      HighestOfSlice(ids[..|ids| - 1], from);
      assert ids[from..][..|ids| - 1 - from] == ids[..|ids| - 1][from..];
    }
  }

  lemma HighestOfNext(ids: seq<string>, cap: nat)
    requires cap > 0
    ensures Highest(Keep(ids + [CalculationId(Highest(ids) + 1)], cap)) == Highest(ids) + 1
  {
    hide CalculationNumber, CalculationId;
    var n := Highest(ids) + 1;
    NumberOfCalculationId(n);
    var all := ids + [CalculationId(n)];
    var kept := Keep(all, cap);
    assert all[..|ids|] == ids;
    assert Highest(all) == n;
    HighestOfSlice(all, |all| - |kept|);
    assert kept == all[|all| - |kept|..] && kept[|kept| - 1] == CalculationId(n);
  }

  /** What can happen to a run's notes: a result, something told, a record adopted from outside, a restart. */
  datatype Happening = Saw(observation: Observation) | Heard(note: Note) | Corrected(saved: State) | Restart

  function AfterHappening(st: State, h: Happening): State {
    match h
    case Saw(o) => Observe(st, o)
    case Heard(note) => Apply(st, note)
    case Corrected(saved) => Load(saved)
    case Restart => Load(st)
  }

  function AfterAll(st: State, hs: seq<Happening>): State {
    if hs == [] then st else AfterHappening(AfterAll(st, hs[..|hs| - 1]), hs[|hs| - 1])
  }

  predicate Calculates(h: Happening) { h.Saw? && IsCalculation(h.observation.tool) }

  /** The numbers given to calculations, in order. */
  function Given(st: State, hs: seq<Happening>): seq<nat> {
    if hs == [] then []
    else
      Given(st, hs[..|hs| - 1]) +
      if Calculates(hs[|hs| - 1]) then [Highest(AfterAll(st, hs[..|hs| - 1]).calculationIds) + 1] else []
  }

  lemma OthersLeaveList(st: State, note: Note, l: IdList)
    requires !(note.Listed? && note.into == l) && !note.Answered?
    ensures l.In(Apply(st, note)) == l.In(st)
  {
    hide Line, NameOf, Done, Keep, CountDrops, Floor;
  }

  lemma {:induction false} AllOthersLeaveList(st: State, notes: seq<Note>, l: IdList)
    requires forall n :: n in notes ==> !(n.Listed? && n.into == l) && !n.Answered?
    ensures l.In(ApplyAll(st, notes)) == l.In(st)
  {
    hide Apply;
    if notes != [] {
      AllOthersLeaveList(st, notes[..|notes| - 1], l);
      assert notes[|notes| - 1] in notes;
      OthersLeaveList(ApplyAll(st, notes[..|notes| - 1]), notes[|notes| - 1], l);
    }
  }

  lemma CalculationIsRecorded(st: State)
    requires WellKept(st) && Highest(st.calculationIds) + 1 < SAFE
    ensures var id := CalculationId(Highest(st.calculationIds) + 1);
            Apply(st, Listed(CalculationIds, id)).calculationIds == Keep(st.calculationIds + [id], 32)
  {
    hide Line, Tidy, CalculationId, Highest, WellKept, CountDrops;
    var id := CalculationId(Highest(st.calculationIds) + 1);
    CalculationIdIsTidy(Highest(st.calculationIds) + 1);
    NextIsNew(st.calculationIds);
    LineOfTidy(id);
  }

  lemma ObserveKeepsWellKept(st: State, o: Observation)
    requires WellKept(st)
    ensures WellKept(Observe(st, o))
  {
    hide WellKept, ApplyAll, EvidenceNotes, CalculationNotes, EffectNotes;
    var seen := ApplyAll(st, EvidenceNotes(o));
    ApplyAllKeepsWellKept(st, EvidenceNotes(o));
    ApplyAllKeepsWellKept(seen, CalculationNotes(seen, o));
    ApplyAllKeepsWellKept(ApplyAll(seen, CalculationNotes(seen, o)), EffectNotes(o));
  }

  lemma ObserveCounts(st: State, o: Observation)
    requires WellKept(st) && Highest(st.calculationIds) + 1 < SAFE
    ensures Observe(st, o).calculationIds ==
            if !IsCalculation(o.tool) then st.calculationIds
            else Keep(st.calculationIds + [CalculationId(Highest(st.calculationIds) + 1)], 32)
  {
    hide WellKept, Apply, ApplyAll, CalculationId, Highest, TargetOf, MarkersIn, Canonical, IsCalculation;
    var seen := ApplyAll(st, EvidenceNotes(o));
    ApplyAllKeepsWellKept(st, EvidenceNotes(o));
    AllOthersLeaveList(st, EvidenceNotes(o), CalculationIds);
    var counted := ApplyAll(seen, CalculationNotes(seen, o));
    ApplyOne(seen, Listed(CalculationIds, CalculationId(Highest(seen.calculationIds) + 1)));
    CalculationIsRecorded(seen);
    AllOthersLeaveList(counted, EffectNotes(o), CalculationIds);
  }

  /** What is told or adopted from outside never takes the highest number away, and numbers stay exact. */
  ghost predicate HighestStays(st: State, hs: seq<Happening>) {
    hs == [] ||
    (var front, last := hs[..|hs| - 1], hs[|hs| - 1];
     && HighestStays(st, front) && Highest(AfterAll(st, front).calculationIds) + 1 < SAFE
     && (last.Heard? || last.Corrected? ==> Highest(AfterAll(st, hs).calculationIds) >= Highest(AfterAll(st, front).calculationIds)))
  }

  lemma AnsweringLeavesCalculations(st: State, note: Note)
    requires note.Answered?
    ensures Apply(st, note).calculationIds == st.calculationIds
  {
  }

  /** Anything told but a calculation leaves the numbers alone. */
  lemma OrdinaryNotesStay(st: State, note: Note)
    requires !(note.Listed? && note.into == CalculationIds)
    ensures Apply(st, note).calculationIds == st.calculationIds
  {
    hide Apply;
    if note.Answered? { AnsweringLeavesCalculations(st, note); } else { OthersLeaveList(st, note, CalculationIds); }
  }

  lemma QuietObservation(st: State, o: Observation)
    requires !IsCalculation(o.tool)
    ensures Observe(st, o).calculationIds == st.calculationIds
  {
    hide Apply, ApplyAll, CalculationId, Highest, TargetOf, MarkersIn, Canonical, IsCalculation;
    var seen := ApplyAll(st, EvidenceNotes(o));
    AllOthersLeaveList(st, EvidenceNotes(o), CalculationIds);
    ApplyOne(seen, Goal(""));
    AllOthersLeaveList(seen, EffectNotes(o), CalculationIds);
  }

  lemma HappeningKeepsWellKept(st: State, h: Happening)
    requires WellKept(st)
    ensures WellKept(AfterHappening(st, h))
  {
    hide WellKept, Observe, Apply, Load;
    match h {
      case Saw(o) => ObserveKeepsWellKept(st, o);
      case Heard(note) => ApplyKeepsWellKept(st, note);
      case Corrected(saved) => LoadIsWellKept(saved);
      case Restart => LoadIsWellKept(st);
    }
  }

  /** One happening gives the next number to a calculation, and otherwise leaves the highest where it was or puts it up. */
  lemma HighestAfter(st: State, h: Happening)
    requires WellKept(st) && Highest(st.calculationIds) + 1 < SAFE
    ensures var now := Highest(AfterHappening(st, h).calculationIds);
            && (Calculates(h) ==> now == Highest(st.calculationIds) + 1)
            && ((h.Saw? && !Calculates(h)) || h.Restart? ==> now == Highest(st.calculationIds))
  {
    hide WellKept, Observe, Apply, Load, CalculationId, Highest, IsCalculation;
    match h {
      case Saw(o) =>
        if IsCalculation(o.tool) {
          ObserveCounts(st, o);
          HighestOfNext(st.calculationIds, 32);
        } else {
          QuietObservation(st, o);
        }
      case Heard(note) =>
      case Corrected(saved) =>
      case Restart => LoadOfWellKept(st);
    }
  }

  lemma {:induction false} NumbersIncrease(st: State, hs: seq<Happening>)
    requires WellKept(st) && HighestStays(st, hs)
    ensures WellKept(AfterAll(st, hs)) && Highest(st.calculationIds) <= Highest(AfterAll(st, hs).calculationIds)
    ensures forall k :: 0 <= k < |Given(st, hs)| ==>
              Highest(st.calculationIds) < Given(st, hs)[k] <= Highest(AfterAll(st, hs).calculationIds)
    ensures forall j, k :: 0 <= j < k < |Given(st, hs)| ==> Given(st, hs)[j] < Given(st, hs)[k]
  {
    hide WellKept, AfterHappening, Highest, Calculates;
    if hs != [] {
      var front, last := hs[..|hs| - 1], hs[|hs| - 1];
      NumbersIncrease(st, front);
      HappeningKeepsWellKept(AfterAll(st, front), last);
      HighestAfter(AfterAll(st, front), last);
      assert Calculates(last) ==> last.Saw? by { OnlyResultsCalculate(last); }
    }
  }

  lemma OnlyResultsCalculate(h: Happening)
    ensures Calculates(h) ==> h.Saw?
  {
  }

  /**
   * Calculation ids strictly increase for the whole run, past the ceiling of 32 and across any number of
   * restarts: none is given twice, and none was held when the run began.
   */
  lemma NoCalculationIdTwice(st: State, hs: seq<Happening>)
    requires WellKept(st) && HighestStays(st, hs)
    ensures forall j, k :: 0 <= j < k < |Given(st, hs)| ==>
              Given(st, hs)[j] < Given(st, hs)[k] && CalculationId(Given(st, hs)[j]) != CalculationId(Given(st, hs)[k])
    ensures forall k :: 0 <= k < |Given(st, hs)| ==> CalculationId(Given(st, hs)[k]) !in st.calculationIds
  {
    hide WellKept, AfterAll, CalculationNumber, CalculationId, Highest, Given, HighestStays;
    NumbersIncrease(st, hs);
    forall k | 0 <= k < |Given(st, hs)|
      ensures CalculationNumber(CalculationId(Given(st, hs)[k])) == Some(Given(st, hs)[k])
      ensures CalculationId(Given(st, hs)[k]) !in st.calculationIds
    {
      NumberOfCalculationId(Given(st, hs)[k]);
      if CalculationId(Given(st, hs)[k]) in st.calculationIds {
        HighestBounds(st.calculationIds, CalculationId(Given(st, hs)[k]));
      }
    }
  }

  /** Nothing is adopted, and calculations come from results alone. */
  ghost predicate Ordinary(hs: seq<Happening>) {
    forall h :: h in hs ==> !h.Corrected? && (h.Heard? ==> !(h.note.Listed? && h.note.into == CalculationIds))
  }

  /** While nothing is adopted and calculations come from results alone, the numbers are consecutive. */
  lemma {:induction false} OrdinaryRunsCount(st: State, hs: seq<Happening>)
    requires WellKept(st) && Highest(st.calculationIds) + |hs| < SAFE
    requires Ordinary(hs)
    ensures HighestStays(st, hs) && Highest(AfterAll(st, hs).calculationIds) == Highest(st.calculationIds) + |Given(st, hs)|
    ensures |Given(st, hs)| <= |hs| && forall k :: 0 <= k < |Given(st, hs)| ==> Given(st, hs)[k] == Highest(st.calculationIds) + 1 + k
  {
    hide WellKept, Apply, Observe, Load, Highest, IsCalculation;
    if hs != [] {
      var front, last := hs[..|hs| - 1], hs[|hs| - 1];
      assert last in hs;
      OrdinaryRunsCount(st, front);
      NumbersIncrease(st, front);
      HighestAfter(AfterAll(st, front), last);
      if last.Heard? { OrdinaryNotesStay(AfterAll(st, front), last.note); }
    }
  }

  /** However a run goes on from here, it gives only numbers above `above`. */
  ghost predicate GivesOnlyAbove(now: State, above: nat) {
    forall hs: seq<Happening> :: Ordinary(hs) && Highest(now.calculationIds) + |hs| < SAFE ==>
      forall n :: n in Given(now, hs) ==> n > above
  }

  /** The next calculation gets a number nobody had exactly when the highest one given so far is still held. */
  lemma OnlyAboveIff(now: State, above: nat, o: Observation)
    requires WellKept(now) && IsCalculation(o.tool) && Highest(now.calculationIds) + 1 < SAFE
    ensures GivesOnlyAbove(now, above) <==> Highest(now.calculationIds) >= above
  {
    hide WellKept, AfterAll, Highest, Given, HighestStays, IsCalculation, AfterHappening;
    if Highest(now.calculationIds) >= above {
      forall hs: seq<Happening> | Ordinary(hs) && Highest(now.calculationIds) + |hs| < SAFE
        ensures forall n :: n in Given(now, hs) ==> n > above
      {
        OrdinaryRunsCount(now, hs);
      }
    }
    if GivesOnlyAbove(now, above) {
      AfterOne(now, Saw(o), []);
      assert [] + [Saw(o)] == [Saw(o)];
      assert Ordinary([Saw(o)]);
      assert Given(now, [Saw(o)])[0] == Highest(now.calculationIds) + 1;
      assert Highest(now.calculationIds) + 1 in Given(now, [Saw(o)]);
    }
  }

  /** A record adopted from outside keeps ids from being given again exactly when it brings the highest number along. */
  lemma AdoptingKeepsIdsApartIff(st: State, saved: State, o: Observation)
    requires IsCalculation(o.tool) && Highest(Load(saved).calculationIds) + 1 < SAFE
    ensures GivesOnlyAbove(Load(saved), Highest(st.calculationIds))
            <==> Highest(Load(saved).calculationIds) >= Highest(st.calculationIds)
  {
    hide WellKept, Load, Highest, GivesOnlyAbove, IsCalculation;
    LoadIsWellKept(saved);
    OnlyAboveIff(Load(saved), Highest(st.calculationIds), o);
  }

  /** The number an id adds to a list. */
  function NumberIn(id: string): nat {
    if CalculationNumber(id).Some? then CalculationNumber(id).value else 0
  }

  /** A calculation told from outside pushes nothing out, or not the highest number, or brings one as high. */
  ghost predicate KeepsTheHighest(ids: seq<string>, id: string) {
    Line(id) == "" || Line(id) in ids || |ids| < CalculationIds.Cap()
    || Highest(ids[1..]) >= Highest(ids) || NumberIn(Line(id)) >= Highest(ids)
  }

  lemma HighestOfMore(ids: seq<string>, id: string)
    ensures Highest(ids + [id]) == if NumberIn(id) > Highest(ids) then NumberIn(id) else Highest(ids)
  {
    hide CalculationNumber;
    assert (ids + [id])[..|ids|] == ids;
  }

  lemma TellingHoldsIff(st: State, id: string)
    requires WellKept(st)
    ensures Highest(Apply(st, Listed(CalculationIds, id)).calculationIds) >= Highest(st.calculationIds)
            <==> KeepsTheHighest(st.calculationIds, id)
  {
    hide WellKept, Apply, Line, Highest, NumberIn, Keep;
    TellingGives(st, id);
    NoMoreThanTheCap(st);
    PushedHighest(st.calculationIds, Line(id));
  }

  lemma NoMoreThanTheCap(st: State)
    requires WellKept(st)
    ensures |st.calculationIds| <= CalculationIds.Cap()
  {
    hide CleanValues, CleanDecisions, CleanEffects, Tidy;
    assert CleanIds(CalculationIds.In(st), CalculationIds.Cap());
  }

  lemma TellingGives(st: State, id: string)
    ensures Apply(st, Listed(CalculationIds, id)).calculationIds ==
            if Line(id) == "" || Line(id) in st.calculationIds then st.calculationIds
            else Keep(st.calculationIds + [Line(id)], CalculationIds.Cap())
  {
    hide Line, Keep, CountDrops;
  }

  lemma PushedHighest(ids: seq<string>, id: string)
    requires |ids| <= CalculationIds.Cap()
    ensures Highest(Keep(ids + [id], CalculationIds.Cap())) >= Highest(ids)
            <==> |ids| < CalculationIds.Cap() || Highest(ids[1..]) >= Highest(ids) || NumberIn(id) >= Highest(ids)
  {
    hide Highest, NumberIn;
    HighestOfMore(ids, id);
    if |ids| == CalculationIds.Cap() {
      HighestOfMore(ids[1..], id);
      assert Keep(ids + [id], CalculationIds.Cap()) == ids[1..] + [id];
    }
  }

  /** The same for a calculation told from outside: ids stay apart exactly when the highest number is not pushed out. */
  lemma TellingKeepsIdsApartIff(st: State, id: string, o: Observation)
    requires WellKept(st) && IsCalculation(o.tool)
    requires Highest(Apply(st, Listed(CalculationIds, id)).calculationIds) + 1 < SAFE
    ensures GivesOnlyAbove(Apply(st, Listed(CalculationIds, id)), Highest(st.calculationIds)) <==> KeepsTheHighest(st.calculationIds, id)
  {
    hide WellKept, Apply, Highest, GivesOnlyAbove, KeepsTheHighest, IsCalculation;
    ApplyKeepsWellKept(st, Listed(CalculationIds, id));
    OnlyAboveIff(Apply(st, Listed(CalculationIds, id)), Highest(st.calculationIds), o);
    TellingHoldsIff(st, id);
  }

  /** A record adopted without the highest number makes a later calculation take an id already given. */
  lemma AdoptionCanReuse(o: Observation)
    requires IsCalculation(o.tool)
    ensures Given(BLANK, [Saw(o), Corrected(BLANK), Saw(o)]) == [1, 1]
  {
    hide *;
    var a, b := [Saw(o)], [Saw(o), Corrected(BLANK)];
    AfterOne(BLANK, Saw(o), []);
    AfterOne(BLANK, Corrected(BLANK), a);
    AfterOne(BLANK, Saw(o), b);
    assert a == [] + [Saw(o)] && b == a + [Corrected(BLANK)] && [Saw(o), Corrected(BLANK), Saw(o)] == b + [Saw(o)];
    BlankIsWellKept();
    LoadOfWellKept(BLANK);
    NothingHeldIsZero(o);
    assert [] + [1] + [] + [1] == [1, 1];
  }

  /** Thirty-two ids that are no calculation's. */
  function Strangers(): (ids: seq<string>)
    ensures |ids| == 32 && forall k :: 0 <= k < |ids| ==> ids[k] == "X" + Decimal(k)
  {
    seq(32, k requires 0 <= k < 32 => "X" + Decimal(k))
  }

  function Telling(ids: seq<string>): (hs: seq<Happening>)
    ensures |hs| == |ids| && forall k :: 0 <= k < |hs| ==> hs[k] == Heard(Listed(CalculationIds, ids[k]))
  {
    seq(|ids|, k requires 0 <= k < |ids| => Heard(Listed(CalculationIds, ids[k])))
  }

  lemma StrangerIsTidy(n: nat)
    requires n < 32
    ensures Line("X" + Decimal(n)) == "X" + Decimal(n) && CalculationNumber("X" + Decimal(n)).None?
    ensures forall m: nat :: m != n ==> "X" + Decimal(m) != "X" + Decimal(n)
    ensures forall m: nat :: "X" + Decimal(n) != CalculationId(m)
  {
    SafeNumeralsAreShort(n);
    StrangerStaysItself(Decimal(n));
    forall m: nat | m != n ensures "X" + Decimal(m) != "X" + Decimal(n) {
      if Decimal(m) == Decimal(n) { DecimalInjective(m, n); }
      assert ("X" + Decimal(m))[1..] == Decimal(m) && ("X" + Decimal(n))[1..] == Decimal(n);
    }
    forall m: nat ensures "X" + Decimal(n) != CalculationId(m) {
      assert CalculationId(m)[0] == 'C' && ("X" + Decimal(n))[0] == 'X';
    }
  }

  lemma StrangerStaysItself(digits: string)
    requires AllDigits(digits) && digits != [] && |digits| <= 16
    ensures Line("X" + digits) == "X" + digits && CalculationNumber("X" + digits).None?
  {
    var id := "X" + digits;
    hide DigitRun, ParseDecimal, Line, Trim;
    forall k | 0 <= k < |id| ensures !IsSpace(id[k]) {
      if k > 0 { assert id[k] == digits[k - 1]; }
    }
    LineOfTidy(id);
    TrimOfTrimmed(id);
  }

  lemma {:induction false} StrangersAreKept(o: Observation, k: nat)
    requires IsCalculation(o.tool) && k <= 32
    ensures var hs := [Saw(o)] + Telling(Strangers())[..k];
            && AfterAll(BLANK, hs).calculationIds == Keep([CalculationId(1)] + Strangers()[..k], 32)
            && Given(BLANK, hs) == [1]
  {
    hide AfterHappening, CalculationId, Decimal, Highest, IsCalculation, Keep, AfterAll, Given, Calculates;
    if k == 0 {
      KeepAll([CalculationId(1)], 32);
      FirstIsGiven(o);
      assert [Saw(o)] + Telling(Strangers())[..0] == [Saw(o)];
      assert [CalculationId(1)] + Strangers()[..0] == [CalculationId(1)] == [CalculationId(1)] + [];
    } else {
      StrangersAreKept(o, k - 1);
      var front, id := [Saw(o)] + Telling(Strangers())[..k - 1], Strangers()[k - 1];
      var told := Heard(Listed(CalculationIds, id));
      assert [Saw(o)] + Telling(Strangers())[..k] == front + [told];
      AfterOne(BLANK, told, front);
      StrangerIsNew(k);
      StrangerTold(AfterAll(BLANK, front), id);
      assert [CalculationId(1)] + Strangers()[..k] == [CalculationId(1)] + Strangers()[..k - 1] + [id];
      KeptTwice([CalculationId(1)] + Strangers()[..k - 1], id);
      NothingCalculated(told);
      assert [1] + [] == [1];
    }
  }

  lemma KeptTwice(ids: seq<string>, id: string)
    ensures Keep(Keep(ids, 32) + [id], 32) == Keep(ids + [id], 32)
  {
  }

  lemma NothingCalculated(h: Happening)
    requires h.Heard?
    ensures !Calculates(h)
  {
  }

  lemma StrangerTold(st: State, id: string)
    requires Line(id) == id && id != "" && id !in st.calculationIds
    ensures AfterHappening(st, Heard(Listed(CalculationIds, id))).calculationIds == Keep(st.calculationIds + [id], 32)
  {
    hide Line, Keep;
    TellingGives(st, id);
  }

  lemma StrangerIsNew(k: nat)
    requires 0 < k <= 32
    ensures var id := Strangers()[k - 1];
            Line(id) == id && id != "" && id !in Keep([CalculationId(1)] + Strangers()[..k - 1], 32)
  {
    hide CalculationId, Decimal, Line, CalculationNumber;
    StrangerIsTidy(k - 1);
  }

  lemma FirstIsGiven(o: Observation)
    requires IsCalculation(o.tool)
    ensures AfterAll(BLANK, [Saw(o)]).calculationIds == [CalculationId(1)] && Given(BLANK, [Saw(o)]) == [1]
  {
    hide *;
    AfterOne(BLANK, Saw(o), []);
    assert [] + [Saw(o)] == [Saw(o)] && [] + [1] == [1];
    BlankIsWellKept();
    NothingHeldIsZero(o);
    FirstKept(o);
    ObserveCounts(BLANK, o);
  }

  lemma FirstKept(o: Observation)
    ensures 1 < SAFE && BLANK.calculationIds == [] && Keep([] + [CalculationId(1)], 32) == [CalculationId(1)]
    ensures forall st: State :: AfterHappening(st, Saw(o)) == Observe(st, o)
  {
    hide CalculationId, Observe;
  }

  lemma {:induction false} StrangersHaveNoNumber(ids: seq<string>)
    requires forall id :: id in ids ==> CalculationNumber(id).None?
    ensures Highest(ids) == 0
  {
    hide CalculationNumber;
    if ids != [] { StrangersHaveNoNumber(ids[..|ids| - 1]); }
  }

  /** Calculations told from outside push the only number out, and the next result is given it again. */
  lemma TellingCanReuse(o: Observation)
    requires IsCalculation(o.tool)
    ensures Given(BLANK, [Saw(o)] + Telling(Strangers()) + [Saw(o)]) == [1, 1]
  {
    hide *;
    var hs := [Saw(o)] + Telling(Strangers());
    StrangersAreKept(o, 32);
    AfterOne(BLANK, Saw(o), hs);
    OnlyStrangersLeft();
    forall id | id in Strangers() ensures CalculationNumber(id).None? {
      var k :| 0 <= k < 32 && Strangers()[k] == id;
      StrangerIsTidy(k);
    }
    StrangersHaveNoNumber(Strangers());
    NothingHeldIsZero(o);
    assert Telling(Strangers())[..32] == Telling(Strangers());
    assert [1] + [1] == [1, 1];
  }

  lemma OnlyStrangersLeft()
    ensures Keep([CalculationId(1)] + Strangers()[..32], 32) == Strangers()
  {
    hide CalculationId, Decimal;
  }

  lemma AfterOne(st: State, h: Happening, front: seq<Happening>)
    ensures AfterAll(st, []) == st && Given(st, []) == []
    ensures AfterAll(st, front + [h]) == AfterHappening(AfterAll(st, front), h)
    ensures Given(st, front + [h]) == Given(st, front) + if Calculates(h) then [Highest(AfterAll(st, front).calculationIds) + 1] else []
  {
    hide AfterHappening, Highest, Calculates;
    assert (front + [h])[..|front|] == front;
  }

  lemma NothingHeldIsZero(o: Observation)
    requires IsCalculation(o.tool)
    ensures Highest(BLANK.calculationIds) == 0 && Calculates(Saw(o)) && !Calculates(Corrected(BLANK))
    ensures forall st: State :: AfterHappening(st, Corrected(BLANK)) == Load(BLANK)
  {
    hide Load, IsCalculation;
  }

  // ---------------------------------------------------------------- which markers are held

  lemma MarkersAreTidy(text: string, m: string)
    requires m in MarkersIn(text) && |m| <= LINE_CHARS
    ensures m != "" && Tidy(m)
  {
    hide Pruning.Markers, Pruning.Distinct;
    forall k | 0 <= k < |m| ensures !IsSpace(m[k]) {
      if k > 0 { assert m[k] == m[1..][k - 1]; }
    }
  }

  lemma EvidenceAfter(st: State, o: Observation)
    ensures Observe(st, o).evidenceIds == ApplyAll(st, EvidenceNotes(o)).evidenceIds
  {
    hide Apply, ApplyAll, CalculationId, Highest, TargetOf, MarkersIn, Canonical, IsCalculation;
    var seen := ApplyAll(st, EvidenceNotes(o));
    AllOthersLeaveList(seen, CalculationNotes(seen, o), EvidenceIds);
    AllOthersLeaveList(ApplyAll(seen, CalculationNotes(seen, o)), EffectNotes(o), EvidenceIds);
  }

  lemma AcceptedMore(st: State, ids: seq<string>, into: IdList, k: nat)
    requires 0 < k <= |ids| && ids[k - 1] != "" && Tidy(ids[k - 1])
    ensures var front := Ids(ids, into)[..k - 1];
            AcceptedIds(st, Ids(ids, into)[..k], into) ==
            AcceptedIds(st, front, into) + if ids[k - 1] in into.In(ApplyAll(st, front)) then [] else [ids[k - 1]]
  {
    hide Tidy, Line, Apply, ApplyAll, IdList.In;
    var notes, front := Ids(ids, into)[..k], Ids(ids, into)[..k - 1];
    assert notes[..k - 1] == front && notes[k - 1] == Listed(into, ids[k - 1]);
    LineOfTidy(ids[k - 1]);
  }

  lemma HeldIsKnownOrAccepted(st: State, ids: seq<string>, into: IdList, k: nat, id: string)
    requires k <= |ids| && |into.In(st)| <= into.Cap() && id in into.In(ApplyAll(st, Ids(ids, into)[..k]))
    ensures id in into.In(st) || id in AcceptedIds(st, Ids(ids, into)[..k], into)
  {
    hide ApplyAll, AcceptedIds, IdList.In, IdList.Cap;
    IdsAreAWindow(st, Ids(ids, into)[..k], into);
  }

  /** Telling distinct tidy ids: each is accepted at most once, and none is passed over that was not held at the start. */
  lemma {:induction false} ToldIsKnownOrAccepted(st: State, ids: seq<string>, into: IdList, k: nat)
    requires k <= |ids| && |into.In(st)| <= into.Cap()
    requires DistinctIds(ids) && forall id :: id in ids ==> id != "" && Tidy(id)
    ensures var accepted := AcceptedIds(st, Ids(ids, into)[..k], into);
            && DistinctIds(accepted) && (forall x :: x in accepted ==> x in ids[..k])
            && forall j :: 0 <= j < k ==> ids[j] in into.In(st) || ids[j] in accepted
  {
    hide Tidy, ApplyAll, AcceptedIds, IdList.In, IdList.Cap;
    if k == 0 {
      NothingAccepted(st, ids, into);
    } else {
      ToldIsKnownOrAccepted(st, ids, into, k - 1);
      assert ids[k - 1] in ids && ids[k - 1] !in ids[..k - 1];
      AcceptedMore(st, ids, into, k);
      if ids[k - 1] in into.In(ApplyAll(st, Ids(ids, into)[..k - 1])) { HeldIsKnownOrAccepted(st, ids, into, k - 1, ids[k - 1]); }
      assert ids[..k] == ids[..k - 1] + [ids[k - 1]];
    }
  }

  lemma NothingAccepted(st: State, ids: seq<string>, into: IdList)
    ensures AcceptedIds(st, Ids(ids, into)[..0], into) == []
  {
  }

  /** Every one of `known` or `accepted` that `told` names is still there. */
  ghost predicate NonePushedOut(known: seq<string>, accepted: seq<string>, told: seq<string>, cap: nat) {
    && |accepted| <= cap
    && forall k :: 0 <= k < |known| && k + cap < |known| + |accepted| && known[k] in told ==> known[k] in accepted
  }

  lemma WindowHoldsIff(known: seq<string>, accepted: seq<string>, told: seq<string>, cap: nat)
    requires DistinctIds(known) && DistinctIds(accepted) && |known| <= cap
    requires forall x :: x in accepted ==> x in told
    requires forall x :: x in told ==> x in known || x in accepted
    ensures (forall x :: x in told ==> x in Keep(known + accepted, cap)) <==> NonePushedOut(known, accepted, told, cap)
  {
    var all, held := known + accepted, Keep(known + accepted, cap);
    var from := |all| - |held|;
    assert forall k :: 0 <= k < |held| ==> held[k] == all[from + k];
    if forall x :: x in told ==> x in held {
      AllHeldMeansNoneOut(known, accepted, told, cap);
    }
    if NonePushedOut(known, accepted, told, cap) {
      forall x | x in told ensures x in held {
        if x in accepted {
          var j :| 0 <= j < |accepted| && accepted[j] == x;
          assert held[|known| + j - from] == x;
        } else {
          var k :| 0 <= k < |known| && known[k] == x;
          assert held[k - from] == x;
        }
      }
    }
  }

  lemma AllHeldMeansNoneOut(known: seq<string>, accepted: seq<string>, told: seq<string>, cap: nat)
    requires DistinctIds(known) && DistinctIds(accepted) && |known| <= cap
    requires forall x :: x in accepted ==> x in told
    requires forall x :: x in told ==> x in Keep(known + accepted, cap)
    ensures NonePushedOut(known, accepted, told, cap)
  {
    var all, held := known + accepted, Keep(known + accepted, cap);
    var from := |all| - |held|;
    assert forall k :: 0 <= k < |held| ==> held[k] == all[from + k];
    if accepted != [] {
      assert accepted[0] in told;
      var k :| 0 <= k < |held| && held[k] == accepted[0];
      assert forall j :: |known| < j < |all| ==> all[j] == accepted[j - |known|] && all[j] != accepted[0];
      assert from + k <= |known|;
    }
    forall k | 0 <= k < |known| && k + cap < |known| + |accepted| && known[k] in told ensures known[k] in accepted {
      var j :| 0 <= j < |held| && held[j] == known[k];
      assert held[j] == all[from + j];
    }
  }

  lemma ShortMarkersAreHeldIff(st: State, o: Observation)
    requires WellKept(st) && IsEvidenceProducing(o.tool)
    requires forall m :: m in MarkersIn(o.text) ==> |m| <= LINE_CHARS
    ensures (forall m :: m in MarkersIn(o.text) ==> m in Observe(st, o).evidenceIds)
            <==> NonePushedOut(st.evidenceIds, AcceptedIds(st, EvidenceNotes(o), EvidenceIds), MarkersIn(o.text), EvidenceIds.Cap())
  {
    hide *;
    var markers := MarkersIn(o.text);
    var accepted := AcceptedIds(st, EvidenceNotes(o), EvidenceIds);
    EvidenceAfter(st, o);
    EvidenceIsClean(st);
    forall m | m in markers ensures m != "" && Tidy(m) { MarkersAreTidy(o.text, m); }
    MarkersAreDistinct(o.text);
    NotesOfMarkers(o);
    EvidenceWindow(st, o);
    ToldIsKnownOrAccepted(st, markers, EvidenceIds, |markers|);
    assert markers[..|markers|] == markers;
    forall m | m in markers ensures m in st.evidenceIds || m in accepted {
      var j :| 0 <= j < |markers| && markers[j] == m;
    }
    WindowHoldsIff(st.evidenceIds, accepted, markers, EvidenceIds.Cap());
  }

  lemma HeldAreShort(st: State, o: Observation)
    requires WellKept(st)
    ensures forall x :: x in Observe(st, o).evidenceIds ==> |x| <= LINE_CHARS
  {
    hide WellKept, Observe;
    ObserveKeepsWellKept(st, o);
    EvidenceIsClean(Observe(st, o));
  }

  /**
   * The markers of an evidence result are all held after it exactly when none is longer than a line, and the
   * result makes the list accept no more than the cap and pushes out none of them that it does not make the
   * list accept again.
   */
  lemma MarkersAreHeldIff(st: State, o: Observation)
    requires WellKept(st) && IsEvidenceProducing(o.tool)
    ensures (forall m :: m in MarkersIn(o.text) ==> m in Observe(st, o).evidenceIds)
            <==> (forall m :: m in MarkersIn(o.text) ==> |m| <= LINE_CHARS)
                 && NonePushedOut(st.evidenceIds, AcceptedIds(st, EvidenceNotes(o), EvidenceIds), MarkersIn(o.text), EvidenceIds.Cap())
  {
    hide *;
    HeldAreShort(st, o);
    if forall m :: m in MarkersIn(o.text) ==> |m| <= LINE_CHARS { ShortMarkersAreHeldIff(st, o); }
  }

  lemma MarkersAreDistinct(text: string)
    ensures DistinctIds(MarkersIn(text))
  {
    hide Pruning.Markers;
  }

  lemma NotesOfMarkers(o: Observation)
    requires IsEvidenceProducing(o.tool)
    ensures var notes := Ids(MarkersIn(o.text), EvidenceIds);
            EvidenceNotes(o) == notes && |notes| == |MarkersIn(o.text)| && notes[..|notes|] == notes
    ensures EvidenceIds.Cap() == 64
  {
    hide MarkersIn, IsEvidenceProducing;
  }

  lemma EvidenceWindow(st: State, o: Observation)
    requires |st.evidenceIds| <= EvidenceIds.Cap()
    ensures EvidenceIds.In(st) == st.evidenceIds
    ensures ApplyAll(st, EvidenceNotes(o)).evidenceIds ==
            Keep(st.evidenceIds + AcceptedIds(st, EvidenceNotes(o), EvidenceIds), EvidenceIds.Cap())
  {
    hide ApplyAll, AcceptedIds, MarkersIn, IsEvidenceProducing, Keep;
    IdsAreAWindow(st, EvidenceNotes(o), EvidenceIds);
  }

  /** While there is room for them, every marker in an evidence result is held, so the result can be cleared later. */
  lemma MarkersAreHeld(st: State, o: Observation)
    requires IsEvidenceProducing(o.tool) && |st.evidenceIds| + |MarkersIn(o.text)| <= EvidenceIds.Cap()
    requires forall m :: m in MarkersIn(o.text) ==> |m| <= LINE_CHARS
    ensures forall m :: m in MarkersIn(o.text) ==> m in Observe(st, o).evidenceIds
  {
    hide WellKept, ApplyAll, AcceptedIds, EvidenceNotes, MarkersIn, Observe, Tidy, DistinctIds, IsEvidenceProducing;
    var markers := MarkersIn(o.text);
    EvidenceAfter(st, o);
    NotesOfMarkers(o);
    MarkersAreDistinct(o.text);
    forall m | m in markers ensures m != "" && Tidy(m) { MarkersAreTidy(o.text, m); }
    EvidenceWindow(st, o);
    AcceptedAtMost(st, EvidenceNotes(o), EvidenceIds);
    ToldIsKnownOrAccepted(st, markers, EvidenceIds, |markers|);
  }

  lemma {:induction false} AcceptedAtMost(st: State, notes: seq<Note>, l: IdList)
    ensures |AcceptedIds(st, notes, l)| <= |notes|
  {
    hide ApplyAll, Line;
    if notes != [] { AcceptedAtMost(st, notes[..|notes| - 1], l); }
  }

  lemma PushesOut(ids: seq<string>, y: string)
    requires ids != [] && DistinctIds(ids) && y !in ids
    ensures ids[0] !in Keep(ids + [y], |ids|) && y in Keep(ids + [y], |ids|)
  {
    var all := ids + [y];
    assert forall k :: 1 <= k < |all| ==> all[k] == (if k < |ids| then ids[k] else y);
    assert all[1..][|ids| - 1] == y;
    forall k | 0 <= k < |ids| ensures all[1..][k] != ids[0] {
      assert k + 1 < |ids| ==> ids[k + 1] != ids[0];
      assert y != ids[0];
    }
  }

  lemma SixtyFour()
    ensures EvidenceIds.Cap() == 64
  {
  }

  lemma EvidenceIsClean(st: State)
    requires WellKept(st)
    ensures |st.evidenceIds| <= EvidenceIds.Cap() && DistinctIds(st.evidenceIds) && forall x :: x in st.evidenceIds ==> x != "" && Tidy(x)
  {
    hide Tidy, CleanDecisions, CleanEffects, CleanValues;
    assert CleanIds(EvidenceIds.In(st), EvidenceIds.Cap());
  }

  lemma EvidenceOfTwo(o: Observation, x: string, y: string)
    requires IsEvidenceProducing(o.tool) && MarkersIn(o.text) == [x, y]
    ensures EvidenceNotes(o) == [Listed(EvidenceIds, x)] + [Listed(EvidenceIds, y)]
  {
    hide MarkersIn, IsEvidenceProducing;
  }

  lemma SeenAgain(st: State, x: string)
    requires x in st.evidenceIds && Tidy(x)
    ensures Apply(st, Listed(EvidenceIds, x)) == st
  {
    hide Line, Tidy, Pushed;
    LineOfTidy(x);
  }

  lemma SeenFirst(st: State, y: string)
    requires y !in st.evidenceIds && y != "" && Tidy(y)
    ensures Apply(st, Listed(EvidenceIds, y)).evidenceIds == Keep(st.evidenceIds + [y], 64)
  {
    hide Line, Tidy, Keep, CountDrops;
    LineOfTidy(y);
  }

  /** In full notes a marker seen again is not moved up, so a newer one in the same result can push it out. */
  lemma FullNotesForgetAMarker(st: State, o: Observation, x: string, y: string)
    requires WellKept(st) && |st.evidenceIds| == EvidenceIds.Cap() && st.evidenceIds[0] == x
    requires IsEvidenceProducing(o.tool) && MarkersIn(o.text) == [x, y] && y !in st.evidenceIds && |y| <= LINE_CHARS
    ensures x !in Observe(st, o).evidenceIds && y in Observe(st, o).evidenceIds
  {
    hide *;
    SixtyFour();
    EvidenceIsClean(st);
    assert x in st.evidenceIds;
    MarkersAreTidy(o.text, y);
    EvidenceAfter(st, o);
    EvidenceOfTwo(o, x, y);
    ApplyTwo(st, Listed(EvidenceIds, x), Listed(EvidenceIds, y));
    SeenAgain(st, x);
    SeenFirst(st, y);
    PushesOut(st.evidenceIds, y);
  }
}
