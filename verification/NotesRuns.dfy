/** What the notes keep over whole runs, across any number of reloads. */
module NotesRuns {
  import opened Text
  import opened ToolNames
  import opened Notes

  // ---------------------------------------------------------------- the invariant

  ghost predicate DistinctIds(ids: seq<string>) {
    forall i, j :: 0 <= i < j < |ids| ==> ids[i] != ids[j]
  }

  ghost predicate CleanIds(ids: seq<string>, cap: nat) {
    |ids| <= cap && DistinctIds(ids) && forall id :: id in ids ==> id != "" && Tidy(id)
  }

  ghost predicate CleanDecisions(ds: seq<Decision>) {
    |ds| <= DECISIONS && forall d :: d in ds ==> Tidy(d.what) && Tidy(d.because)
  }

  ghost predicate CleanEffects(es: seq<Effect>) {
    && |es| <= COMPLETED
    && (forall e :: e in es ==> NameOf(e.tool) == e.tool && Tidy(e.target))
    && forall i, j :: 0 <= i < j < |es| ==> !(es[i].tool == es[j].tool && es[i].target == es[j].target)
  }

  ghost predicate CleanValues(st: State) {
    Tidy(st.goal) && Tidy(st.stage.intent) && Floor(st.stage.ordinal) == st.stage.ordinal && Tidy(st.nextAction)
  }

  /** Capped lists, tidy and distinct ids, and effects no two of which are the same under any spelling. */
  ghost predicate WellKept(st: State) {
    && CleanValues(st) && CleanDecisions(st.decisions) && CleanEffects(st.completed)
    && forall l: IdList :: CleanIds(l.In(st), l.Cap())
  }

  /** So the notes stay bounded, list by list. */
  lemma HeldAtMost(st: State)
    requires WellKept(st)
    ensures |st.decisions| <= 12 && |st.completed| <= 32 && |st.openQuestions| <= 8
    ensures |st.evidenceIds| <= 64 && |st.calculationIds| <= 32 && |st.artifactIds| <= 16
    ensures EvidenceIds.Cap() == 64 && CalculationIds.Cap() == 32 && ArtifactIds.Cap() == 16 && OpenQuestions.Cap() == 8
  {
    hide CleanValues, DistinctIds, Tidy, NameOf;
    assert CleanIds(EvidenceIds.In(st), EvidenceIds.Cap()) && CleanIds(CalculationIds.In(st), CalculationIds.Cap());
    assert CleanIds(ArtifactIds.In(st), ArtifactIds.Cap()) && CleanIds(OpenQuestions.In(st), OpenQuestions.Cap());
  }

  lemma FloorIsStable(x: real)
    ensures Floor(Floor(x)) == Floor(x)
  {
  }

  lemma KeepsDecisions(ds: seq<Decision>, what: string, because: string, at: string)
    requires CleanDecisions(ds)
    ensures CleanDecisions(Keep(ds + [Decision(Line(what), Line(because), at)], DECISIONS))
  {
    LineIsTidy(what);
    LineIsTidy(because);
    hide Line, Tidy;
  }

  lemma KeepsIds(ids: seq<string>, id: string, cap: nat, dropped: map<Counter, int>, key: Counter)
    requires CleanIds(ids, cap)
    ensures CleanIds(WithId(ids, id, cap, dropped, key).0, cap)
  {
    hide Line, Tidy, CountDrops, Keep, CleanIds;
    LineIsTidy(id);
    if Line(id) != "" && Line(id) !in ids { KeepsOneMore(ids, Line(id), cap); }
  }

  lemma KeepsOneMore(ids: seq<string>, id: string, cap: nat)
    requires CleanIds(ids, cap) && id !in ids && id != "" && Tidy(id)
    ensures CleanIds(Keep(ids + [id], cap), cap)
  {
    hide Tidy;
    var all, kept := ids + [id], Keep(ids + [id], cap);
    assert forall k :: 0 <= k < |all| ==> if k < |ids| then all[k] in ids else all[k] == id;
    assert forall k :: 0 <= k < |kept| ==> kept[k] == all[|all| - |kept| + k];
  }

  lemma KeepsQuestions(questions: seq<string>, gone: string, cap: nat)
    requires CleanIds(questions, cap)
    ensures CleanIds(Without(questions, gone), cap)
  {
    WithoutKeepsOrder(questions, gone);
    hide Tidy;
  }

  lemma {:induction false} WithoutKeepsOrder(questions: seq<string>, gone: string)
    requires DistinctIds(questions)
    ensures DistinctIds(Without(questions, gone))
  {
    if questions != [] {
      WithoutKeepsOrder(questions[1..], gone);
      var rest := Without(questions[1..], gone);
      assert forall k :: 0 <= k < |rest| ==> rest[k] in questions[1..];
      assert questions[0] !in questions[1..];
    }
  }

  lemma KeepsEffects(es: seq<Effect>, tool: string, target: string, at: string)
    requires CleanEffects(es) && !Done(es, tool, target)
    ensures CleanEffects(Keep(es + [Effect(NameOf(tool), Line(target), at)], COMPLETED))
  {
    hide Line, Tidy, NameOf, Keep, CleanEffects;
    LineIsTidy(target);
    NameIsStable(tool);
    NoneTheSame(es, tool, target);
    KeepsOneMoreEffect(es, Effect(NameOf(tool), Line(target), at));
  }

  lemma NoneTheSame(es: seq<Effect>, tool: string, target: string)
    requires CleanEffects(es) && !Done(es, tool, target)
    ensures forall e :: e in es ==> !(e.tool == NameOf(tool) && e.target == Line(target))
  {
    hide Line, Tidy, NameOf;
    forall k | 0 <= k < |es| ensures !(es[k].tool == NameOf(tool) && es[k].target == Line(target)) {
      assert es[k] in es && !Matches(es[k], tool, target);
    }
  }

  lemma KeepsOneMoreEffect(es: seq<Effect>, e: Effect)
    requires CleanEffects(es) && NameOf(e.tool) == e.tool && Tidy(e.target)
    requires forall o :: o in es ==> !(o.tool == e.tool && o.target == e.target)
    ensures CleanEffects(Keep(es + [e], COMPLETED))
  {
    hide Tidy, NameOf;
    var all, kept := es + [e], Keep(es + [e], COMPLETED);
    var from := |all| - |kept|;
    forall k | 0 <= k < |kept| ensures NameOf(kept[k].tool) == kept[k].tool && Tidy(kept[k].target) {
      assert kept[k] == all[from + k];
      if from + k < |es| { assert es[from + k] in es; }
    }
    forall i, j | 0 <= i < j < |kept| ensures !(kept[i].tool == kept[j].tool && kept[i].target == kept[j].target) {
      assert kept[i] == es[from + i] && kept[j] == all[from + j];
      assert es[from + i] in es;
    }
  }

  lemma ApplyKeepsWellKept(st: State, note: Note)
    requires WellKept(st)
    ensures WellKept(Apply(st, note))
  {
    hide Line, Tidy, NameOf, Done, Keep, CountDrops, Without, Floor, CleanIds, CleanDecisions, CleanEffects;
    match note {
      case Goal(goal) => LineIsTidy(goal);
      case AtStage(ordinal, intent) =>
        LineIsTidy(intent);
        FloorIsStable(ordinal);
      case Decided(what, because, at) => KeepsDecisions(st.decisions, what, because, at);
      case Listed(into, id) =>
        KeepsIds(into.In(st), id, into.Cap(), st.dropped, Of(into));
        hide WithId;
        assert CleanIds(into.In(Apply(st, note)), into.Cap());
        assert forall l: IdList :: l != into ==> l.In(Apply(st, note)) == l.In(st);
      case Answered(question) =>
        KeepsQuestions(OpenQuestions.In(st), Line(question), OpenQuestions.Cap());
        assert forall l: IdList :: l != OpenQuestions ==> l.In(Apply(st, note)) == l.In(st);
      case Next(action) => LineIsTidy(action);
      case DidEffect(tool, target, at) =>
        if !Done(st.completed, tool, target) { KeepsEffects(st.completed, tool, target, at); }
    }
  }

  lemma {:induction false} ApplyAllKeepsWellKept(st: State, notes: seq<Note>)
    requires WellKept(st)
    ensures WellKept(ApplyAll(st, notes))
  {
    hide WellKept, Apply;
    if notes != [] {
      ApplyAllKeepsWellKept(st, notes[..|notes| - 1]);
      ApplyKeepsWellKept(ApplyAll(st, notes[..|notes| - 1]), notes[|notes| - 1]);
    }
  }

  lemma OpeningIsWellKept(saved: State)
    ensures WellKept(Opening(saved))
  {
    LineIsTidy(saved.goal);
    LineIsTidy(saved.stage.intent);
    LineIsTidy(saved.nextAction);
    hide Line, Tidy, NameOf;
  }

  /** Whatever a persisted record holds, what is loaded from it is bounded and clean. */
  lemma LoadIsWellKept(saved: State)
    ensures WellKept(Load(saved))
  {
    hide WellKept, ApplyAll, Opening, Decisions, Ids, Effects;
    OpeningIsWellKept(saved);
    var s1 := ApplyAll(Opening(saved), Decisions(saved.decisions));
    ApplyAllKeepsWellKept(Opening(saved), Decisions(saved.decisions));
    var s2 := ApplyAll(s1, Ids(saved.evidenceIds, EvidenceIds));
    ApplyAllKeepsWellKept(s1, Ids(saved.evidenceIds, EvidenceIds));
    var s3 := ApplyAll(s2, Ids(saved.calculationIds, CalculationIds));
    ApplyAllKeepsWellKept(s2, Ids(saved.calculationIds, CalculationIds));
    var s4 := ApplyAll(s3, Ids(saved.artifactIds, ArtifactIds));
    ApplyAllKeepsWellKept(s3, Ids(saved.artifactIds, ArtifactIds));
    var s5 := ApplyAll(s4, Ids(saved.openQuestions, OpenQuestions));
    ApplyAllKeepsWellKept(s4, Ids(saved.openQuestions, OpenQuestions));
    ApplyAllKeepsWellKept(s5, Effects(saved.completed));
  }

  // ---------------------------------------------------------------- persistence

  lemma TellsDecision(s: State, d: Decision)
    requires |s.decisions| < DECISIONS && Tidy(d.what) && Tidy(d.because)
    ensures Apply(s, Decided(d.what, d.because, d.at)) == s.(decisions := s.decisions + [d])
  {
    hide Tidy, Line;
    LineOfTidy(d.what);
    LineOfTidy(d.because);
  }

  lemma {:induction false} DecisionsRetold(s: State, ds: seq<Decision>, k: nat)
    requires s.decisions == [] && CleanDecisions(ds) && k <= |ds|
    ensures ApplyAll(s, Decisions(ds)[..k]) == s.(decisions := ds[..k])
  {
    hide Tidy, Apply, ApplyAll;
    AllOf(s, Decisions(ds));
    if k > 0 {
      DecisionsRetold(s, ds, k - 1);
      OneMore(s, Decisions(ds), k - 1);
      assert ds[k - 1] in ds;
      TellsDecision(s.(decisions := ds[..k - 1]), ds[k - 1]);
      assert ds[..k - 1] + [ds[k - 1]] == ds[..k];
    }
  }

  lemma TellsId(s: State, id: string, into: IdList)
    requires |into.In(s)| < into.Cap() && id !in into.In(s) && id != "" && Tidy(id)
    ensures Apply(s, Listed(into, id)) == into.Put(s, into.In(s) + [id])
  {
    hide Tidy, Line;
    LineOfTidy(id);
  }

  lemma {:induction false} IdsRetold(s: State, ids: seq<string>, into: IdList, k: nat)
    requires into.In(s) == [] && CleanIds(ids, into.Cap()) && k <= |ids|
    ensures ApplyAll(s, Ids(ids, into)[..k]) == into.Put(s, ids[..k])
  {
    hide Tidy, Apply, ApplyAll;
    AllOf(s, Ids(ids, into));
    if k > 0 {
      IdsRetold(s, ids, into, k - 1);
      OneMore(s, Ids(ids, into), k - 1);
      assert ids[k - 1] in ids && ids[k - 1] !in ids[..k - 1];
      TellsId(into.Put(s, ids[..k - 1]), ids[k - 1], into);
      assert ids[..k - 1] + [ids[k - 1]] == ids[..k];
    }
  }

  lemma NotYetDone(es: seq<Effect>, k: nat)
    requires CleanEffects(es) && k < |es|
    ensures !Done(es[..k], es[k].tool, es[k].target)
  {
    hide Tidy, Line, NameOf;
    assert es[k] in es;
    LineOfTidy(es[k].target);
    forall j | 0 <= j < k ensures !Matches(es[j], es[k].tool, es[k].target) {
      assert es[j] in es;
    }
  }

  lemma TellsEffect(s: State, e: Effect)
    requires |s.completed| < COMPLETED && NameOf(e.tool) == e.tool && Tidy(e.target) && !Done(s.completed, e.tool, e.target)
    ensures Apply(s, DidEffect(e.tool, e.target, e.at)) == s.(completed := s.completed + [e])
  {
    hide Tidy, Line, NameOf, Done;
    LineOfTidy(e.target);
  }

  lemma {:induction false} EffectsRetold(s: State, es: seq<Effect>, k: nat)
    requires s.completed == [] && CleanEffects(es) && k <= |es|
    ensures ApplyAll(s, Effects(es)[..k]) == s.(completed := es[..k])
  {
    hide Tidy, Apply, ApplyAll, NameOf, Done;
    AllOf(s, Effects(es));
    if k > 0 {
      EffectsRetold(s, es, k - 1);
      OneMore(s, Effects(es), k - 1);
      assert es[k - 1] in es;
      NotYetDone(es, k - 1);
      TellsEffect(s.(completed := es[..k - 1]), es[k - 1]);
      assert es[..k - 1] + [es[k - 1]] == es[..k];
    }
  }

  lemma OpeningOfClean(st: State)
    requires CleanValues(st)
    ensures Opening(st) == BLANK.(goal := st.goal, stage := st.stage, nextAction := st.nextAction, dropped := st.dropped)
  {
    hide Line, Tidy;
    LineOfTidy(st.goal);
    LineOfTidy(st.stage.intent);
    LineOfTidy(st.nextAction);
  }

  lemma AllIds(s: State, ids: seq<string>, into: IdList)
    requires into.In(s) == [] && CleanIds(ids, into.Cap())
    ensures ApplyAll(s, Ids(ids, into)) == into.Put(s, ids)
  {
    hide ApplyAll, CleanIds;
    IdsRetold(s, ids, into, |ids|);
    AllOf(s, Ids(ids, into));
  }

  lemma AllDecisions(s: State, ds: seq<Decision>)
    requires s.decisions == [] && CleanDecisions(ds)
    ensures ApplyAll(s, Decisions(ds)) == s.(decisions := ds)
  {
    hide ApplyAll, CleanDecisions;
    DecisionsRetold(s, ds, |ds|);
    AllOf(s, Decisions(ds));
  }

  lemma AllEffects(s: State, es: seq<Effect>)
    requires s.completed == [] && CleanEffects(es)
    ensures ApplyAll(s, Effects(es)) == s.(completed := es)
  {
    hide ApplyAll, CleanEffects;
    EffectsRetold(s, es, |es|);
    AllOf(s, Effects(es));
  }

  lemma PartsAreClean(st: State)
    requires WellKept(st)
    ensures CleanValues(st) && CleanDecisions(st.decisions) && CleanEffects(st.completed)
    ensures CleanIds(st.evidenceIds, EvidenceIds.Cap()) && CleanIds(st.calculationIds, CalculationIds.Cap())
    ensures CleanIds(st.artifactIds, ArtifactIds.Cap()) && CleanIds(st.openQuestions, OpenQuestions.Cap())
  {
    hide CleanValues, CleanDecisions, CleanEffects, CleanIds;
    assert CleanIds(EvidenceIds.In(st), EvidenceIds.Cap()) && CleanIds(CalculationIds.In(st), CalculationIds.Cap());
    assert CleanIds(ArtifactIds.In(st), ArtifactIds.Cap()) && CleanIds(OpenQuestions.In(st), OpenQuestions.Cap());
  }

  /** A clean record reads back as itself: a restart loses nothing and counts nothing twice. */
  lemma LoadOfWellKept(st: State)
    requires WellKept(st)
    ensures Load(st) == st
  {
    hide ApplyAll, Opening, Decisions, Ids, Effects, WellKept, CleanIds, CleanDecisions, CleanEffects, CleanValues;
    PartsAreClean(st);
    OpeningOfClean(st);
    var s0 := Opening(st);
    AllDecisions(s0, st.decisions);
    var s1 := s0.(decisions := st.decisions);
    AllIds(s1, st.evidenceIds, EvidenceIds);
    var s2 := s1.(evidenceIds := st.evidenceIds);
    AllIds(s2, st.calculationIds, CalculationIds);
    var s3 := s2.(calculationIds := st.calculationIds);
    AllIds(s3, st.artifactIds, ArtifactIds);
    var s4 := s3.(artifactIds := st.artifactIds);
    AllIds(s4, st.openQuestions, OpenQuestions);
    var s5 := s4.(openQuestions := st.openQuestions);
    AllEffects(s5, st.completed);
  }

  /** One thing that happens to the notes of a run. */
  datatype Event = Told(note: Note) | Adopted(saved: State) | Restarted

  function After(st: State, ev: Event): State {
    match ev
    case Told(note) => Apply(st, note)
    case Adopted(saved) => Load(saved)
    case Restarted => Load(st)
  }

  function Run(events: seq<Event>): State {
    if events == [] then BLANK else After(Run(events[..|events| - 1]), events[|events| - 1])
  }

  lemma {:induction false} RunIsWellKept(events: seq<Event>)
    ensures WellKept(Run(events))
  {
    hide WellKept, Apply, Load;
    if events == [] {
      BlankIsWellKept();
    } else {
      RunIsWellKept(events[..|events| - 1]);
      match events[|events| - 1] {
        case Told(note) => ApplyKeepsWellKept(Run(events[..|events| - 1]), note);
        case Adopted(saved) => LoadIsWellKept(saved);
        case Restarted => LoadIsWellKept(Run(events[..|events| - 1]));
      }
    }
  }

  lemma BlankIsWellKept()
    ensures WellKept(BLANK)
  {
    hide NameOf;
  }

  /** Notes survive persistence: what any run holds is what a resumption reads back. */
  lemma NotesSurvivePersistence(events: seq<Event>)
    ensures Load(Run(events)) == Run(events)
  {
    hide WellKept, Load;
    RunIsWellKept(events);
    LoadOfWellKept(Run(events));
  }

  function ToldIn(events: seq<Event>): seq<Note> {
    if events == [] then []
    else ToldIn(events[..|events| - 1]) + if events[|events| - 1].Told? then [events[|events| - 1].note] else []
  }

  /** However often a run restarts, its notes are those of the run that never did. */
  lemma {:induction false} RestartsDoNotShow(events: seq<Event>)
    requires forall ev :: ev in events ==> !ev.Adopted?
    ensures Run(events) == ApplyAll(BLANK, ToldIn(events))
  {
    hide Apply, Load;
    if events != [] {
      var front, last := events[..|events| - 1], events[|events| - 1];
      assert last in events;
      RestartsDoNotShow(front);
      NotesSurvivePersistence(front);
      var told := ToldIn(front);
      if last.Told? {
        assert (told + [last.note])[..|told|] == told;
      } else {
        assert told + [] == told;
      }
    }
  }

  // ---------------------------------------------------------------- first in, first out

  function NewIds(st: State, note: Note, l: IdList): seq<string> {
    if note.Listed? && note.into == l && Line(note.id) != "" && Line(note.id) !in l.In(st) then [Line(note.id)] else []
  }

  /** The entries a list has accepted, oldest first. */
  function AcceptedIds(st: State, notes: seq<Note>, l: IdList): seq<string> {
    if notes == [] then []
    else AcceptedIds(st, notes[..|notes| - 1], l) + NewIds(ApplyAll(st, notes[..|notes| - 1]), notes[|notes| - 1], l)
  }

  function NewDecisions(note: Note): seq<Decision> {
    if note.Decided? then [Decision(Line(note.what), Line(note.because), note.at)] else []
  }

  function AcceptedDecisions(notes: seq<Note>): seq<Decision> {
    if notes == [] then [] else AcceptedDecisions(notes[..|notes| - 1]) + NewDecisions(notes[|notes| - 1])
  }

  function NewEffects(st: State, note: Note): seq<Effect> {
    if note.DidEffect? && !Done(st.completed, note.tool, note.target)
    then [Effect(NameOf(note.tool), Line(note.target), note.at)] else []
  }

  function AcceptedEffects(st: State, notes: seq<Note>): seq<Effect> {
    if notes == [] then []
    else AcceptedEffects(st, notes[..|notes| - 1]) + NewEffects(ApplyAll(st, notes[..|notes| - 1]), notes[|notes| - 1])
  }

  /** A list holds the newest entries of all it accepted, and its counter has counted the rest. */
  ghost predicate Window<T>(before: seq<T>, accepted: seq<T>, held: seq<T>, cap: nat, droppedBefore: int, droppedNow: int) {
    held == Keep(before + accepted, cap) && droppedNow - droppedBefore + |held| == |before| + |accepted|
  }

  lemma WindowMoves<T>(before: seq<T>, accepted: seq<T>, more: seq<T>, held: seq<T>, held': seq<T>, cap: nat, d: int, d1: int, d2: int)
    requires Window(before, accepted, held, cap, d, d1)
    requires held' == Keep(held + more, cap) && d2 - d1 + |held'| == |held| + |more|
    ensures Window(before, accepted + more, held', cap, d, d2)
  {
    assert before + (accepted + more) == before + accepted + more;
    assert Keep(before + accepted + more, cap) == held' by {
      var all, n := before + accepted, |before + accepted|;
      if n > cap { assert held + more == (all + more)[n - cap..]; }
    }
  }

  lemma Counted(dropped: map<Counter, int>, key: Counter, n: nat)
    ensures Dropped(CountDrops(dropped, key, n), key) == Dropped(dropped, key) + n
    ensures forall other :: other != key ==> Dropped(CountDrops(dropped, key, n), other) == Dropped(dropped, other)
  {
  }

  /** A push moves the one list and the one counter together. */
  lemma PushCounts<T>(list: seq<T>, item: T, cap: nat, dropped: map<Counter, int>, key: Counter)
    requires |list| <= cap
    ensures var r := Pushed(list, item, cap, dropped, key);
            && r.0 == Keep(list + [item], cap)
            && Dropped(r.1, key) - Dropped(dropped, key) + |r.0| == |list| + 1
            && forall other :: other != key ==> Dropped(r.1, other) == Dropped(dropped, other)
  {
    Counted(dropped, key, |list| + 1 - |Keep(list + [item], cap)|);
    hide CountDrops, Dropped;
  }

  lemma KeepAll<T>(list: seq<T>, cap: nat)
    requires |list| <= cap
    ensures Keep(list + [], cap) == list
  {
    assert list + [] == list;
  }

  /** Where a note can leave a list alone, it leaves its counter alone too. */
  lemma StepOfIds(st: State, note: Note, l: IdList)
    requires |l.In(st)| <= l.Cap() && (l == OpenQuestions ==> !note.Answered?)
    ensures var t := Apply(st, note);
            && l.In(t) == Keep(l.In(st) + NewIds(st, note, l), l.Cap())
            && Dropped(t.dropped, Of(l)) - Dropped(st.dropped, Of(l)) + |l.In(t)| == |l.In(st)| + |NewIds(st, note, l)|
  {
    hide Line, NameOf, Done, Without, Floor, Pushed, Dropped, Keep;
    KeepAll(l.In(st), l.Cap());
    match note {
      case Decided(what, because, at) =>
        OthersCount(st.decisions, Decision(Line(what), Line(because), at), DECISIONS, st.dropped, OfDecisions, Of(l));
      case DidEffect(tool, target, at) =>
        OthersCount(st.completed, Effect(NameOf(tool), Line(target), at), COMPLETED, st.dropped, OfCompleted, Of(l));
      case Listed(into, id) =>
        if into == l {
          PushCounts(l.In(st), Line(id), l.Cap(), st.dropped, Of(l));
        } else {
          OthersCount(into.In(st), Line(id), into.Cap(), st.dropped, Of(into), Of(l));
        }
      case _ =>
    }
  }

  lemma OthersCount<T>(list: seq<T>, item: T, cap: nat, dropped: map<Counter, int>, key: Counter, other: Counter)
    requires other != key
    ensures Dropped(Pushed(list, item, cap, dropped, key).1, other) == Dropped(dropped, other)
  {
  }

  lemma StepOfDecisions(st: State, note: Note)
    requires |st.decisions| <= DECISIONS
    ensures var t := Apply(st, note);
            && t.decisions == Keep(st.decisions + NewDecisions(note), DECISIONS)
            && Dropped(t.dropped, OfDecisions) - Dropped(st.dropped, OfDecisions) + |t.decisions| == |st.decisions| + |NewDecisions(note)|
  {
    hide Line, NameOf, Done, Without, Floor, Pushed, Dropped, Keep;
    KeepAll(st.decisions, DECISIONS);
    match note {
      case Decided(what, because, at) =>
        PushCounts(st.decisions, Decision(Line(what), Line(because), at), DECISIONS, st.dropped, OfDecisions);
      case DidEffect(tool, target, at) =>
        OthersCount(st.completed, Effect(NameOf(tool), Line(target), at), COMPLETED, st.dropped, OfCompleted, OfDecisions);
      case Listed(into, id) =>
        OthersCount(into.In(st), Line(id), into.Cap(), st.dropped, Of(into), OfDecisions);
      case _ =>
    }
  }

  lemma StepOfEffects(st: State, note: Note)
    requires |st.completed| <= COMPLETED
    ensures var t := Apply(st, note);
            && t.completed == Keep(st.completed + NewEffects(st, note), COMPLETED)
            && Dropped(t.dropped, OfCompleted) - Dropped(st.dropped, OfCompleted) + |t.completed| == |st.completed| + |NewEffects(st, note)|
  {
    hide Line, NameOf, Done, Without, Floor, Pushed, Dropped, Keep;
    KeepAll(st.completed, COMPLETED);
    match note {
      case Decided(what, because, at) =>
        OthersCount(st.decisions, Decision(Line(what), Line(because), at), DECISIONS, st.dropped, OfDecisions, OfCompleted);
      case DidEffect(tool, target, at) =>
        PushCounts(st.completed, Effect(NameOf(tool), Line(target), at), COMPLETED, st.dropped, OfCompleted);
      case Listed(into, id) =>
        OthersCount(into.In(st), Line(id), into.Cap(), st.dropped, Of(into), OfCompleted);
      case _ =>
    }
  }

  /** Accepted entries are those held and those dropped, in order; only `openQuestions` can also be answered away. */
  lemma {:induction false} IdsAreAWindow(st: State, notes: seq<Note>, l: IdList)
    requires |l.In(st)| <= l.Cap() && (l == OpenQuestions ==> forall n :: n in notes ==> !n.Answered?)
    ensures var t := ApplyAll(st, notes);
            Window(l.In(st), AcceptedIds(st, notes, l), l.In(t), l.Cap(), Dropped(st.dropped, Of(l)), Dropped(t.dropped, Of(l)))
  {
    hide Apply, NewIds, Dropped, IdList.In, IdList.Cap;
    if notes == [] {
      assert l.In(st) + [] == l.In(st);
    } else {
      var front, last := notes[..|notes| - 1], notes[|notes| - 1];
      assert last in notes;
      IdsAreAWindow(st, front, l);
      var s, t := ApplyAll(st, front), ApplyAll(st, notes);
      StepOfIds(s, last, l);
      WindowMoves(l.In(st), AcceptedIds(st, front, l), NewIds(s, last, l), l.In(s), l.In(t), l.Cap(),
                  Dropped(st.dropped, Of(l)), Dropped(s.dropped, Of(l)), Dropped(t.dropped, Of(l)));
    }
  }

  lemma {:induction false} DecisionsAreAWindow(st: State, notes: seq<Note>)
    requires |st.decisions| <= DECISIONS
    ensures var t := ApplyAll(st, notes);
            Window(st.decisions, AcceptedDecisions(notes), t.decisions, DECISIONS,
                   Dropped(st.dropped, OfDecisions), Dropped(t.dropped, OfDecisions))
  {
    hide Apply, NewDecisions, Dropped;
    if notes == [] {
      assert st.decisions + [] == st.decisions;
    } else {
      var front, last := notes[..|notes| - 1], notes[|notes| - 1];
      DecisionsAreAWindow(st, front);
      var s, t := ApplyAll(st, front), ApplyAll(st, notes);
      StepOfDecisions(s, last);
      WindowMoves(st.decisions, AcceptedDecisions(front), NewDecisions(last), s.decisions, t.decisions, DECISIONS,
                  Dropped(st.dropped, OfDecisions), Dropped(s.dropped, OfDecisions), Dropped(t.dropped, OfDecisions));
    }
  }

  lemma {:induction false} EffectsAreAWindow(st: State, notes: seq<Note>)
    requires |st.completed| <= COMPLETED
    ensures var t := ApplyAll(st, notes);
            Window(st.completed, AcceptedEffects(st, notes), t.completed, COMPLETED,
                   Dropped(st.dropped, OfCompleted), Dropped(t.dropped, OfCompleted))
  {
    hide Apply, NewEffects, Dropped;
    if notes == [] {
      assert st.completed + [] == st.completed;
    } else {
      var front, last := notes[..|notes| - 1], notes[|notes| - 1];
      EffectsAreAWindow(st, front);
      var s, t := ApplyAll(st, front), ApplyAll(st, notes);
      StepOfEffects(s, last);
      WindowMoves(st.completed, AcceptedEffects(st, front), NewEffects(s, last), s.completed, t.completed, COMPLETED,
                  Dropped(st.dropped, OfCompleted), Dropped(s.dropped, OfCompleted), Dropped(t.dropped, OfCompleted));
    }
  }

  /**
   * A newly recorded effect answers in either spelling for as long as fewer than 32 effects have been
   * recorded behind it; after that only if it was recorded again.
   */
  lemma EffectIsRemembered(st: State, tool: string, target: string, at: string, notes: seq<Note>, asked: string, about: string)
    requires |st.completed| <= COMPLETED && !Done(st.completed, tool, target)
    requires NameOf(asked) == NameOf(tool) && Line(about) == Line(target)
    ensures var s := Apply(st, DidEffect(tool, target, at));
            var since := AcceptedEffects(s, notes);
            && (|since| < COMPLETED ==> Done(ApplyAll(s, notes).completed, asked, about))
            && (|since| >= COMPLETED && !Done(since, asked, about) ==> !Done(ApplyAll(s, notes).completed, asked, about))
  {
    hide Line, NameOf, Apply, ApplyAll, AcceptedEffects, Matches, Keep;
    var e := Effect(NameOf(tool), Line(target), at);
    var s := Apply(st, DidEffect(tool, target, at));
    var since, held := AcceptedEffects(s, notes), ApplyAll(s, notes).completed;
    JustRecorded(st, tool, target, at);
    EffectsAreAWindow(s, notes);
    RecordedAnswers(tool, target, at, asked, about);
    NewestAreHeld(s.completed, since, e, held);
    if |since| < COMPLETED {
      var k :| 0 <= k < |held| && held[k] == e;
      assert Matches(held[k], asked, about);
    } else if !Done(since, asked, about) {
      forall k | 0 <= k < |held| ensures !Matches(held[k], asked, about) {
        assert held[k] == since[|since| - COMPLETED + k];
      }
    }
  }

  lemma JustRecorded(st: State, tool: string, target: string, at: string)
    requires |st.completed| <= COMPLETED && !Done(st.completed, tool, target)
    ensures var s := Apply(st, DidEffect(tool, target, at)).completed;
            0 < |s| <= COMPLETED && s[|s| - 1] == Effect(NameOf(tool), Line(target), at)
  {
    hide Line, NameOf, Done, CountDrops;
  }

  lemma RecordedAnswers(tool: string, target: string, at: string, asked: string, about: string)
    requires NameOf(asked) == NameOf(tool) && Line(about) == Line(target)
    ensures Matches(Effect(NameOf(tool), Line(target), at), asked, about)
  {
    hide NameOf, Line;
    NameIsStable(tool);
  }

  lemma NewestAreHeld(before: seq<Effect>, since: seq<Effect>, e: Effect, held: seq<Effect>)
    requires 0 < |before| <= COMPLETED && before[|before| - 1] == e && held == Keep(before + since, COMPLETED)
    ensures |since| < COMPLETED ==> exists k :: 0 <= k < |held| && held[k] == e
    ensures |since| >= COMPLETED ==> |held| == COMPLETED && forall k :: 0 <= k < |held| ==> held[k] == since[|since| - COMPLETED + k]
  {
    var all := before + since;
    if |since| < COMPLETED {
      var k := |before| - 1 - (|all| - |held|);
      assert held[k] == all[|before| - 1];
    }
  }
}
