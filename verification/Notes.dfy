/**
 * What a run keeps apart from its transcript: single values, and lists that are windows over the newest
 * of what they were told, with a count of the rest.
 */
module Notes {
  import opened Text
  import opened ToolNames

  // ---------------------------------------------------------------- one line

  const LINE_CHARS := 240

  /** Every run of white space becomes one blank, the one written for its last character. */
  function Collapse(s: string): (r: string)
    ensures |r| <= |s|
  {
    if s == "" then ""
    else if !IsSpace(s[0]) then [s[0]] + Collapse(s[1..])
    else if |s| > 1 && IsSpace(s[1]) then Collapse(s[1..])
    else " " + Collapse(s[1..])
  }

  /** Collapsing and trimming in one pass: a blank is written once a word follows it, behind another. */
  function Squeeze(s: string, written: bool, blank: bool): string {
    if s == "" then ""
    else if IsSpace(s[0]) then Squeeze(s[1..], written, true)
    else (if written && blank then " " else "") + [s[0]] + Squeeze(s[1..], true, false)
  }

  lemma TrimEndOfMore(c: char, t: string)
    ensures TrimEnd([c] + t) == if TrimEnd(t) != "" || !IsSpace(c) then [c] + TrimEnd(t) else ""
    decreases |t|
  {
    hide IsSpace;
    var s := [c] + t;
    if t == "" {
      assert s == [c] && s[..0] == "";
    } else {
      assert s[|s| - 1] == t[|t| - 1] && s[..|s| - 1] == [c] + t[..|t| - 1];
      if IsSpace(t[|t| - 1]) { TrimEndOfMore(c, t[..|t| - 1]); }
    }
  }

  lemma {:induction false} SqueezeBehindAWord(s: string)
    ensures Squeeze(s, true, false) == TrimEnd(Collapse(s))
    ensures Squeeze(s, true, true) == TrimEnd(if s != "" && IsSpace(s[0]) then Collapse(s) else " " + Collapse(s))
  {
    hide IsSpace, TrimEnd, Collapse, Squeeze;
    CollapseFirst(s);
    SqueezeFirst(s, true);
    BlankIsTrimmed();
    if s != "" {
      SqueezeBehindAWord(s[1..]);
      if !IsSpace(s[0]) {
        TrimEndOfMore(s[0], Collapse(s[1..]));
        TrimEndOfMore(' ', [s[0]] + Collapse(s[1..]));
      }
    }
  }

  lemma SqueezeFirst(s: string, written: bool)
    ensures s == "" ==> forall blank :: Squeeze(s, written, blank) == ""
    ensures s != "" && IsSpace(s[0]) ==> forall blank :: Squeeze(s, written, blank) == Squeeze(s[1..], written, true)
    ensures s != "" && !IsSpace(s[0]) ==> Squeeze(s, written, false) == [s[0]] + Squeeze(s[1..], true, false)
    ensures s != "" && !IsSpace(s[0]) && written ==> Squeeze(s, written, true) == " " + ([s[0]] + Squeeze(s[1..], true, false))
  {
    hide IsSpace;
    if s != "" {
      assert "" + [s[0]] == [s[0]];
      assert " " + ([s[0]] + Squeeze(s[1..], true, false)) == " " + [s[0]] + Squeeze(s[1..], true, false);
    }
  }

  lemma BlankIsTrimmed()
    ensures TrimEnd("") == "" && TrimEnd(" ") == "" && TrimEnd(" " + "") == "" && IsSpace(' ')
  {
    assert " " + "" == " ";
    assert " "[..0] == "";
  }

  lemma TrimBehindBlank(t: string)
    ensures Trim(" " + t) == Trim(t)
  {
    assert (" " + t)[1..] == t;
    hide TrimEnd;
    assert TrimStart(" " + t) == TrimStart(t);
  }

  lemma TrimOfWord(c: char, t: string)
    requires !IsSpace(c)
    ensures Trim([c] + t) == [c] + TrimEnd(t)
  {
    TrimEndOfMore(c, t);
    hide TrimEnd;
    assert TrimStart([c] + t) == [c] + t;
  }

  /** One pass does what replacing every run of white space and then trimming does. */
  lemma {:induction false} SqueezeIsTrimOfCollapse(s: string, blank: bool)
    ensures Squeeze(s, false, blank) == Trim(Collapse(s))
  {
    hide IsSpace, Trim, TrimEnd, Collapse;
    CollapseFirst(s);
    if s == "" {
      TrimOfTrimmed("");
    } else if IsSpace(s[0]) {
      SqueezeIsTrimOfCollapse(s[1..], true);
      TrimBehindBlank(Collapse(s[1..]));
    } else {
      SqueezeBehindAWord(s[1..]);
      TrimOfWord(s[0], Collapse(s[1..]));
      assert "" + [s[0]] == [s[0]];
    }
  }

  lemma CollapseFirst(s: string)
    ensures s == "" ==> Collapse(s) == ""
    ensures s != "" && !IsSpace(s[0]) ==> Collapse(s) == [s[0]] + Collapse(s[1..])
    ensures s != "" && IsSpace(s[0]) ==>
              Collapse(s) == if s[1..] != "" && IsSpace(s[1..][0]) then Collapse(s[1..]) else " " + Collapse(s[1..])
  {
    hide IsSpace;
  }

  /** How every text is tidied before it is kept: blanks squeezed, and cut where it is too long. */
  function Line(text: string): string {
    var clean := Squeeze(text, false, false);
    if |clean| > LINE_CHARS then clean[..LINE_CHARS - 1] + ['\U{2026}'] else clean
  }

  predicate TwoBlanks(s: string, k: nat) {
    k + 1 < |s| && IsSpace(s[k]) && IsSpace(s[k + 1])
  }

  /** Blanks only, never two together. */
  ghost predicate Spaced(s: string) {
    (forall k :: 0 <= k < |s| && IsSpace(s[k]) ==> s[k] == ' ') && forall k: nat :: !TwoBlanks(s, k)
  }

  ghost predicate Tidy(s: string) {
    Trimmed(s) && Spaced(s) && |s| <= LINE_CHARS
  }

  lemma SpacedMore(c: char, t: string)
    requires Spaced(t) && (IsSpace(c) ==> c == ' ' && (t == [] || !IsSpace(t[0])))
    ensures Spaced([c] + t)
  {
    hide IsSpace;
    var s := [c] + t;
    forall k: nat ensures !TwoBlanks(s, k) {
      if k > 0 { assert TwoBlanks(s, k) == TwoBlanks(t, k - 1); }
    }
  }

  lemma {:induction false} CollapseIsSpaced(s: string)
    ensures Spaced(Collapse(s))
    ensures s != [] && !IsSpace(s[0]) ==> Collapse(s) != [] && Collapse(s)[0] == s[0]
  {
    hide Spaced;
    if s == [] {
      NothingIsSpaced();
    } else {
      CollapseIsSpaced(s[1..]);
      if !IsSpace(s[0]) {
        SpacedMore(s[0], Collapse(s[1..]));
      } else if |s| == 1 || !IsSpace(s[1]) {
        NothingIsSpaced();
        SpacedMore(' ', Collapse(s[1..]));
      }
    }
  }

  lemma NothingIsSpaced()
    ensures Spaced("") && Collapse("") == ""
  {
  }

  lemma SpacedSlice(s: string, i: nat, j: nat)
    requires Spaced(s) && i <= j <= |s|
    ensures Spaced(s[i..j])
  {
    hide IsSpace;
    var t := s[i..j];
    forall k: nat ensures !TwoBlanks(t, k) {
      assert k + 1 < |t| ==> t[k] == s[i + k] && t[k + 1] == s[i + k + 1];
      assert !TwoBlanks(s, i + k);
    }
  }

  lemma FirstBlank(s: string)
    requires Spaced(s) && s != []
    ensures IsSpace(s[0]) ==> s[0] == ' ' && (|s| > 1 ==> !IsSpace(s[1]))
  {
    hide IsSpace;
    assert !TwoBlanks(s, 0);
  }

  lemma {:induction false} CollapseOfSpaced(s: string)
    requires Spaced(s)
    ensures Collapse(s) == s
  {
    hide IsSpace, Spaced;
    if s != [] {
      SpacedSlice(s, 1, |s|);
      assert s[1..|s|] == s[1..];
      CollapseOfSpaced(s[1..]);
      assert s == [s[0]] + s[1..];
      assert IsSpace(s[0]) ==> s[0] == ' ' && (|s| > 1 ==> !IsSpace(s[1])) by { FirstBlank(s); }
    }
  }

  lemma TrimKeepsSpaced(s: string)
    requires Spaced(s)
    ensures Spaced(Trim(s)) && Trimmed(Trim(s))
  {
    hide IsSpace, Spaced;
    var left := TrimStart(s);
    SpacedSlice(s, |s| - |left|, |s|);
    assert s[|s| - |left|..|s|] == left;
    SpacedSlice(left, 0, |TrimEnd(left)|);
    assert left[0..|TrimEnd(left)|] == TrimEnd(left);
  }

  lemma LineIsTidy(text: string)
    ensures Tidy(Line(text))
  {
    hide Collapse, Squeeze, Trim, Spaced, Tidy;
    CollapseIsSpaced(text);
    var clean := Trim(Collapse(text));
    SqueezeIsTrimOfCollapse(text, false);
    TrimKeepsSpaced(Collapse(text));
    ShortIsTidy(clean);
    if |clean| > LINE_CHARS { CutIsTidy(clean); }
  }

  lemma ShortIsTidy(clean: string)
    requires Trimmed(clean) && Spaced(clean)
    ensures |clean| <= LINE_CHARS ==> Tidy(clean)
  {
    hide Spaced;
  }

  lemma CutIsTidy(clean: string)
    requires Trimmed(clean) && Spaced(clean) && |clean| > LINE_CHARS
    ensures Tidy(clean[..LINE_CHARS - 1] + ['\U{2026}'])
  {
    var cut := clean[..LINE_CHARS - 1] + ['\U{2026}'];
    assert forall k :: 0 <= k < LINE_CHARS - 1 ==> cut[k] == clean[k];
    assert !IsSpace(cut[LINE_CHARS - 1]) && cut[0] == clean[0];
    hide IsSpace;
    forall k: nat ensures !TwoBlanks(cut, k) {
      assert !TwoBlanks(clean, k);
    }
  }

  lemma LineOfTidy(s: string)
    requires Tidy(s)
    ensures Line(s) == s
  {
    hide Collapse, Squeeze, Trim, Spaced;
    CollapseOfSpaced(s);
    TrimOfTrimmed(s);
    SqueezeIsTrimOfCollapse(s, false);
  }

  /** Tidying twice is tidying once, so a persisted line reads back unchanged. */
  lemma LineIsIdempotent(text: string)
    ensures Line(Line(text)) == Line(text)
  {
    hide Line, Tidy;
    LineIsTidy(text);
    LineOfTidy(Line(text));
  }

  // ---------------------------------------------------------------- what a line says

  /** Words with white space around them and between each two. */
  function Spread(words: seq<string>, gaps: seq<string>): string
    requires |gaps| == |words| + 1
  {
    if words == [] then gaps[0] else gaps[0] + (words[0] + Spread(words[1..], gaps[1..]))
  }

  predicate IsWord(w: string) { w != "" && forall k :: 0 <= k < |w| ==> !IsSpace(w[k]) }

  ghost predicate Proper(words: seq<string>, gaps: seq<string>) {
    && |gaps| == |words| + 1 && (forall w :: w in words ==> IsWord(w)) && (forall g :: g in gaps ==> AllSpace(g))
    && forall k :: 0 < k < |words| ==> gaps[k] != ""
  }

  lemma {:induction false} SqueezeGap(gap: string, t: string, written: bool, blank: bool)
    requires AllSpace(gap)
    ensures Squeeze(gap + t, written, blank) == Squeeze(t, written, blank || gap != "")
  {
    hide IsSpace;
    if gap == "" {
      assert gap + t == t;
    } else {
      assert (gap + t)[0] == gap[0] && (gap + t)[1..] == gap[1..] + t;
      SqueezeGap(gap[1..], t, written, true);
    }
  }

  lemma {:induction false} SqueezeWord(w: string, t: string, written: bool, blank: bool)
    requires IsWord(w)
    ensures Squeeze(w + t, written, blank) == (if written && blank then " " else "") + (w + Squeeze(t, true, false))
  {
    hide IsSpace;
    var s := w + t;
    assert s[0] == w[0] && s[1..] == w[1..] + t;
    if |w| == 1 {
      assert s[1..] == t && [w[0]] == w;
    } else {
      SqueezeWord(w[1..], t, true, false);
      assert [w[0]] + ("" + (w[1..] + Squeeze(t, true, false))) == w + Squeeze(t, true, false);
    }
    var lead := if written && blank then " " else "";
    assert lead + [w[0]] + Squeeze(s[1..], true, false) == lead + ([w[0]] + Squeeze(s[1..], true, false));
  }

  lemma {:induction false} SqueezeSpread(words: seq<string>, gaps: seq<string>, written: bool, blank: bool)
    requires Proper(words, gaps)
    ensures Squeeze(Spread(words, gaps), written, blank) ==
            (if written && words != [] && (blank || gaps[0] != "") then " " else "") + Join(words, " ")
  {
    hide IsSpace, Squeeze, AllSpace, IsWord;
    if words == [] {
      assert gaps[0] in gaps && gaps[0] + "" == gaps[0];
      SqueezeGap(gaps[0], "", written, blank);
      NothingSqueezed(written);
    } else {
      var w, more := words[0], Spread(words[1..], gaps[1..]);
      assert w in words && gaps[0] in gaps;
      SqueezeGap(gaps[0], w + more, written, blank);
      SqueezeWord(w, more, written, blank || gaps[0] != "");
      RestIsProper(words, gaps);
      SqueezeSpread(words[1..], gaps[1..], true, false);
      if |words| == 1 { assert Join(words[1..], " ") == "" && w + ("" + "") == w; }
      assert w + (" " + Join(words[1..], " ")) == w + " " + Join(words[1..], " ");
    }
  }

  lemma RestIsProper(words: seq<string>, gaps: seq<string>)
    requires Proper(words, gaps) && words != []
    ensures Proper(words[1..], gaps[1..]) && (|words| > 1 ==> gaps[1..][0] != "")
  {
    hide IsSpace, IsWord, AllSpace;
    assert forall k :: 0 < k < |words[1..]| ==> gaps[1..][k] == gaps[k + 1];
  }

  lemma NothingSqueezed(written: bool)
    ensures forall blank :: Squeeze("", written, blank) == ""
  {
  }

  /** Every text is words in white space. */
  lemma {:induction false} EveryTextIsSpread(s: string) returns (words: seq<string>, gaps: seq<string>)
    ensures Proper(words, gaps) && Spread(words, gaps) == s
  {
    if s == "" {
      words, gaps := [], [""];
    } else {
      words, gaps := EveryTextIsSpread(s[1..]);
      assert s == [s[0]] + s[1..];
      words, gaps := OneMoreCharacter(s[0], words, gaps);
    }
  }

  lemma OneMoreCharacter(c: char, words: seq<string>, gaps: seq<string>) returns (ws: seq<string>, gs: seq<string>)
    requires Proper(words, gaps)
    ensures Proper(ws, gs) && Spread(ws, gs) == [c] + Spread(words, gaps)
  {
    hide IsSpace;
    if IsSpace(c) {
      ws, gs := words, gaps[0 := [c] + gaps[0]];
      assert gaps[0] in gaps && AllSpace([c] + gaps[0]);
      assert gs[1..] == gaps[1..] && forall g :: g in gs ==> g == [c] + gaps[0] || g in gaps;
      if words == [] {
        assert Spread(ws, gs) == [c] + gaps[0];
      } else {
        assert [c] + gaps[0] + (words[0] + Spread(words[1..], gaps[1..])) == [c] + (gaps[0] + (words[0] + Spread(words[1..], gaps[1..])));
      }
    } else if gaps[0] == "" && words != [] {
      ws, gs := words[0 := [c] + words[0]], gaps;
      assert words[0] in words && IsWord([c] + words[0]);
      assert ws[1..] == words[1..] && forall w :: w in ws ==> w == [c] + words[0] || w in words;
      assert "" + (([c] + words[0]) + Spread(words[1..], gaps[1..])) == [c] + ("" + (words[0] + Spread(words[1..], gaps[1..])));
    } else {
      ws, gs := [[c]] + words, [""] + gaps;
      assert ws[1..] == words && gs[1..] == gaps && IsWord([c]) && AllSpace("");
      assert forall k :: 0 < k < |ws| ==> gs[k] == gaps[k - 1];
      assert "" + ([c] + Spread(words, gaps)) == [c] + Spread(words, gaps);
    }
  }

  /** A line is the words of a text with one blank between each two, and at most 239 characters of that and the mark that it goes on. */
  lemma LineIsItsWords(words: seq<string>, gaps: seq<string>)
    requires Proper(words, gaps)
    ensures var said := Join(words, " ");
            Line(Spread(words, gaps)) == if |said| <= 240 then said else said[..239] + ['\U{2026}']
  {
    hide Squeeze, Spread, Join;
    SqueezeSpread(words, gaps, false, false);
    assert "" + Join(words, " ") == Join(words, " ");
  }

  // ---------------------------------------------------------------- the record

  datatype Stage = Stage(ordinal: real, intent: string)

  datatype Decision = Decision(what: string, because: string, at: string)

  datatype Effect = Effect(tool: string, target: string, at: string)

  /** What drops are counted under: a list, or a name a persisted record carries that no list has. */
  datatype Counter = OfDecisions | OfCompleted | Of(list: IdList) | Other(name: string)

  /** The notes as plain data: what is persisted, and what a field missing from it stands for is in `BLANK`. */
  datatype State = State(
    goal: string, stage: Stage, decisions: seq<Decision>, evidenceIds: seq<string>, calculationIds: seq<string>,
    artifactIds: seq<string>, openQuestions: seq<string>, nextAction: string, completed: seq<Effect>,
    dropped: map<Counter, int>)

  const BLANK := State("", Stage(0.0, ""), [], [], [], [], [], "", [], map[])

  const DECISIONS: nat := 12
  const COMPLETED: nat := 32

  /** The lists whose entries are single strings, held once each. */
  datatype IdList = EvidenceIds | CalculationIds | ArtifactIds | OpenQuestions {
    function Cap(): nat {
      match this
      case EvidenceIds => 64
      case CalculationIds => 32
      case ArtifactIds => 16
      case OpenQuestions => 8
    }

    function In(st: State): seq<string> {
      match this
      case EvidenceIds => st.evidenceIds
      case CalculationIds => st.calculationIds
      case ArtifactIds => st.artifactIds
      case OpenQuestions => st.openQuestions
    }

    function Put(st: State, ids: seq<string>): State {
      match this
      case EvidenceIds => st.(evidenceIds := ids)
      case CalculationIds => st.(calculationIds := ids)
      case ArtifactIds => st.(artifactIds := ids)
      case OpenQuestions => st.(openQuestions := ids)
    }
  }

  /** The newest `cap` entries. */
  function Keep<T>(xs: seq<T>, cap: nat): seq<T> {
    if |xs| > cap then xs[|xs| - cap..] else xs
  }

  function Dropped(dropped: map<Counter, int>, key: Counter): int {
    if key in dropped then dropped[key] else 0
  }

  function CountDrops(dropped: map<Counter, int>, key: Counter, n: nat): map<Counter, int> {
    if n == 0 then dropped else dropped[key := Dropped(dropped, key) + n]
  }

  /** What pushing under a cap leaves: the list, and the counters. */
  function Pushed<T>(list: seq<T>, item: T, cap: nat, dropped: map<Counter, int>, key: Counter): (seq<T>, map<Counter, int>) {
    (Keep(list + [item], cap), CountDrops(dropped, key, |list| + 1 - |Keep(list + [item], cap)|))
  }

  function WithId(list: seq<string>, id: string, cap: nat, dropped: map<Counter, int>, key: Counter): (seq<string>, map<Counter, int>) {
    var clean := Line(id);
    if clean == "" || clean in list then (list, dropped) else Pushed(list, clean, cap, dropped, key)
  }

  predicate Matches(e: Effect, tool: string, target: string) {
    NameOf(e.tool) == NameOf(tool) && e.target == Line(target)
  }

  predicate Done(completed: seq<Effect>, tool: string, target: string) {
    exists k :: 0 <= k < |completed| && Matches(completed[k], tool, target)
  }

  /** One thing a run tells its notes. */
  datatype Note =
    | Goal(goal: string)
    | AtStage(ordinal: real, intent: string)
    | Decided(what: string, because: string, at: string)
    | Listed(into: IdList, id: string)
    | Answered(question: string)
    | Next(action: string)
    | DidEffect(tool: string, target: string, at: string)

  function Floor(x: real): real { if x < 0.0 then 0.0 else x.Floor as real }

  function Without(questions: seq<string>, gone: string): (r: seq<string>)
    ensures forall q :: q in r <==> q in questions && q != gone
    ensures |r| <= |questions|
  {
    if questions == [] then []
    else (if questions[0] == gone then [] else [questions[0]]) + Without(questions[1..], gone)
  }

  function Apply(st: State, note: Note): State {
    match note
    case Goal(goal) => st.(goal := Line(goal))
    case AtStage(ordinal, intent) => st.(stage := Stage(Floor(ordinal), Line(intent)))
    case Decided(what, because, at) =>
      var r := Pushed(st.decisions, Decision(Line(what), Line(because), at), DECISIONS, st.dropped, OfDecisions);
      st.(decisions := r.0, dropped := r.1)
    case Listed(into, id) =>
      var r := WithId(into.In(st), id, into.Cap(), st.dropped, Of(into));
      into.Put(st, r.0).(dropped := r.1)
    case Answered(question) => st.(openQuestions := Without(st.openQuestions, Line(question)))
    case Next(action) => st.(nextAction := Line(action))
    case DidEffect(tool, target, at) =>
      if Done(st.completed, tool, target) then st
      else
        var r := Pushed(st.completed, Effect(NameOf(tool), Line(target), at), COMPLETED, st.dropped, OfCompleted);
        st.(completed := r.0, dropped := r.1)
  }

  function ApplyAll(st: State, notes: seq<Note>): State {
    if notes == [] then st else Apply(ApplyAll(st, notes[..|notes| - 1]), notes[|notes| - 1])
  }

  function Decisions(ds: seq<Decision>): seq<Note> {
    seq(|ds|, k requires 0 <= k < |ds| => Decided(ds[k].what, ds[k].because, ds[k].at))
  }

  function Ids(ids: seq<string>, into: IdList): seq<Note> {
    seq(|ids|, k requires 0 <= k < |ids| => Listed(into, ids[k]))
  }

  function Effects(es: seq<Effect>): seq<Note> {
    seq(|es|, k requires 0 <= k < |es| => DidEffect(es[k].tool, es[k].target, es[k].at))
  }

  /** The single values of a record, and its drop counts, carried forward. */
  function Opening(saved: State): State {
    BLANK.(goal := Line(saved.goal), stage := Stage(Floor(saved.stage.ordinal), Line(saved.stage.intent)),
           nextAction := Line(saved.nextAction), dropped := saved.dropped)
  }

  /** Loading tells everything again through the same setters, so the ceilings bound what is adopted. */
  function Load(saved: State): State {
    var s1 := ApplyAll(Opening(saved), Decisions(saved.decisions));
    var s2 := ApplyAll(s1, Ids(saved.evidenceIds, EvidenceIds));
    var s3 := ApplyAll(s2, Ids(saved.calculationIds, CalculationIds));
    var s4 := ApplyAll(s3, Ids(saved.artifactIds, ArtifactIds));
    var s5 := ApplyAll(s4, Ids(saved.openQuestions, OpenQuestions));
    ApplyAll(s5, Effects(saved.completed))
  }

  lemma OneMore(st: State, notes: seq<Note>, k: nat)
    requires k < |notes|
    ensures ApplyAll(st, notes[..k + 1]) == Apply(ApplyAll(st, notes[..k]), notes[k])
  {
    assert notes[..k + 1][..k] == notes[..k];
  }

  lemma AllOf(st: State, notes: seq<Note>)
    ensures ApplyAll(st, notes[..0]) == st && ApplyAll(st, notes[..|notes|]) == ApplyAll(st, notes)
  {
    assert notes[..|notes|] == notes;
  }

  // ---------------------------------------------------------------- what was told last

  lemma {:induction false} ApplyAllAppend(st: State, xs: seq<Note>, ys: seq<Note>)
    ensures ApplyAll(st, xs + ys) == ApplyAll(ApplyAll(st, xs), ys)
  {
    hide Apply;
    if ys == [] {
      assert xs + ys == xs;
    } else {
      ApplyAllAppend(st, xs, ys[..|ys| - 1]);
      assert (xs + ys)[..|xs + ys| - 1] == xs + ys[..|ys| - 1];
    }
  }

  lemma {:induction false} SingleValuesStay(st: State, notes: seq<Note>)
    ensures (forall n :: n in notes ==> !n.Goal?) ==> ApplyAll(st, notes).goal == st.goal
    ensures (forall n :: n in notes ==> !n.AtStage?) ==> ApplyAll(st, notes).stage == st.stage
    ensures (forall n :: n in notes ==> !n.Next?) ==> ApplyAll(st, notes).nextAction == st.nextAction
  {
    hide Line, NameOf, Done, Pushed, WithId, Without;
    if notes != [] {
      SingleValuesStay(st, notes[..|notes| - 1]);
      assert notes[|notes| - 1] in notes;
    }
  }

  /** The goal, the stage and the next action held are those told last; a stage counts in whole numbers from 0. */
  lemma SingleValuesAreTheLatest(st: State, front: seq<Note>, note: Note, back: seq<Note>)
    ensures var now := ApplyAll(st, front + [note] + back);
            && (note.Goal? && (forall n :: n in back ==> !n.Goal?) ==> now.goal == Line(note.goal))
            && (note.AtStage? && (forall n :: n in back ==> !n.AtStage?) ==>
                 && now.stage.intent == Line(note.intent)
                 && if note.ordinal < 0.0 then now.stage.ordinal == 0.0 else now.stage.ordinal == note.ordinal.Floor as real)
            && (note.Next? && (forall n :: n in back ==> !n.Next?) ==> now.nextAction == Line(note.action))
  {
    hide Line, NameOf, Done, Pushed, WithId, Without, ApplyAll;
    ApplyAllAppend(st, front + [note], back);
    LastApplied(st, front, note);
    SingleValuesStay(ApplyAll(st, front + [note]), back);
  }

  lemma LastApplied(st: State, front: seq<Note>, note: Note)
    ensures ApplyAll(st, front + [note]) == Apply(ApplyAll(st, front), note)
  {
    assert (front + [note])[..|front|] == front;
  }

  lemma {:induction false} WithoutOne(front: seq<string>, back: seq<string>, gone: string)
    requires gone !in front && gone !in back
    ensures Without(front + [gone] + back, gone) == front + back && Without(back, gone) == back
  {
    if front == [] {
      assert [] + [gone] + back == [gone] + back && ([gone] + back)[1..] == back;
      NothingTaken(back, gone);
    } else {
      assert (front + [gone] + back)[1..] == front[1..] + [gone] + back;
      WithoutOne(front[1..], back, gone);
    }
  }

  lemma {:induction false} NothingTaken(questions: seq<string>, gone: string)
    requires gone !in questions
    ensures Without(questions, gone) == questions
  {
    if questions != [] {
      NothingTaken(questions[1..], gone);
      assert questions == [questions[0]] + questions[1..];
    }
  }

  /** An answer closes its question, under any spelling of its white space, and nothing else; the others keep their order. */
  lemma AnsweredIsClosed(st: State, question: string, front: seq<string>, back: seq<string>)
    requires Line(question) !in front && Line(question) !in back
    ensures st.openQuestions == front + [Line(question)] + back ==>
              Apply(st, Answered(question)) == st.(openQuestions := front + back)
    ensures Line(question) !in st.openQuestions ==> Apply(st, Answered(question)) == st
  {
    hide Line;
    WithoutOne(front, back, Line(question));
    if Line(question) !in st.openQuestions { NothingTaken(st.openQuestions, Line(question)); }
  }

  // ---------------------------------------------------------------- the object

  /** The drop counter steps once for each entry shifted out. */
  lemma CountOneMore(before: map<Counter, int>, key: Counter, n: nat)
    ensures var counted := CountDrops(before, key, n); counted[key := Dropped(counted, key) + 1] == CountDrops(before, key, n + 1)
    ensures CountDrops(before, key, 0) == before
  {
  }

  lemma KeepIsTheEnd<T>(all: seq<T>, cap: nat)
    ensures |Keep(all, cap)| == (if |all| > cap then cap else |all|) && Keep(all, cap) == all[|all| - |Keep(all, cap)|..]
  {
  }

  lemma ShiftOne<T>(all: seq<T>, from: nat)
    requires from < |all|
    ensures all[from..][1..] == all[from + 1..]
  {
  }

  /** The single values, told one after another to notes that hold nothing. */
  lemma ThreeValues(saved: State)
    ensures var told := Apply(Apply(Apply(BLANK, Goal(saved.goal)), AtStage(saved.stage.ordinal, saved.stage.intent)), Next(saved.nextAction));
            told.(dropped := saved.dropped) == Opening(saved)
  {
    hide Line, Floor;
  }

  /** The bounded notes of one run, in place. */
  class WorkingNotes {
    var goal: string
    var stage: Stage
    var decisions: seq<Decision>
    var evidenceIds: seq<string>
    var calculationIds: seq<string>
    var artifactIds: seq<string>
    var openQuestions: seq<string>
    var nextAction: string
    var completed: seq<Effect>
    var dropped: map<Counter, int>

    ghost function Abs(): State
      reads this
    {
      State(goal, stage, decisions, evidenceIds, calculationIds, artifactIds, openQuestions, nextAction, completed, dropped)
    }

    constructor ()
      ensures Abs() == BLANK
    {
      goal, stage, nextAction := "", Stage(0.0, ""), "";
      decisions, evidenceIds, calculationIds, artifactIds, openQuestions, completed := [], [], [], [], [], [];
      dropped := map[];
    }

    /** The notes a resumption starts from. */
    constructor From(saved: State)
      ensures Abs() == Load(saved)
    {
      goal, stage, nextAction := "", Stage(0.0, ""), "";
      decisions, evidenceIds, calculationIds, artifactIds, openQuestions, completed := [], [], [], [], [], [];
      dropped := map[];
      new;
      hide Apply, Line, ApplyAll;
      SetGoal(saved.goal);
      SetStage(saved.stage.ordinal, saved.stage.intent);
      SetNextAction(saved.nextAction);
      dropped := saved.dropped;
      assert Abs() == Opening(saved) by { ThreeValues(saved); }
      ghost var s := Abs();
      AllOf(s, Decisions(saved.decisions));
      for k := 0 to |saved.decisions|
        invariant Abs() == ApplyAll(s, Decisions(saved.decisions)[..k])
      {
        var d := saved.decisions[k];
        Decide(d.what, d.because, d.at);
        OneMore(s, Decisions(saved.decisions), k);
      }
      s := Abs();
      AllOf(s, Ids(saved.evidenceIds, EvidenceIds));
      for k := 0 to |saved.evidenceIds|
        invariant Abs() == ApplyAll(s, Ids(saved.evidenceIds, EvidenceIds)[..k])
      {
        SeeEvidence(saved.evidenceIds[k]);
        OneMore(s, Ids(saved.evidenceIds, EvidenceIds), k);
      }
      s := Abs();
      AllOf(s, Ids(saved.calculationIds, CalculationIds));
      for k := 0 to |saved.calculationIds|
        invariant Abs() == ApplyAll(s, Ids(saved.calculationIds, CalculationIds)[..k])
      {
        Calculate(saved.calculationIds[k]);
        OneMore(s, Ids(saved.calculationIds, CalculationIds), k);
      }
      s := Abs();
      AllOf(s, Ids(saved.artifactIds, ArtifactIds));
      for k := 0 to |saved.artifactIds|
        invariant Abs() == ApplyAll(s, Ids(saved.artifactIds, ArtifactIds)[..k])
      {
        Produce(saved.artifactIds[k]);
        OneMore(s, Ids(saved.artifactIds, ArtifactIds), k);
      }
      s := Abs();
      AllOf(s, Ids(saved.openQuestions, OpenQuestions));
      for k := 0 to |saved.openQuestions|
        invariant Abs() == ApplyAll(s, Ids(saved.openQuestions, OpenQuestions)[..k])
      {
        Ask(saved.openQuestions[k]);
        OneMore(s, Ids(saved.openQuestions, OpenQuestions), k);
      }
      s := Abs();
      AllOf(s, Effects(saved.completed));
      for k := 0 to |saved.completed|
        invariant Abs() == ApplyAll(s, Effects(saved.completed)[..k])
      {
        var e := saved.completed[k];
        RecordEffect(e.tool, e.target, e.at);
        OneMore(s, Effects(saved.completed), k);
      }
    }

    method Push<T>(list: seq<T>, item: T, cap: nat, key: Counter) returns (kept: seq<T>)
      modifies this`dropped
      ensures (kept, dropped) == Pushed(list, item, cap, old(dropped), key)
    {
      hide CountDrops, Dropped, Keep;
      ghost var all, before := list + [item], dropped;
      kept := list + [item];
      CountOneMore(before, key, 0);
      KeepIsTheEnd(all, cap);
      while |kept| > cap
        invariant |Keep(all, cap)| <= |kept| <= |all| && kept == all[|all| - |kept|..]
        invariant dropped == CountDrops(before, key, |all| - |kept|)
      {
        CountOneMore(before, key, |all| - |kept|);
        ShiftOne(all, |all| - |kept|);
        kept := kept[1..];
        dropped := dropped[key := Dropped(dropped, key) + 1];
      }
    }

    method AddId(list: seq<string>, id: string, cap: nat, key: Counter) returns (kept: seq<string>)
      modifies this`dropped
      ensures (kept, dropped) == WithId(list, id, cap, old(dropped), key)
    {
      hide Line, Pushed;
      var clean := Line(id);
      if clean == "" || clean in list {
        return list;
      }
      kept := Push(list, clean, cap, key);
    }

    method SetGoal(text: string)
      modifies this
      ensures Abs() == Apply(old(Abs()), Goal(text))
    {
      hide Line, Pushed, WithId, Done, NameOf, Without;
      goal := Line(text);
    }

    method SetStage(ordinal: real, intent: string)
      modifies this
      ensures Abs() == Apply(old(Abs()), AtStage(ordinal, intent))
    {
      hide Line, Pushed, WithId, Done, NameOf, Without;
      stage := Stage(if ordinal < 0.0 then 0.0 else ordinal.Floor as real, Line(intent));
    }

    method Decide(what: string, because: string, at: string)
      modifies this
      ensures Abs() == Apply(old(Abs()), Decided(what, because, at))
    {
      hide Line, Pushed, WithId, Done, NameOf, Without;
      decisions := Push(decisions, Decision(Line(what), Line(because), at), DECISIONS, OfDecisions);
    }

    method SeeEvidence(id: string)
      modifies this
      ensures Abs() == Apply(old(Abs()), Listed(EvidenceIds, id))
    {
      hide Line, Pushed, WithId, Done, NameOf, Without;
      evidenceIds := AddId(evidenceIds, id, EvidenceIds.Cap(), Of(EvidenceIds));
    }

    method Calculate(id: string)
      modifies this
      ensures Abs() == Apply(old(Abs()), Listed(CalculationIds, id))
    {
      hide Line, Pushed, WithId, Done, NameOf, Without;
      calculationIds := AddId(calculationIds, id, CalculationIds.Cap(), Of(CalculationIds));
    }

    method Produce(id: string)
      modifies this
      ensures Abs() == Apply(old(Abs()), Listed(ArtifactIds, id))
    {
      hide Line, Pushed, WithId, Done, NameOf, Without;
      artifactIds := AddId(artifactIds, id, ArtifactIds.Cap(), Of(ArtifactIds));
    }

    method Ask(question: string)
      modifies this
      ensures Abs() == Apply(old(Abs()), Listed(OpenQuestions, question))
    {
      hide Line, Pushed, WithId, Done, NameOf, Without;
      openQuestions := AddId(openQuestions, question, OpenQuestions.Cap(), Of(OpenQuestions));
    }

    method Answer(question: string)
      modifies this
      ensures Abs() == Apply(old(Abs()), Answered(question))
    {
      hide Line, Pushed, WithId, Done, NameOf, Without;
      openQuestions := Without(openQuestions, Line(question));
    }

    method SetNextAction(action: string)
      modifies this
      ensures Abs() == Apply(old(Abs()), Next(action))
    {
      hide Line, Pushed, WithId, Done, NameOf, Without;
      nextAction := Line(action);
    }

    method HasDone(tool: string, target: string) returns (done: bool)
      ensures done == Done(completed, tool, target)
    {
      hide Line, NameOf;
      var clean, name, k := Line(target), NameOf(tool), 0;
      while k < |completed|
        invariant k <= |completed|
        invariant forall j :: 0 <= j < k ==> !Matches(completed[j], tool, target)
      {
        if NameOf(completed[k].tool) == name && completed[k].target == clean {
          return true;
        }
        k := k + 1;
      }
      return false;
    }

    method RecordEffect(tool: string, target: string, at: string)
      modifies this
      ensures Abs() == Apply(old(Abs()), DidEffect(tool, target, at))
    {
      hide Line, NameOf, Done, Pushed;
      var done := HasDone(tool, target);
      if done {
        return;
      }
      completed := Push(completed, Effect(NameOf(tool), Line(target), at), COMPLETED, OfCompleted);
    }

    method Reset(saved: State)
      modifies this
      ensures Abs() == Opening(saved)
    {
      hide Line;
      goal, stage, nextAction := "", Stage(0.0, ""), "";
      decisions, evidenceIds, calculationIds, artifactIds, openQuestions, completed := [], [], [], [], [], [];
      dropped := map[];
      SetGoal(saved.goal);
      SetStage(saved.stage.ordinal, saved.stage.intent);
      SetNextAction(saved.nextAction);
      dropped := saved.dropped;
    }

    /** Adopts a record in place; every holder of this object sees it. */
    method ReplaceWith(saved: State)
      modifies this
      ensures Abs() == Load(saved)
    {
      hide Apply, Line, ApplyAll, Opening;
      Reset(saved);
      ghost var s := Abs();
      AllOf(s, Decisions(saved.decisions));
      for k := 0 to |saved.decisions|
        invariant Abs() == ApplyAll(s, Decisions(saved.decisions)[..k])
      {
        var d := saved.decisions[k];
        Decide(d.what, d.because, d.at);
        OneMore(s, Decisions(saved.decisions), k);
      }
      s := Abs();
      AllOf(s, Ids(saved.evidenceIds, EvidenceIds));
      for k := 0 to |saved.evidenceIds|
        invariant Abs() == ApplyAll(s, Ids(saved.evidenceIds, EvidenceIds)[..k])
      {
        SeeEvidence(saved.evidenceIds[k]);
        OneMore(s, Ids(saved.evidenceIds, EvidenceIds), k);
      }
      s := Abs();
      AllOf(s, Ids(saved.calculationIds, CalculationIds));
      for k := 0 to |saved.calculationIds|
        invariant Abs() == ApplyAll(s, Ids(saved.calculationIds, CalculationIds)[..k])
      {
        Calculate(saved.calculationIds[k]);
        OneMore(s, Ids(saved.calculationIds, CalculationIds), k);
      }
      s := Abs();
      AllOf(s, Ids(saved.artifactIds, ArtifactIds));
      for k := 0 to |saved.artifactIds|
        invariant Abs() == ApplyAll(s, Ids(saved.artifactIds, ArtifactIds)[..k])
      {
        Produce(saved.artifactIds[k]);
        OneMore(s, Ids(saved.artifactIds, ArtifactIds), k);
      }
      s := Abs();
      AllOf(s, Ids(saved.openQuestions, OpenQuestions));
      for k := 0 to |saved.openQuestions|
        invariant Abs() == ApplyAll(s, Ids(saved.openQuestions, OpenQuestions)[..k])
      {
        Ask(saved.openQuestions[k]);
        OneMore(s, Ids(saved.openQuestions, OpenQuestions), k);
      }
      s := Abs();
      AllOf(s, Effects(saved.completed));
      for k := 0 to |saved.completed|
        invariant Abs() == ApplyAll(s, Effects(saved.completed)[..k])
      {
        var e := saved.completed[k];
        RecordEffect(e.tool, e.target, e.at);
        OneMore(s, Effects(saved.completed), k);
      }
    }
  }
}
