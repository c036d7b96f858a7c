/** Shortening what a tool says about itself, without touching the shape a call is built from. */
module ToolProse {
  import opened Text
  import opened Json

  /** How many characters are allowed; nothing means no cap at all. */
  type Cap = Option<nat>

  predicate IsStop(c: char) { c == '.' || c == '!' || c == '?' }

  /** A sentence ends at a stop followed by white space, or at the end of the text. */
  predicate IsEnd(t: string, e: nat) { 0 < e <= |t| && IsStop(t[e - 1]) && (e == |t| || IsSpace(t[e])) }

  /** The last end of a sentence at or before `n`; 0 when there is none. */
  function LastEnd(t: string, n: nat): (e: nat)
    requires n <= |t|
    ensures e <= n && (e > 0 ==> IsEnd(t, e)) && forall k :: e < k <= n ==> !IsEnd(t, k)
  {
    if n == 0 then 0 else if IsEnd(t, n) then n else LastEnd(t, n - 1)
  }

  function LastBlank(s: string): (at: int)
    ensures -1 <= at < |s| && (at >= 0 ==> s[at] == ' ') && forall k :: at < k < |s| ==> s[k] != ' '
  {
    if s == "" then -1 else if s[|s| - 1] == ' ' then |s| - 1 else LastBlank(s[..|s| - 1])
  }

  const ELLIPSIS := ['\U{2026}']

  /** Where a text whose first sentence is too long is cut: at a blank if one is past the middle. */
  function HardCut(t: string, cap: nat): (n: nat)
    requires 0 < cap < |t|
    ensures n <= (if cap == 1 then 1 else cap - 1)
  {
    var hard := t[..if cap == 1 then 1 else cap - 1];
    if 2 * LastBlank(hard) > cap then LastBlank(hard) else |hard|
  }

  /** Prose cut at the end of a sentence at or before the cap. */
  function CapSentences(text: string, cap: Cap): string {
    var t := Trim(text);
    if cap.None? then t
    else if cap.value == 0 then ""
    else if |t| <= cap.value then t
    else
      var cut := LastEnd(t, cap.value);
      if cut == 0 then TrimEnd(t[..HardCut(t, cap.value)]) + ELLIPSIS else TrimEnd(t[..cut])
  }

  /** The loop over boundaries, stopping at the first one past the cap. */
  method CapText(text: string, cap: Cap) returns (r: string)
    ensures r == CapSentences(text, cap)
  {
    hide Trim, TrimEnd, IsSpace, HardCut;
    var t := Trim(text);
    if cap.None? {
      return t;
    }
    if cap.value == 0 {
      return "";
    }
    if |t| <= cap.value {
      return t;
    }
    var cut, at := 0, 0;
    while at < |t|
      invariant at <= |t| && cut <= at && cut <= cap.value
      invariant cut == 0 || IsEnd(t, cut)
      invariant forall e :: cut < e <= at && e <= cap.value ==> !IsEnd(t, e)
    {
      var end := at + 1;
      if IsEnd(t, end) {
        if end > cap.value {
          break;
        }
        cut := end;
      }
      at := end;
    }
    assert cut == LastEnd(t, cap.value);
    return if cut == 0 then TrimEnd(t[..HardCut(t, cap.value)]) + ELLIPSIS else TrimEnd(t[..cut]);
  }

  // ---------------------------------------------------------------- a smaller cap never says more

  /** The first `n` characters, marked as cut or not. */
  function Cut(t: string, n: nat, marked: bool): string
    requires n <= |t|
  {
    t[..n] + if marked then ELLIPSIS else ""
  }

  /** What is kept of a trimmed text under a cap: how many characters, and whether the cut is marked. */
  function KeptLength(t: string, cap: Cap): (n: nat)
    ensures n <= |t|
  {
    if cap.None? || |t| <= cap.value then |t|
    else if cap.value == 0 then 0
    else if LastEnd(t, cap.value) == 0 then |TrimEnd(t[..HardCut(t, cap.value)])|
    else LastEnd(t, cap.value)
  }

  predicate IsMarked(t: string, cap: Cap) {
    cap.Some? && 0 < cap.value < |t| && LastEnd(t, cap.value) == 0
  }

  lemma StopIsNoSpace(t: string, e: nat)
    requires IsEnd(t, e)
    ensures TrimEnd(t[..e]) == t[..e]
  {
    assert t[..e][e - 1] == t[e - 1];
  }

  /** Whatever the cap, what is said is an opening of the trimmed text, marked or not. */
  lemma CapIsACut(text: string, cap: Cap)
    ensures var t := Trim(text); CapSentences(text, cap) == Cut(t, KeptLength(t, cap), IsMarked(t, cap))
  {
    var t := Trim(text);
    if IsMarked(t, cap) {
      var hard := t[..HardCut(t, cap.value)];
      assert TrimEnd(hard) == hard[..|TrimEnd(hard)|] == t[..|TrimEnd(hard)|];
    } else if cap.Some? && 0 < cap.value < |t| {
      StopIsNoSpace(t, LastEnd(t, cap.value));
    }
  }

  lemma BlanksOfPrefix(t: string, n: nat, m: nat)
    requires n <= m <= |t|
    ensures LastBlank(t[..n]) <= LastBlank(t[..m])
    ensures LastBlank(t[..m]) < n ==> LastBlank(t[..m]) == LastBlank(t[..n])
  {
    var a, b := LastBlank(t[..n]), LastBlank(t[..m]);
    assert forall k :: 0 <= k < n ==> t[..m][k] == t[..n][k];
  }

  lemma HardCutGrows(t: string, c: nat, d: nat)
    requires 0 < c <= d < |t|
    ensures HardCut(t, c) <= HardCut(t, d)
  {
    BlanksOfPrefix(t, if c == 1 then 1 else c - 1, if d == 1 then 1 else d - 1);
  }

  lemma {:induction false} TrimEndGrows(t: string, n: nat, m: nat)
    requires n <= m <= |t|
    ensures |TrimEnd(t[..n])| <= |TrimEnd(t[..m])|
  {
    if n < m && IsSpace(t[m - 1]) {
      assert t[..m][..m - 1] == t[..m - 1];
      TrimEndGrows(t, n, m - 1);
    }
  }

  lemma LastEndGrows(t: string, c: nat, d: nat)
    requires c <= d <= |t|
    ensures LastEnd(t, c) <= LastEnd(t, d)
    ensures LastEnd(t, c) == 0 && LastEnd(t, d) > 0 ==> LastEnd(t, d) > c
  {
  }

  predicate AtMost(c: Cap, d: Cap) { d.None? || (c.Some? && c.value <= d.value) }

  /** A smaller cap keeps no more characters, and marks a cut only where it keeps fewer. */
  lemma SmallerCapKeepsLess(text: string, c: Cap, d: Cap)
    requires AtMost(c, d)
    ensures var t := Trim(text);
            && KeptLength(t, c) <= KeptLength(t, d)
            && (IsMarked(t, c) && !IsMarked(t, d) ==> KeptLength(t, c) < KeptLength(t, d))
  {
    var t := Trim(text);
    hide IsEnd, Trim, LastBlank;
    if c.Some? && 0 < c.value < |t| {
      var hard := t[..HardCut(t, c.value)];
      if d.Some? && d.value < |t| {
        LastEndGrows(t, c.value, d.value);
        if LastEnd(t, d.value) == 0 {
          HardCutGrows(t, c.value, d.value);
          TrimEndGrows(t, HardCut(t, c.value), HardCut(t, d.value));
        }
      }
    }
  }

  /** The length of what is said never grows as the cap shrinks. */
  lemma CapIsMonotone(text: string, c: Cap, d: Cap)
    requires AtMost(c, d)
    ensures |CapSentences(text, c)| <= |CapSentences(text, d)|
  {
    hide CapSentences, KeptLength, IsMarked;
    CapIsACut(text, c);
    CapIsACut(text, d);
    SmallerCapKeepsLess(text, c, d);
  }

  /** The cap is kept from two characters on, and some of a text that says anything is kept by any cap but 0. */
  lemma CapIsKept(text: string, cap: nat)
    ensures cap != 1 ==> |CapSentences(text, Some(cap))| <= cap
    ensures cap > 0 && Trim(text) != "" ==> CapSentences(text, Some(cap)) != ""
  {
    CapIsACut(text, Some(cap));
    hide IsEnd, Trim, LastBlank;
  }

  /** A cap of one is exceeded exactly when the text is longer and does not open with a one-character sentence. */
  lemma CapOfOneFailsIff(text: string)
    ensures var t := Trim(text);
            |CapSentences(text, Some(1))| > 1 <==> |t| > 1 && !(IsStop(t[0]) && IsSpace(t[1]))
  {
    var t := Trim(text);
    CapIsACut(text, Some(1));
    if |t| > 1 {
      assert t[..1][0] == t[0];
      assert LastEnd(t, 1) == if IsEnd(t, 1) then 1 else LastEnd(t, 0);
      assert TrimStart(text)[0] == t[0] by { assert t == TrimEnd(TrimStart(text)); }
      assert TrimEnd(t[..1]) == t[..1];
      assert HardCut(t, 1) == 1 by { assert LastBlank(t[..1]) == -1; }
    }
  }

  // ---------------------------------------------------------------- where prose is cut

  /** A sentence of `t` ends at `e`. */
  predicate SentenceEnds(t: string, e: nat) {
    0 < e <= |t| && (t[e - 1] == '.' || t[e - 1] == '!' || t[e - 1] == '?') && (e == |t| || IsSpace(t[e]))
  }

  /** Where a first sentence that is too long is cut: at the last blank where that is past the middle, and else a place for the mark short of the cap. */
  ghost predicate CutsWord(t: string, cap: nat, n: nat) {
    var hard := if cap == 1 then 1 else cap - 1;
    && hard <= |t|
    && if n == hard then forall k :: 0 <= k < hard && t[k] == ' ' ==> 2 * k <= cap
       else n < hard && t[n] == ' ' && 2 * n > cap && forall k :: n < k < hard ==> t[k] != ' '
  }

  /** Prose over its cap ends with its last sentence that is within it, or in the middle of the first one, marked. */
  lemma ProseIsCutAtASentence(text: string, cap: nat)
    requires 0 < cap < |Trim(text)|
    ensures var t := Trim(text);
            && (forall e: nat :: SentenceEnds(t, e) && e <= cap && (forall d: nat :: e < d <= cap ==> !SentenceEnds(t, d)) ==>
                  CapSentences(text, Some(cap)) == t[..e])
            && ((forall e: nat :: e <= cap ==> !SentenceEnds(t, e)) ==>
                  exists n: nat :: CutsWord(t, cap, n) && CapSentences(text, Some(cap)) == TrimEnd(t[..n]) + ELLIPSIS)
  {
    var t := Trim(text);
    hide IsSpace, Trim, TrimEnd, LastBlank, CutsWord;
    var last := LastEnd(t, cap);
    assert last > 0 ==> SentenceEnds(t, last);
    forall e: nat | SentenceEnds(t, e) && e <= cap && forall d: nat :: e < d <= cap ==> !SentenceEnds(t, d)
      ensures CapSentences(text, Some(cap)) == t[..e]
    {
      assert IsEnd(t, e);
      StopIsNoSpace(t, e);
    }
    if forall e: nat :: e <= cap ==> !SentenceEnds(t, e) {
      HardCutIs(t, cap);
      assert CapSentences(text, Some(cap)) == TrimEnd(t[..HardCut(t, cap)]) + ELLIPSIS;
    }
  }

  lemma HardCutIs(t: string, cap: nat)
    requires 0 < cap < |t|
    ensures CutsWord(t, cap, HardCut(t, cap)) && HardCut(t, cap) <= |t|
  {
    var hard := if cap == 1 then 1 else cap - 1;
    var at := LastBlank(t[..hard]);
    assert forall k :: 0 <= k < hard ==> t[..hard][k] == t[k];
  }

  // ---------------------------------------------------------------- schemas

  /** The description a member keeps: none once nothing is left of it. */
  function CapMember(key: string, text: string, cap: Cap): seq<(string, Value)> {
    var capped := CapSentences(text, cap);
    if capped == "" then [] else [(key, Str(capped))]
  }

  predicate IsProse(m: (string, Value)) { m.0 == "description" && m.1.Str? }

  /** A schema with its descriptions capped, at every depth. */
  function CapSchema(v: Value, cap: Cap): Value
    decreases v, 1
  {
    if cap.None? then v
    else
      match v
      case Arr(_) => Arr(CapElements(v, 0, cap))
      case Obj(_) => Obj(CapMembers(v, 0, cap))
      case _ => v
  }

  function CapElements(v: Value, from: nat, cap: Cap): seq<Value>
    requires v.Arr? && from <= |v.elements|
    decreases v, 0, |v.elements| - from
  {
    if from == |v.elements| then [] else [CapSchema(v.elements[from], cap)] + CapElements(v, from + 1, cap)
  }

  function CapMembers(v: Value, from: nat, cap: Cap): seq<(string, Value)>
    requires v.Obj? && from <= |v.members|
    decreases v, 0, |v.members| - from
  {
    if from == |v.members| then []
    else
      var m := v.members[from];
      (if IsProse(m) then CapMember(m.0, m.1.s, cap) else [(m.0, CapSchema(m.1, cap))]) + CapMembers(v, from + 1, cap)
  }

  /** A schema without its prose: the part a call is built from. */
  function Shape(v: Value): Value
    decreases v, 1
  {
    match v
    case Arr(_) => Arr(ShapeElements(v, 0))
    case Obj(_) => Obj(ShapeMembers(v, 0))
    case _ => v
  }

  function ShapeElements(v: Value, from: nat): seq<Value>
    requires v.Arr? && from <= |v.elements|
    decreases v, 0, |v.elements| - from
  {
    if from == |v.elements| then [] else [Shape(v.elements[from])] + ShapeElements(v, from + 1)
  }

  function ShapeMembers(v: Value, from: nat): seq<(string, Value)>
    requires v.Obj? && from <= |v.members|
    decreases v, 0, |v.members| - from
  {
    if from == |v.members| then []
    else (if IsProse(v.members[from]) then [] else [(v.members[from].0, Shape(v.members[from].1))]) + ShapeMembers(v, from + 1)
  }

  /** The shape of a list read from its second place is the shape of its tail. */
  lemma {:induction false} ElementsBehind(e: Value, es: seq<Value>, from: nat)
    requires from <= |es|
    ensures ShapeElements(Arr([e] + es), from + 1) == ShapeElements(Arr(es), from)
    decreases |es| - from
  {
    if from < |es| { ElementsBehind(e, es, from + 1); }
  }

  lemma {:induction false} MembersBehind(m: (string, Value), ms: seq<(string, Value)>, from: nat)
    requires from <= |ms|
    ensures ShapeMembers(Obj([m] + ms), from + 1) == ShapeMembers(Obj(ms), from)
    decreases |ms| - from
  {
    if from < |ms| { MembersBehind(m, ms, from + 1); }
  }

  /** Capping touches nothing but the prose. */
  lemma {:induction false} CappingKeepsShape(v: Value, cap: Cap)
    ensures Shape(CapSchema(v, cap)) == Shape(v)
    decreases v, 1
  {
    if cap.Some? {
      match v {
        case Arr(_) => CappingKeepsElements(v, 0, cap);
        case Obj(_) => CappingKeepsMembers(v, 0, cap);
        case _ =>
      }
    }
  }

  lemma {:induction false} CappingKeepsElements(v: Value, from: nat, cap: Cap)
    requires v.Arr? && from <= |v.elements| && cap.Some?
    ensures ShapeElements(Arr(CapElements(v, from, cap)), 0) == ShapeElements(v, from)
    decreases v, 0, |v.elements| - from
  {
    if from < |v.elements| {
      CappingKeepsShape(v.elements[from], cap);
      CappingKeepsElements(v, from + 1, cap);
      ElementsBehind(CapSchema(v.elements[from], cap), CapElements(v, from + 1, cap), 0);
    }
  }

  lemma {:induction false} CappingKeepsMembers(v: Value, from: nat, cap: Cap)
    requires v.Obj? && from <= |v.members| && cap.Some?
    ensures ShapeMembers(Obj(CapMembers(v, from, cap)), 0) == ShapeMembers(v, from)
    decreases v, 0, |v.members| - from
  {
    if from < |v.members| {
      hide Shape, CapSchema, CapSentences, IsProse, ShapeMembers;
      var m, rest := v.members[from], CapMembers(v, from + 1, cap);
      CappingKeepsMembers(v, from + 1, cap);
      ShapeFrom(v, from);
      if IsProse(m) {
        var kept := CapMember(m.0, m.1.s, cap);
        if kept == [] {
          assert kept + rest == rest;
        } else {
          ShapeOfMore(kept[0], rest);
          KeptIsProse(m, cap);
        }
      } else {
        CappingKeepsShape(m.1, cap);
        CappedIsNoProse(m, cap);
        ShapeOfMore((m.0, CapSchema(m.1, cap)), rest);
      }
    }
  }

  function ShapeOfOne(m: (string, Value)): seq<(string, Value)> { if IsProse(m) then [] else [(m.0, Shape(m.1))] }

  lemma ShapeFrom(v: Value, from: nat)
    requires v.Obj? && from < |v.members|
    ensures ShapeMembers(v, from) == ShapeOfOne(v.members[from]) + ShapeMembers(v, from + 1)
  {
    hide IsProse, Shape;
  }

  lemma ShapeOfMore(m: (string, Value), ms: seq<(string, Value)>)
    ensures ShapeMembers(Obj([m] + ms), 0) == ShapeOfOne(m) + ShapeMembers(Obj(ms), 0)
  {
    hide IsProse, Shape, ShapeMembers, ShapeOfOne;
    ShapeFrom(Obj([m] + ms), 0);
    MembersBehind(m, ms, 0);
  }

  lemma KeptIsProse(m: (string, Value), cap: Cap)
    requires IsProse(m) && CapMember(m.0, m.1.s, cap) != []
    ensures ShapeOfOne(CapMember(m.0, m.1.s, cap)[0]) == [] == ShapeOfOne(m) && |CapMember(m.0, m.1.s, cap)| == 1
  {
    hide CapSentences, Shape;
  }

  lemma CappedIsNoProse(m: (string, Value), cap: Cap)
    requires !IsProse(m)
    ensures !IsProse((m.0, CapSchema(m.1, cap)))
  {
  }

  // ---------------------------------------------------------------- what comes through whole

  /** Prose no cap changes: trimmed, and short enough. A cap of one lets a single character with its mark through. */
  ghost predicate Brief(t: string, cap: nat) {
    t != "" && Trimmed(t) && (|t| <= cap || (cap == 1 && IsMarkedLetter(t)))
  }

  ghost predicate IsMarkedLetter(t: string) { |t| == 2 && Trimmed(t) && t[1] == ELLIPSIS[0] }

  /** Under a cap a text is left as it is exactly when it is brief, or is nothing. */
  lemma SaidWholeIff(t: string, cap: nat)
    ensures CapSentences(t, Some(cap)) == t <==> t == "" || Brief(t, cap)
  {
    hide IsSpace, IsStop, LastBlank;
    CapIsKept(t, cap);
    hide CapSentences;
    if cap == 1 && |t| > 1 { OnlyOneLeft(t); }
    if Trimmed(t) { TrimOfTrimmed(t); }
    ShortIsTrimmed(t, cap);
  }

  lemma ShortIsTrimmed(t: string, cap: nat)
    ensures cap > 0 && |Trim(t)| <= cap ==> CapSentences(t, Some(cap)) == Trim(t)
    ensures cap == 0 || t == "" ==> CapSentences(t, Some(cap)) == ""
    ensures |t| <= cap ==> |Trim(t)| <= cap
  {
    hide IsSpace;
  }

  /** What a cap of one makes of a trimmed text that is longer. */
  lemma OneCharacter(u: string)
    requires |u| > 1 && !IsSpace(u[0])
    ensures LastEnd(u, 1) == (if IsEnd(u, 1) then 1 else 0)
    ensures HardCut(u, 1) == 1 && TrimEnd(u[..1]) == u[..1]
  {
    assert u[..1][0] == u[0];
    assert LastEnd(u, 1) == if IsEnd(u, 1) then 1 else LastEnd(u, 0);
  }

  lemma OnlyOneLeft(t: string)
    requires |t| > 1
    ensures CapSentences(t, Some(1)) == t <==> IsMarkedLetter(t)
  {
    var u := Trim(t);
    hide IsSpace, Trim, LastEnd, HardCut, TrimEnd;
    assert !IsSpace(ELLIPSIS[0]) by { EllipsisIsNoSpace(); }
    if Trimmed(t) { TrimOfTrimmed(t); }
    if |u| > 1 { OneCharacter(u); }
  }

  lemma EllipsisIsNoSpace()
    ensures !IsSpace(ELLIPSIS[0])
  {
  }

  /** Every description, at every depth, is brief. */
  ghost predicate Within(v: Value, cap: Cap) {
    cap.None? ||
    match v
    case Arr(elements) => forall e :: e in elements ==> Within(e, cap)
    case Obj(members) => forall m :: m in members ==> if IsProse(m) then Brief(m.1.s, cap.value) else Within(m.1, cap)
    case _ => true
  }

  lemma {:induction false} CappedElements(v: Value, from: nat, cap: Cap)
    requires v.Arr? && from <= |v.elements|
    ensures var r := CapElements(v, from, cap);
            |r| == |v.elements| - from && forall k :: 0 <= k < |r| ==> r[k] == CapSchema(v.elements[from + k], cap)
    decreases |v.elements| - from
  {
    hide CapSchema;
    if from < |v.elements| { CappedElements(v, from + 1, cap); }
  }

  function CapOne(m: (string, Value), cap: Cap): (r: seq<(string, Value)>)
    ensures |r| <= 1
  {
    if IsProse(m) then CapMember(m.0, m.1.s, cap) else [(m.0, CapSchema(m.1, cap))]
  }

  /** The members one after another, which is what the recursion over positions makes of them. */
  function AllCapped(ms: seq<(string, Value)>, cap: Cap): seq<(string, Value)> {
    if ms == [] then [] else AllCapped(ms[..|ms| - 1], cap) + CapOne(ms[|ms| - 1], cap)
  }

  lemma RestThenOne<T>(rest: seq<T>, one: seq<T>, front: seq<T>, last: T)
    requires |one| <= 1 && |rest| <= |front|
    ensures rest + one == front + [last] <==> rest == front && one == [last]
  {
    if rest + one == front + [last] {
      assert |one| == 1;
      assert (rest + one)[|rest|] == one[0] && (rest + one)[..|rest|] == rest && (front + [last])[..|front|] == front;
    }
  }

  /** Members can only be lost, so all are there exactly when none was. */
  lemma {:induction false} AllStandIff(ms: seq<(string, Value)>, cap: Cap)
    ensures |AllCapped(ms, cap)| <= |ms|
    ensures AllCapped(ms, cap) == ms <==> forall m :: m in ms ==> CapOne(m, cap) == [m]
  {
    hide CapOne;
    if ms != [] {
      var front, last := ms[..|ms| - 1], ms[|ms| - 1];
      AllStandIff(front, cap);
      RestThenOne(AllCapped(front, cap), CapOne(last, cap), front, last);
      assert ms == front + [last];
      assert forall m :: m in ms <==> m in front || m == last;
    }
  }

  lemma ProseStandsIff(m: (string, Value), cap: Cap)
    requires IsProse(m) && cap.Some?
    ensures CapOne(m, cap) == [m] <==> Brief(m.1.s, cap.value)
  {
    SaidWholeIff(m.1.s, cap.value);
    hide CapSentences;
  }

  /** A value, schema or data, comes through a cap as it is exactly when every description in it is brief. */
  lemma {:induction false} UntouchedIff(v: Value, cap: Cap)
    ensures CapSchema(v, cap) == v <==> Within(v, cap)
    decreases v
  {
    hide Brief, CapOne, AllCapped;
    if cap.Some? {
      match v {
        case Arr(elements) =>
          CappedElements(v, 0, cap);
          forall e | e in elements ensures CapSchema(e, cap) == e <==> Within(e, cap) { UntouchedIff(e, cap); }
          var r := CapElements(v, 0, cap);
          if r == elements {
            forall e | e in elements ensures Within(e, cap) {
              var k :| 0 <= k < |elements| && elements[k] == e;
              assert r[k] == CapSchema(elements[0 + k], cap);
            }
          }
        case Obj(members) =>
          CapObject(members, cap);
          AllStandIff(members, cap);
          forall m | m in members
            ensures CapOne(m, cap) == [m] <==> if IsProse(m) then Brief(m.1.s, cap.value) else Within(m.1, cap)
          {
            if IsProse(m) {
              ProseStandsIff(m, cap);
            } else {
              UntouchedIff(m.1, cap);
              DataIsCapped(m, cap);
            }
          }
        case _ =>
      }
    }
  }

  lemma DataIsCapped(m: (string, Value), cap: Cap)
    requires !IsProse(m)
    ensures CapOne(m, cap) == [(m.0, CapSchema(m.1, cap))] && (CapOne(m, cap) == [m] <==> CapSchema(m.1, cap) == m.1)
  {
    hide CapSchema;
    assert m == (m.0, m.1);
  }

  /** Keys under which a schema holds data. */
  predicate HoldsData(key: string) { key == "default" || key == "enum" || key == "const" || key == "examples" }

  /** A schema's data, wherever it stands among the members, is capped like prose; it is whole exactly when that finds nothing to cut. */
  lemma DataIsWholeIff(front: seq<(string, Value)>, key: string, data: Value, back: seq<(string, Value)>, cap: Cap)
    requires HoldsData(key)
    ensures CapSchema(Obj(front + [(key, data)] + back), cap) ==
            Obj(CapSchema(Obj(front), cap).members + [(key, CapSchema(data, cap))] + CapSchema(Obj(back), cap).members)
    ensures CapSchema(data, cap) == data <==> Within(data, cap)
  {
    UntouchedIff(data, cap);
    hide CapSchema, Within, AllCapped, CapOne;
    assert key != "description" by { assert "description"[0] == 'd' && |"description"| == 11; }
    if cap.None? {
      UncappedIsItself(cap);
    } else {
      CapObject(front, cap);
      CapObject(back, cap);
      CapObject(front + [(key, data)] + back, cap);
      AllCappedAppend(front + [(key, data)], back, cap);
      AllCappedAppend(front, [(key, data)], cap);
      DataIsCapped((key, data), cap);
      AllCappedOne((key, data), cap);
    }
  }

  /** Every description, wherever it stands, becomes what its sentences are capped to, or goes where nothing is left; every other member is capped inside. */
  lemma MembersAreCapped(front: seq<(string, Value)>, m: (string, Value), back: seq<(string, Value)>, cap: nat)
    ensures var capped := if m.0 == "description" && m.1.Str? then CapSentences(m.1.s, Some(cap)) else "";
            CapSchema(Obj(front + [m] + back), Some(cap)) ==
            Obj(CapSchema(Obj(front), Some(cap)).members
                + (if !(m.0 == "description" && m.1.Str?) then [(m.0, CapSchema(m.1, Some(cap)))]
                   else if capped == "" then [] else [(m.0, Str(capped))])
                + CapSchema(Obj(back), Some(cap)).members)
  {
    hide CapSchema, AllCapped, CapSentences;
    CapObject(front, Some(cap));
    CapObject(back, Some(cap));
    CapObject(front + [m] + back, Some(cap));
    AllCappedAppend(front + [m], back, Some(cap));
    AllCappedAppend(front, [m], Some(cap));
    AllCappedOne(m, Some(cap));
  }

  /** In a list each element is capped. */
  lemma ElementsAreCapped(elements: seq<Value>, cap: nat)
    ensures var r := CapSchema(Arr(elements), Some(cap));
            r.Arr? && |r.elements| == |elements| && forall k :: 0 <= k < |elements| ==> r.elements[k] == CapSchema(elements[k], Some(cap))
    ensures CapSchema(Obj([]), Some(cap)) == Obj([])
  {
    CappedElements(Arr(elements), 0, Some(cap));
    hide CapElements;
  }

  lemma UncappedIsItself(cap: Cap)
    requires cap.None?
    ensures forall v :: CapSchema(v, cap) == v
  {
  }

  lemma {:induction false} AllCappedAppend(xs: seq<(string, Value)>, ys: seq<(string, Value)>, cap: Cap)
    ensures AllCapped(xs + ys, cap) == AllCapped(xs, cap) + AllCapped(ys, cap)
  {
    hide CapOne;
    if ys == [] {
      assert xs + ys == xs;
    } else {
      AllCappedAppend(xs, ys[..|ys| - 1], cap);
      assert (xs + ys)[..|xs + ys| - 1] == xs + ys[..|ys| - 1];
    }
  }

  lemma CapObject(ms: seq<(string, Value)>, cap: Cap)
    requires cap.Some?
    ensures CapSchema(Obj(ms), cap) == Obj(AllCapped(ms, cap))
  {
    CapsTheRest(Obj(ms), 0, cap);
    assert ms[0..] == ms;
  }

  lemma AllCappedOne(m: (string, Value), cap: Cap)
    ensures AllCapped([m], cap) == CapOne(m, cap)
  {
    hide CapOne;
    assert [m][..0] == [] && AllCapped([m], cap) == AllCapped([], cap) + CapOne(m, cap);
  }

  lemma CapsOneMore(v: Value, from: nat, cap: Cap)
    requires v.Obj? && from < |v.members|
    ensures CapMembers(v, from, cap) == CapOne(v.members[from], cap) + CapMembers(v, from + 1, cap)
  {
    hide CapSchema, CapMember, IsProse;
  }

  lemma {:induction false} CapsTheRest(v: Value, from: nat, cap: Cap)
    requires v.Obj? && from <= |v.members|
    ensures CapMembers(v, from, cap) == AllCapped(v.members[from..], cap)
    decreases |v.members| - from
  {
    hide CapMembers, CapOne, AllCapped;
    if from < |v.members| {
      var m, rest := v.members[from], v.members[from + 1..];
      CapsTheRest(v, from + 1, cap);
      CapsOneMore(v, from, cap);
      assert v.members[from..] == [m] + rest;
      AllCappedAppend([m], rest, cap);
      AllCappedOne(m, cap);
    } else {
      NothingCapped(v, cap);
      assert v.members[from..] == [];
    }
  }

  lemma NothingCapped(v: Value, cap: Cap)
    requires v.Obj?
    ensures CapMembers(v, |v.members|, cap) == [] == AllCapped([], cap)
  {
  }

  lemma DescriptionGoes(t: string)
    ensures CapOne(("description", Str(t)), Some(0)) == []
  {
  }

  lemma DefaultIsNoProse(v: Value)
    ensures !IsProse(("default", v))
  {
    assert |"default"| == 7 && |"description"| == 11;
  }

  /** A default that happens to have a member called `description` loses it where a cap of nothing is asked for. */
  lemma DefaultIsCut(t: string)
    ensures CapSchema(Obj([("default", Obj([("description", Str(t))]))]), Some(0)) == Obj([("default", Obj([]))])
  {
    hide CapSchema, CapOne, AllCapped, IsProse;
    var said := ("description", Str(t));
    CapObject([said], Some(0));
    AllCappedOne(said, Some(0));
    DescriptionGoes(t);
    CapObject([("default", Obj([said]))], Some(0));
    AllCappedOne(("default", Obj([said])), Some(0));
    DefaultIsNoProse(Obj([said]));
    DataIsCapped(("default", Obj([said])), Some(0));
  }
}
