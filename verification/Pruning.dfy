/**
 * What goes before anything is measured: reasoning that is not sent back, and tool results whose
 * passages can be fetched again by the evidence marker they carry.
 */
module Pruning {
  import opened Text
  import opened Messages

  // ---------------------------------------------------------------- replayed reasoning

  function StripOne(m: Message): Message {
    if m.role.Assistant? && m.content.Blocks? then
      var kept := Removing(m.content.blocks, (b: Block) => b.Thinking?);
      if |kept| == |m.content.blocks| then m else m.(content := Blocks(kept), usage := None)
    else m
  }

  function Strip(ms: seq<Message>): (r: seq<Message>)
    ensures |r| == |ms| && forall k :: 0 <= k < |ms| ==> r[k] == StripOne(ms[k])
  {
    seq(|ms|, k requires 0 <= k < |ms| => StripOne(ms[k]))
  }

  /** The count is of the places where the two differ. */
  lemma {:induction false} DifferencesAreCounted(xs: seq<Message>, ys: seq<Message>)
    requires |xs| == |ys|
    ensures Differences(xs, ys) == |set k | 0 <= k < |xs| && xs[k] != ys[k]|
  {
    var here := set k | 0 <= k < |xs| && xs[k] != ys[k];
    if xs == [] {
      assert here == {};
    } else {
      var n := |xs| - 1;
      DifferencesAreCounted(xs[..n], ys[..n]);
      var before := set k | 0 <= k < |xs[..n]| && xs[..n][k] != ys[..n][k];
      assert here == before + (if xs[n] != ys[n] then {n} else {});
    }
  }

  method WithoutReplayedReasoning(ms: seq<Message>) returns (replayed: seq<Message>, stripped: nat)
    ensures replayed == Strip(ms)
    ensures stripped == Differences(ms, replayed)
  {
    replayed, stripped := [], 0;
    for k := 0 to |ms|
      invariant |replayed| == k && forall j :: 0 <= j < k ==> replayed[j] == StripOne(ms[j])
      invariant stripped == Differences(ms[..k], replayed)
    {
      var m := StripOne(ms[k]);
      if m != ms[k] {
        stripped := stripped + 1;
      }
      replayed := replayed + [m];
      assert ms[..k + 1][..k] == ms[..k] && replayed[..k] == replayed[..|replayed| - 1];
    }
    assert ms[..|ms|] == ms;
  }

  /** How many messages a rewrite changed. */
  function Differences(xs: seq<Message>, ys: seq<Message>): nat
    requires |xs| == |ys|
  {
    if xs == [] then 0
    else
      var n := |xs| - 1;
      Differences(xs[..n], ys[..n]) + (if xs[n] != ys[n] then 1 else 0)
  }

  lemma {:induction false} RemovingKeepsText(blocks: seq<Block>, gone: Block -> bool)
    requires forall b :: gone(b) ==> !b.TextBlock?
    ensures BlocksText(Removing(blocks, gone)) == BlocksText(blocks)
  {
    if blocks != [] {
      RemovingKeepsText(blocks[1..], gone);
      var rest := Removing(blocks[1..], gone);
      if gone(blocks[0]) {
        assert Removing(blocks, gone) == [] + rest == rest;
      } else {
        assert ([blocks[0]] + rest)[1..] == rest;
      }
    }
  }

  /**
   * The reasoning goes and nothing else does: every call, answer, role and word of text stays, and
   * a provider count that included the reasoning goes with it.
   */
  lemma StripTakesOnlyReasoning(m: Message)
    ensures var r := StripOne(m);
            && CallIds(r) == CallIds(m) && ResultId(r) == ResultId(m) && r.role == m.role && TextOf(r) == TextOf(m)
            && StripOne(r) == r
            && (r.role.Assistant? && r.content.Blocks? ==> forall b :: b in r.content.blocks ==> !b.Thinking?)
            && (r == m <==> !(m.role.Assistant? && m.content.Blocks? && exists b :: b in m.content.blocks && b.Thinking?))
            && (r != m ==> r == m.(content := Blocks(Removing(m.content.blocks, (b: Block) => b.Thinking?)), usage := None))
  {
    if m.role.Assistant? && m.content.Blocks? {
      var gone := (b: Block) => b.Thinking?;
      RemovingKeepsText(m.content.blocks, gone);
      var kept := Removing(m.content.blocks, gone);
      assert forall b :: b in kept ==> !b.Thinking?;
      if forall b :: b in m.content.blocks ==> !gone(b) { RemovingNothing(m.content.blocks, gone); }
      if |kept| == |m.content.blocks| {
        assert kept == m.content.blocks;
      } else {
        var again := Removing(kept, gone);
        RemovingNothing(kept, gone);
        assert again == kept;
      }
    }
  }

  lemma {:induction false} RemovingNothing(blocks: seq<Block>, gone: Block -> bool)
    requires forall b :: b in blocks ==> !gone(b)
    ensures Removing(blocks, gone) == blocks
  {
    if blocks != [] {
      RemovingNothing(blocks[1..], gone);
      assert blocks == [blocks[0]] + blocks[1..];
    }
  }

  // ---------------------------------------------------------------- evidence markers

  /** The length of the match of `\[E\d+\]` at the start of `s`. */
  function MarkerLength(s: string): (n: Option<nat>)
    ensures n.Some? ==> 4 <= n.value <= |s| && IsMarker(s[1..n.value - 1]) && s[0] == '[' && s[n.value - 1] == ']'
  {
    if |s| >= 2 && s[0] == '[' && s[1] == 'E' then
      var d := DigitRun(s[2..]);
      if 0 < d < |s| - 2 && s[2 + d] == ']' then
        assert s[1..d + 2][1..] == s[2..][..d];
        Some(d + 3)
      else None
    else None
  }

  ghost predicate IsMarker(x: string) { |x| >= 2 && x[0] == 'E' && AllDigits(x[1..]) }

  /** All non-overlapping matches of `\[E(\d+)\]`, as `matchAll` yields them. */
  function Markers(s: string): (r: seq<string>)
    ensures forall x :: x in r ==> IsMarker(x)
  {
    if s == [] then []
    else
      var n := MarkerLength(s);
      if n.Some? then [s[1..n.value - 1]] + Markers(s[n.value..]) else Markers(s[1..])
  }

  /** First occurrences, in order: what spreading a `Set` gives back. */
  function Distinct(xs: seq<string>): (r: seq<string>)
    ensures forall x :: x in r <==> x in xs
    ensures forall i, j :: 0 <= i < j < |r| ==> r[i] != r[j]
    ensures |r| <= |xs|
  {
    if xs == [] then []
    else
      var front := Distinct(xs[..|xs| - 1]);
      var last := xs[|xs| - 1];
      assert xs == xs[..|xs| - 1] + [last];
      if last in front then front else front + [last]
  }

  /** Each entry stays at its first place. */
  lemma DistinctMore(xs: seq<string>, x: string)
    ensures Distinct(xs + [x]) == if x in xs then Distinct(xs) else Distinct(xs) + [x]
    ensures Distinct([]) == []
  {
    assert (xs + [x])[..|xs|] == xs;
  }

  // ---------------------------------------------------------------- pruning

  const KEEPS_RECENT := 6

  function UpperChar(c: char): char {
    if 'a' <= c <= 'z' then (c as int - 32) as char else c
  }

  function Upper(s: string): (r: string)
    ensures |r| == |s|
  {
    seq(|s|, k requires 0 <= k < |s| => UpperChar(s[k]))
  }

  /** Texts are the same in upper case exactly when they differ in nothing but the case of letters. */
  lemma SameInUpper(a: string, b: string)
    ensures Upper(a) == Upper(b) <==>
            |a| == |b| && forall k :: 0 <= k < |a| ==>
              a[k] == b[k] || ('a' <= a[k] <= 'z' && a[k] as int - 32 == b[k] as int) || ('a' <= b[k] <= 'z' && b[k] as int - 32 == a[k] as int)
  {
    if |a| == |b| {
      assert forall k :: 0 <= k < |a| ==> Upper(a)[k] == UpperChar(a[k]) && Upper(b)[k] == UpperChar(b[k]);
    }
  }

  type Unbracketed = s: string | '[' !in s witness ""

  /** What a stub says after its markers. All that matters of its wording is that it opens no bracket. */
  const STUB_TAIL: Unbracketed

  function Stub(durable: seq<string>): string {
    "[" + Join(durable, ", ") + "]" + STUB_TAIL
  }

  function UpperSet(xs: seq<string>): set<string> {
    set x | x in xs :: Upper(x)
  }

  predicate IsPinned(text: string, pinned: set<string>) {
    exists id :: id in pinned && id != "" && IndexOf(id, Upper(text)).Some?
  }

  /** A tool result whose every passage the notes already hold, and that nobody asked to keep. */
  predicate Clears(m: Message, durable: set<string>, pinned: set<string>) {
    && m.role.ToolResult? && m.content.Blocks?
    && TextOf(m) != ""
    && !IsPinned(TextOf(m), pinned)
    && var found := Distinct(Markers(TextOf(m)));
    found != [] && forall x :: x in found ==> x in durable
  }

  function Cleared(m: Message): Message {
    m.(content := Blocks([TextBlock(Stub(Distinct(Markers(TextOf(m)))))]))
  }

  function PruneOne(m: Message, durable: set<string>, pinned: set<string>): Message {
    if Clears(m, durable, pinned) then Cleared(m) else m
  }

  function Prune(ms: seq<Message>, durable: seq<string>, pinned: seq<string>): (r: seq<Message>)
    ensures |r| == |ms|
    ensures forall k :: 0 <= k < |ms| ==> r[k] == PruneAt(ms, k, durable, pinned)
  {
    seq(|ms|, k requires 0 <= k < |ms| => PruneAt(ms, k, durable, pinned))
  }

  function PruneAt(ms: seq<Message>, k: nat, durable: seq<string>, pinned: seq<string>): Message
    requires k < |ms|
  {
    if durable != [] && k < |ms| - KEEPS_RECENT then PruneOne(ms[k], UpperSet(durable), UpperSet(pinned)) else ms[k]
  }

  function ClearedCount(ms: seq<Message>, durable: seq<string>, pinned: seq<string>, upTo: nat): nat
    requires upTo <= |ms|
  {
    if upTo == 0 || durable == [] then 0
    else ClearedCount(ms, durable, pinned, upTo - 1) +
         (if upTo <= |ms| - KEEPS_RECENT && Clears(ms[upTo - 1], UpperSet(durable), UpperSet(pinned)) then 1 else 0)
  }

  method PruneStaleToolResults(ms: seq<Message>, durable: seq<string>, pinned: seq<string>)
    returns (rewritten: seq<Message>, cleared: nat)
    ensures rewritten == Prune(ms, durable, pinned)
    ensures cleared == ClearedCount(ms, durable, pinned, |ms|)
  {
    if durable == [] {
      return ms, 0;
    }
    var markers, kept := UpperSet(durable), UpperSet(pinned);
    rewritten, cleared := [], 0;
    for k := 0 to |ms|
      invariant |rewritten| == k && cleared == ClearedCount(ms, durable, pinned, k)
      invariant forall j :: 0 <= j < k ==> rewritten[j] == PruneAt(ms, j, durable, pinned)
    {
      var m := ms[k];
      if k < |ms| - KEEPS_RECENT && Clears(m, markers, kept) {
        m, cleared := Cleared(m), cleared + 1;
      }
      rewritten := rewritten + [m];
    }
  }

  // ---------------------------------------------------------------- evidence classification

  /** `E\d+(?:,\s*E\d+)*`, the inside of a marker list. */
  ghost predicate MarkerItems(s: string)
    decreases |s|
  {
    exists n :: 0 < n <= |s| && IsMarker(s[..n]) &&
      (n == |s| || (s[n] == ',' && exists g :: n < g < |s| && AllSpace(s[n + 1..g]) && MarkerItems(s[g..])))
  }

  ghost predicate MarkerListAt(s: string, i: nat, j: nat) {
    i < j < |s| && s[i] == '[' && s[j] == ']' && MarkerItems(s[i + 1..j])
  }

  /** A list of markers opens its bracket, an `E` and a digit, and closes the bracket. */
  lemma ListOpensABracket(s: string, i: nat, j: nat)
    requires MarkerListAt(s, i, j)
    ensures i + 3 <= j < |s| && s[i] == '[' && s[i + 1] == 'E' && IsDigit(s[i + 2]) && s[j] == ']' && IsDigit(s[j - 1])
    decreases j - i
  {
    var t := s[i + 1..j];
    var n :| 0 < n <= |t| && IsMarker(t[..n]) &&
      (n == |t| || (t[n] == ',' && exists g :: n < g < |t| && AllSpace(t[n + 1..g]) && MarkerItems(t[g..])));
    assert t[..n][0] == s[i + 1] && t[..n][1..][0] == s[i + 2];
    ItemsEndOnADigit(t);
  }

  lemma {:induction false} ItemsEndOnADigit(t: string)
    requires MarkerItems(t)
    ensures t != "" && IsDigit(t[|t| - 1])
    decreases |t|
  {
    var n :| 0 < n <= |t| && IsMarker(t[..n]) &&
      (n == |t| || (t[n] == ',' && exists g :: n < g < |t| && AllSpace(t[n + 1..g]) && MarkerItems(t[g..])));
    if n == |t| {
      assert t[..n] == t && t[1..][|t| - 2] == t[|t| - 1];
    } else {
      var g :| n < g < |t| && AllSpace(t[n + 1..g]) && MarkerItems(t[g..]);
      ItemsEndOnADigit(t[g..]);
    }
  }

  /** Retrieved evidence rather than conversation. */
  ghost predicate IsEvidence(m: Message) {
    m.role.ToolResult? && exists i: nat, j: nat :: MarkerListAt(TextOf(m), i, j)
  }

  lemma {:induction false} MarkersAreEvidence(s: string) returns (i: nat, j: nat)
    requires Markers(s) != []
    ensures MarkerListAt(s, i, j)
  {
    var n := MarkerLength(s);
    if n.Some? {
      i, j := 0, n.value - 1;
      var inside := s[1..j];
      assert inside[..|inside|] == inside;
      assert MarkerItems(inside);
    } else {
      i, j := MarkersAreEvidence(s[1..]);
      assert s[1..][i + 1..j] == s[i + 2..j + 1];
      i, j := i + 1, j + 1;
    }
  }

  lemma {:induction false} JoinedMarkersAreItems(xs: seq<string>)
    requires xs != [] && forall x :: x in xs ==> IsMarker(x)
    ensures MarkerItems(Join(xs, ", "))
  {
    var s := Join(xs, ", ");
    var n := |xs[0]|;
    assert s[..n] == xs[0];
    if |xs| == 1 {
      assert n == |s|;
    } else {
      JoinedMarkersAreItems(xs[1..]);
      assert s[n] == ',' && s[n + 1..n + 2] == " " && s[n + 2..] == Join(xs[1..], ", ");
      assert AllSpace(s[n + 1..n + 2]);
    }
  }

  // ---------------------------------------------------------------- which markers a text has

  /** A match cannot run into the next bracket. */
  lemma {:induction false} DigitsStopAtBracket(front: string, behind: string)
    requires behind != "" && behind[0] == '['
    ensures DigitRun(front + behind) == DigitRun(front)
  {
    if front == "" {
      assert front + behind == behind;
    } else {
      assert (front + behind)[0] == front[0] && (front + behind)[1..] == front[1..] + behind;
      DigitsStopAtBracket(front[1..], behind);
    }
  }

  lemma MatchStaysInFront(front: string, behind: string)
    requires front != "" && behind != "" && behind[0] == '['
    ensures MarkerLength(front + behind) == MarkerLength(front)
  {
    var s := front + behind;
    assert s[0] == front[0];
    if |front| == 1 {
      assert s[1] == '[';
    } else {
      assert s[1] == front[1] && s[2..] == front[2..] + behind;
      DigitsStopAtBracket(front[2..], behind);
      var d := DigitRun(front[2..]);
      assert 2 + d < |front| ==> s[2 + d] == front[2 + d];
      assert 2 + d == |front| ==> s[2 + d] == '[';
    }
  }

  lemma {:induction false} MarkersOfBoth(front: string, behind: string)
    requires behind != "" && behind[0] == '['
    ensures Markers(front + behind) == Markers(front) + Markers(behind)
  {
    hide MarkerLength;
    if front == "" {
      assert front + behind == behind && [] + Markers(behind) == Markers(behind);
    } else {
      var s := front + behind;
      MatchStaysInFront(front, behind);
      var n := MarkerLength(front);
      if n.Some? {
        assert s[1..n.value - 1] == front[1..n.value - 1] && s[n.value..] == front[n.value..] + behind;
        MarkersOfBoth(front[n.value..], behind);
      } else {
        assert s[1..] == front[1..] + behind;
        MarkersOfBoth(front[1..], behind);
      }
    }
  }

  /** A marker in its brackets is found wherever it stands, in the order of the text. */
  lemma MarkersInOrder(front: string, x: string, back: string)
    requires IsMarker(x)
    ensures Markers(front + ("[" + x + "]" + back)) == Markers(front) + ([x] + Markers(back))
  {
    hide Markers, MarkerLength;
    var behind := "[" + x + "]" + back;
    assert behind[0] == '[';
    MarkersOfBoth(front, behind);
    MarkerFirst(x, back);
  }

  lemma MarkerFirst(x: string, back: string)
    requires IsMarker(x)
    ensures Markers("[" + x + "]" + back) == [x] + Markers(back)
  {
    var s := "[" + x + "]" + back;
    assert s == "[" + x + ("]" + back);
    MarkerThen(x, "]" + back);
    assert s[1..|x| + 1] == x && s[|x| + 2..] == back;
  }

  /** A text has exactly the markers that stand in it in brackets. */
  lemma {:induction false} MarkersIff(s: string, x: string)
    ensures x in Markers(s) <==> IsMarker(x) && Occurs("[" + x + "]", s)
  {
    if IsMarker(x) && Occurs("[" + x + "]", s) {
      var at: nat :| OccursAt("[" + x + "]", s, at);
      MarkersInOrder(s[..at], x, s[at + |x| + 2..]);
      assert s == s[..at] + ("[" + x + "]" + s[at + |x| + 2..]) by {
        assert s == s[..at] + s[at..at + |x| + 2] + s[at + |x| + 2..];
      }
    }
    if x in Markers(s) { MarkerIsThere(s, x); }
  }

  lemma {:induction false} MarkerIsThere(s: string, x: string)
    requires x in Markers(s)
    ensures IsMarker(x) && Occurs("[" + x + "]", s)
  {
    hide IsMarker, Occurs;
    var n := MarkerLength(s);
    if n.Some? && x == s[1..n.value - 1] {
      assert s == "" + ("[" + x + "]") + s[n.value..];
      OccursInMiddle("", "[" + x + "]", s[n.value..]);
    } else {
      var from := if n.Some? then n.value else 1;
      MarkerIsThere(s[from..], x);
      OccursWithin("[" + x + "]", s[..from], s[from..], "");
      assert s[..from] + s[from..] + "" == s;
    }
  }

  // ---------------------------------------------------------------- reading a stub again

  lemma {:induction false} NoBracketNoMarkers(s: string)
    requires '[' !in s
    ensures Markers(s) == []
  {
    if s != [] { NoBracketNoMarkers(s[1..]); }
  }

  lemma {:induction false} JoinedMarkersHaveNoBracket(xs: seq<string>)
    requires forall x :: x in xs ==> IsMarker(x)
    ensures '[' !in Join(xs, ", ")
  {
    if xs != [] {
      MarkerHasNoBracket(xs[0]);
      if |xs| > 1 {
        JoinedMarkersHaveNoBracket(xs[1..]);
        assert '[' !in ", ";
      }
    }
  }

  lemma MarkerHasNoBracket(x: string)
    requires IsMarker(x)
    ensures '[' !in x
  {
    assert x == [x[0]] + x[1..];
    assert forall c :: c in x[1..] ==> IsDigit(c);
  }

  /** A marker inside its brackets is read; followed by a comma it is not. */
  lemma MarkerThen(x: string, rest: string)
    requires IsMarker(x) && rest != [] && !IsDigit(rest[0])
    ensures MarkerLength("[" + x + rest) == if rest[0] == ']' then Some(|x| + 2) else None
  {
    var s := "[" + x + rest;
    assert s[2..] == x[1..] + rest;
    DigitRunStops(x[1..], rest);
    assert s[1 + |x|] == rest[0];
  }

  lemma MarkersOfOne(x: string, tail: string)
    requires IsMarker(x) && '[' !in tail
    ensures Markers("[" + x + "]" + tail) == [x]
  {
    var s := "[" + x + "]" + tail;
    assert s == "[" + x + ("]" + tail);
    MarkerThen(x, "]" + tail);
    assert s[1..|x| + 1] == x && s[|x| + 2..] == tail;
    NoBracketNoMarkers(tail);
  }

  lemma MarkersOfSeveral(x: string, rest: string)
    requires IsMarker(x) && rest != [] && rest[0] == ',' && '[' !in rest
    ensures Markers("[" + x + rest) == []
  {
    var s := "[" + x + rest;
    MarkerThen(x, rest);
    MarkerHasNoBracket(x);
    assert s[1..] == x + rest;
    NoBracketNoMarkers(x + rest);
  }

  lemma MarkersOfLonger(x: string, more: string, tail: string)
    requires IsMarker(x) && '[' !in more && '[' !in tail
    ensures Markers("[" + (x + ", " + more) + "]" + tail) == []
  {
    hide Markers, IsMarker;
    var rest := ", " + more + "]" + tail;
    assert '[' !in rest by { assert '[' !in ", " && '[' !in "]"; }
    MarkersOfSeveral(x, rest);
    assert "[" + (x + ", " + more) + "]" + tail == "[" + x + rest;
  }

  /** A bracketed list of one marker reads as that marker; a longer list reads as none. */
  lemma MarkersOfList(xs: seq<string>, tail: string)
    requires xs != [] && (forall x :: x in xs ==> IsMarker(x)) && '[' !in tail
    ensures Markers("[" + Join(xs, ", ") + "]" + tail) == if |xs| == 1 then xs else []
  {
    if |xs| == 1 {
      MarkersOfOne(xs[0], tail);
    } else {
      JoinedMarkersHaveNoBracket(xs[1..]);
      MarkersOfLonger(xs[0], Join(xs[1..], ", "), tail);
    }
  }

  lemma MarkersOfStub(xs: seq<string>)
    requires xs != [] && forall x :: x in xs ==> IsMarker(x)
    ensures Markers(Stub(xs)) == if |xs| == 1 then xs else []
  {
    MarkersOfList(xs, STUB_TAIL);
  }

  lemma TextOfCleared(m: Message)
    ensures TextOf(Cleared(m)) == Stub(Distinct(Markers(TextOf(m))))
  {
    var stub := Stub(Distinct(Markers(TextOf(m))));
    assert [TextBlock(stub)][1..] == [];
    assert BlocksText([TextBlock(stub)]) == stub + "";
  }

  /** A cleared message still reads as the evidence it was, and clearing it again is the same message. */
  lemma ClearedReadsBack(m: Message, durable: set<string>, pinned: set<string>)
    requires Clears(m, durable, pinned)
    ensures IsEvidence(m) && IsEvidence(Cleared(m))
    ensures Clears(Cleared(m), durable, pinned) ==> Cleared(Cleared(m)) == Cleared(m)
  {
    var names := Distinct(Markers(TextOf(m)));
    var s := Stub(names);
    TextOfCleared(m);
    assert names[0] in Markers(TextOf(m));
    var i, j := MarkersAreEvidence(TextOf(m));
    JoinedMarkersAreItems(names);
    var k := |Join(names, ", ")| + 1;
    assert s[1..k] == Join(names, ", ");
    assert MarkerListAt(s, 0, k);
    MarkersOfStub(names);
    if |names| == 1 { DistinctOfSingle(names); }
  }

  /**
   * A second pass over a pruned message changes nothing, whichever way its stub is read back, and
   * evidence is still booked as evidence.
   */
  lemma PruneOneIsSettled(m: Message, durable: set<string>, pinned: set<string>)
    ensures var r := PruneOne(m, durable, pinned);
            && PruneOne(r, durable, pinned) == r
            && (IsEvidence(r) <==> IsEvidence(m))
            && r.role == m.role && CallIds(r) == CallIds(m) && ResultId(r) == ResultId(m)
  {
    if Clears(m, durable, pinned) { ClearedReadsBack(m, durable, pinned); }
  }

  lemma DistinctOfSingle(xs: seq<string>)
    requires |xs| == 1
    ensures Distinct(xs) == xs
  {
    assert xs[..0] == [];
  }

  /** Pruning a pruned transcript is the same transcript. */
  lemma PruneIsIdempotent(ms: seq<Message>, durable: seq<string>, pinned: seq<string>)
    ensures Prune(Prune(ms, durable, pinned), durable, pinned) == Prune(ms, durable, pinned)
  {
    forall k | 0 <= k < |ms| {
      PruneOneIsSettled(ms[k], UpperSet(durable), UpperSet(pinned));
    }
  }

  /** Pruning keeps the shape of the request and where each message is booked. */
  lemma PruneKeepsShape(ms: seq<Message>, durable: seq<string>, pinned: seq<string>)
    ensures var r := Prune(ms, durable, pinned);
            && SameCalls(ms, r)
            && forall k :: 0 <= k < |ms| ==> r[k].role == ms[k].role && (IsEvidence(r[k]) <==> IsEvidence(ms[k]))
  {
    forall k | 0 <= k < |ms| {
      PruneOneIsSettled(ms[k], UpperSet(durable), UpperSet(pinned));
    }
  }

  lemma PinnedMeaning(text: string, pinned: seq<string>)
    ensures IsPinned(text, UpperSet(pinned)) <==> exists p :: p in pinned && p != "" && Occurs(Upper(p), Upper(text))
  {
    var pins := UpperSet(pinned);
    if IsPinned(text, pins) {
      var id :| id in pins && id != "" && IndexOf(id, Upper(text)).Some?;
      var p :| p in pinned && Upper(p) == id;
      assert Occurs(Upper(p), Upper(text));
    }
    if p :| p in pinned && p != "" && Occurs(Upper(p), Upper(text)) {
      var id := Upper(p);
      assert id in pins && id != "";
      assert IndexOf(id, Upper(text)).Some?;
    }
  }

  lemma StubNamesAll(text: string, x: string)
    requires x in Markers(text)
    ensures Occurs(x, Stub(Distinct(Markers(text))))
  {
    var names := Distinct(Markers(text));
    var i :| 0 <= i < |names| && names[i] == x;
    JoinKeepsParts(names, ", ", i);
    OccursWithin(x, "[", Join(names, ", "), "]" + STUB_TAIL);
    assert Stub(names) == "[" + Join(names, ", ") + ("]" + STUB_TAIL);
  }

  /** Old enough, wholly covered by markers the notes hold, and naming nothing a person pinned. */
  ghost predicate Reclaimable(ms: seq<Message>, durable: seq<string>, pinned: seq<string>, k: nat)
    requires k < |ms|
  {
    var text := TextOf(ms[k]);
    && k + 6 < |ms| && ms[k].role.ToolResult? && ms[k].content.Blocks? && Markers(text) != []
    && (forall x :: x in Markers(text) ==> exists d :: d in durable && Upper(d) == x)
    && (forall p :: p in pinned && p != "" ==> !Occurs(Upper(p), Upper(text)))
  }

  /**
   * Exactly the reclaimable results lose their text, and what replaces it names every marker it had.
   */
  lemma PruneClearsOnlyTheDurable(ms: seq<Message>, durable: seq<string>, pinned: seq<string>, k: nat)
    requires k < |ms|
    ensures var r := Prune(ms, durable, pinned)[k];
            if Reclaimable(ms, durable, pinned, k)
            then
              && r == ms[k].(content := Blocks([TextBlock("[" + Join(Distinct(Markers(TextOf(ms[k]))), ", ") + "]" + STUB_TAIL)]))
              && forall x :: x in Markers(TextOf(ms[k])) ==> Occurs(x, TextOf(r))
            else r == ms[k]
  {
    hide Clears, Reclaimable, Stub;
    var text := TextOf(ms[k]);
    ReclaimedIff(ms, durable, pinned, k);
    if Reclaimable(ms, durable, pinned, k) {
      TextOfCleared(ms[k]);
      StubIs(Distinct(Markers(text)));
      forall x | x in Markers(text) ensures Occurs(x, Stub(Distinct(Markers(text)))) { StubNamesAll(text, x); }
    }
  }

  lemma StubIs(durable: seq<string>)
    ensures Stub(durable) == "[" + Join(durable, ", ") + "]" + STUB_TAIL
  {
  }

  /** The count of cleared results is of the reclaimable ones. */
  lemma {:induction false} ClearedAreCounted(ms: seq<Message>, durable: seq<string>, pinned: seq<string>, upTo: nat)
    requires upTo <= |ms|
    ensures ClearedCount(ms, durable, pinned, upTo) == |set k | 0 <= k < upTo && Reclaimable(ms, durable, pinned, k)|
  {
    hide Clears, Reclaimable;
    var here := set k | 0 <= k < upTo && Reclaimable(ms, durable, pinned, k);
    if upTo == 0 {
      assert here == {};
    } else {
      ClearedAreCounted(ms, durable, pinned, upTo - 1);
      var before := set k | 0 <= k < upTo - 1 && Reclaimable(ms, durable, pinned, k);
      ReclaimedIff(ms, durable, pinned, upTo - 1);
      assert here == before + (if Reclaimable(ms, durable, pinned, upTo - 1) then {upTo - 1} else {});
      if durable == [] { NothingDurable(ms, pinned); assert before == {}; }
    }
  }

  lemma NothingDurable(ms: seq<Message>, pinned: seq<string>)
    ensures forall k :: 0 <= k < |ms| ==> !Reclaimable(ms, [], pinned, k)
  {
    forall k | 0 <= k < |ms| ensures !Reclaimable(ms, [], pinned, k) {
      var found := Markers(TextOf(ms[k]));
      assert found != [] ==> found[0] in found;
    }
  }

  /** A result is cleared exactly when it is reclaimable. */
  lemma ReclaimedIff(ms: seq<Message>, durable: seq<string>, pinned: seq<string>, k: nat)
    requires k < |ms|
    ensures Reclaimable(ms, durable, pinned, k) <==>
            durable != [] && k < |ms| - KEEPS_RECENT && Clears(ms[k], UpperSet(durable), UpperSet(pinned))
  {
    var text := TextOf(ms[k]);
    var found := Markers(text);
    PinnedMeaning(text, pinned);
    assert found != [] ==> found[0] in Distinct(found) && found[0] in found;
    if Clears(ms[k], UpperSet(durable), UpperSet(pinned)) {
      forall x | x in found ensures exists d :: d in durable && Upper(d) == x {
        assert x in Distinct(found);
        assert x in UpperSet(durable);
      }
      assert Distinct(found)[0] in found;
    }
    if Reclaimable(ms, durable, pinned, k) {
      assert Clears(ms[k], UpperSet(durable), UpperSet(pinned));
    }
  }
}
