/** What a capped text and a capped schema measure once printed: never more under a smaller cap. */
module ToolSizes {
  import opened Text
  import opened Json
  import opened ToolProse

  // ---------------------------------------------------------------- texts

  /** How many characters a text takes inside a printed string. */
  function Width(s: string): nat { |RenderItems(CompactItems(s))| }

  lemma WidthOfFirst(s: string)
    requires s != ""
    ensures Width(s) == |RenderItem(CompactItem(s[0]))| + Width(s[1..]) && |RenderItem(CompactItem(s[0]))| >= 1
  {
    assert ([CompactItem(s[0])] + CompactItems(s[1..]))[1..] == CompactItems(s[1..]);
  }

  lemma {:induction false} WidthOfAppend(a: string, b: string)
    ensures Width(a + b) == Width(a) + Width(b)
  {
    hide Width;
    if a == "" {
      assert a + b == b;
      assert Width("") == 0 by { WidthOfNothing(); }
    } else {
      WidthOfFirst(a);
      WidthOfFirst(a + b);
      assert (a + b)[1..] == a[1..] + b;
      WidthOfAppend(a[1..], b);
    }
  }

  lemma WidthOfNothing()
    ensures Width("") == 0 && Width(ELLIPSIS) == 1
  {
    WidthOfFirst(ELLIPSIS);
    assert ELLIPSIS[1..] == "";
    assert CompactItem(ELLIPSIS[0]) == Plain(ELLIPSIS[0]);
  }

  lemma {:induction false} WidthIsAtLeastLength(s: string)
    ensures Width(s) >= |s|
  {
    hide Width;
    if s != "" {
      WidthOfFirst(s);
      WidthIsAtLeastLength(s[1..]);
    }
  }

  lemma WidthOfSlice(s: string, i: nat, j: nat)
    requires i <= j <= |s|
    ensures Width(s[i..j]) <= Width(s)
  {
    hide Width;
    assert s == s[..i] + s[i..j] + s[j..];
    WidthOfAppend(s[..i] + s[i..j], s[j..]);
    WidthOfAppend(s[..i], s[i..j]);
  }

  lemma CutWidth(t: string, n: nat, marked: bool)
    requires n <= |t|
    ensures Width(Cut(t, n, marked)) == Width(t[..n]) + if marked then 1 else 0
  {
    hide Width;
    WidthOfNothing();
    WidthOfAppend(t[..n], if marked then ELLIPSIS else "");
  }

  lemma ShorterPrefixIsNarrower(t: string, n: nat, m: nat)
    requires n <= m <= |t|
    ensures Width(t[..n]) + (m - n) <= Width(t[..m])
  {
    hide Width;
    assert t[..m] == t[..n] + t[n..m];
    WidthOfAppend(t[..n], t[n..m]);
    WidthIsAtLeastLength(t[n..m]);
  }

  /** What a text takes, uncapped texts being left as they are. */
  function Said(text: string, cap: Cap): string { if cap.None? then text else CapSentences(text, cap) }

  lemma TrimIsNarrower(text: string)
    ensures Width(Trim(text)) <= Width(text) && |Trim(text)| <= |text|
  {
    hide Width;
    var left := TrimStart(text);
    WidthOfSlice(text, |text| - |left|, |text|);
    assert text[|text| - |left|..|text|] == left;
    WidthOfSlice(left, 0, |TrimEnd(left)|);
    assert left[0..|TrimEnd(left)|] == TrimEnd(left);
  }

  /** A smaller cap says no more, printed or not. */
  lemma SmallerCapSaysLess(text: string, c: Cap, d: Cap)
    requires AtMost(c, d)
    ensures |Said(text, c)| <= |Said(text, d)| && Width(Said(text, c)) <= Width(Said(text, d))
  {
    hide Width, CapSentences, Trim, KeptLength, IsMarked, Cut;
    var t := Trim(text);
    CapIsACut(text, c);
    CapIsACut(text, d);
    CapIsMonotone(text, c, d);
    SmallerCapKeepsLess(text, c, d);
    CutWidth(t, KeptLength(t, c), IsMarked(t, c));
    CutWidth(t, KeptLength(t, d), IsMarked(t, d));
    ShorterPrefixIsNarrower(t, KeptLength(t, c), KeptLength(t, d));
    TrimIsNarrower(text);
    assert Width(CapSentences(text, c)) <= Width(CapSentences(text, d));
    if d.None? {
      assert CapSentences(text, d) == t by { UncappedIsTrimmed(text); }
    }
  }

  lemma UncappedIsTrimmed(text: string)
    ensures CapSentences(text, None) == Trim(text)
  {
  }

  // ---------------------------------------------------------------- schemas

  function ItemSize(e: Value): nat { |Stringify(e)| }

  function MemberSize(m: (string, Value)): nat { Width(m.0) + |Stringify(m.1)| + 3 }

  /** Every element, each with one comma. */
  function ItemSizes(es: seq<Value>): nat {
    if es == [] then 0 else ItemSize(es[0]) + 1 + ItemSizes(es[1..])
  }

  function MemberSizes(ms: seq<(string, Value)>): nat {
    if ms == [] then 0 else MemberSize(ms[0]) + 1 + MemberSizes(ms[1..])
  }

  lemma {:induction false} MemberSizesAppend(xs: seq<(string, Value)>, ys: seq<(string, Value)>)
    ensures MemberSizes(xs + ys) == MemberSizes(xs) + MemberSizes(ys)
  {
    hide MemberSize;
    if xs == [] {
      assert xs + ys == ys;
    } else {
      MemberSizesAppend(xs[1..], ys);
      assert (xs + ys)[1..] == xs[1..] + ys;
    }
  }

  lemma {:induction false} PrintedElements(v: Value, from: nat)
    requires v.Arr? && from < |v.elements|
    ensures |RenderElements(CompactElements(v, from))| + 1 == ItemSizes(v.elements[from..])
    decreases |v.elements| - from
  {
    hide Render, Compact;
    assert v.elements[from..][1..] == v.elements[from + 1..];
    if from + 1 < |v.elements| { PrintedElements(v, from + 1); }
  }

  lemma {:induction false} PrintedMembers(v: Value, from: nat)
    requires v.Obj? && from < |v.members|
    ensures |RenderMembers(CompactMembers(v, from))| + 1 == MemberSizes(v.members[from..])
    decreases |v.members| - from
  {
    hide Render, Compact, RenderItems, CompactItems;
    assert v.members[from..][1..] == v.members[from + 1..];
    if from + 1 < |v.members| { PrintedMembers(v, from + 1); }
  }

  lemma PrintedArray(es: seq<Value>)
    ensures |Stringify(Arr(es))| == if es == [] then 2 else 1 + ItemSizes(es)
  {
    hide RenderElements, CompactElements, ItemSizes;
    ElementsWhenEmpty(Arr(es));
    if es != [] {
      PrintedElements(Arr(es), 0);
      assert es[0..] == es;
    }
  }

  lemma PrintedObject(ms: seq<(string, Value)>)
    ensures |Stringify(Obj(ms))| == if ms == [] then 2 else 1 + MemberSizes(ms)
  {
    hide RenderMembers, CompactMembers, MemberSizes;
    MembersWhenEmpty(Obj(ms));
    if ms != [] {
      PrintedMembers(Obj(ms), 0);
      assert ms[0..] == ms;
    }
  }

  lemma PrintedText(s: string)
    ensures |Stringify(Str(s))| == 2 + Width(s)
  {
    hide RenderItems, CompactItems;
  }

  /** What is left of the elements from `from` on. */
  function KeptElements(v: Value, from: nat, cap: Cap): seq<Value>
    requires v.Arr? && from <= |v.elements|
  {
    if cap.None? then v.elements[from..] else CapElements(v, from, cap)
  }

  function KeptMembers(v: Value, from: nat, cap: Cap): seq<(string, Value)>
    requires v.Obj? && from <= |v.members|
  {
    if cap.None? then v.members[from..] else CapMembers(v, from, cap)
  }

  /** What is left of one member. */
  function KeptMember(m: (string, Value), cap: Cap): seq<(string, Value)> {
    if cap.Some? && IsProse(m) then CapMember(m.0, m.1.s, cap) else [(m.0, CapSchema(m.1, cap))]
  }

  lemma FirstKept(v: Value, from: nat, cap: Cap)
    requires v.Obj? && from < |v.members|
    ensures KeptMembers(v, from, cap) == KeptMember(v.members[from], cap) + KeptMembers(v, from + 1, cap)
  {
    hide CapMember, IsProse;
  }

  lemma FirstElement(v: Value, from: nat, cap: Cap)
    requires v.Arr? && from < |v.elements|
    ensures KeptElements(v, from, cap) == [CapSchema(v.elements[from], cap)] + KeptElements(v, from + 1, cap)
  {
    hide CapSchema;
    assert cap.None? ==> CapSchema(v.elements[from], cap) == v.elements[from] by { UncappedSchema(v.elements[from]); }
  }

  lemma UncappedSchema(v: Value)
    ensures CapSchema(v, None) == v
  {
  }

  lemma CappedArray(v: Value, cap: Cap)
    requires v.Arr?
    ensures CapSchema(v, cap) == Arr(KeptElements(v, 0, cap))
  {
  }

  lemma CappedObject(v: Value, cap: Cap)
    requires v.Obj?
    ensures CapSchema(v, cap) == Obj(KeptMembers(v, 0, cap))
  {
  }

  lemma ProseShrinks(m: (string, Value), c: Cap, d: Cap)
    requires AtMost(c, d) && IsProse(m)
    ensures MemberSizes(KeptMember(m, c)) <= MemberSizes(KeptMember(m, d))
  {
    hide Stringify, CapSentences, Width;
    var text := m.1.s;
    SmallerCapSaysLess(text, c, d);
    PrintedText(Said(text, c));
    PrintedText(Said(text, d));
  }

  /** A schema printed under a smaller cap is no longer. */
  lemma {:induction false} SmallerCapPrintsLess(v: Value, c: Cap, d: Cap)
    requires AtMost(c, d)
    ensures |Stringify(CapSchema(v, c))| <= |Stringify(CapSchema(v, d))|
    decreases v, 1
  {
    hide Stringify, ItemSizes, MemberSizes, CapSchema, KeptElements, KeptMembers;
    match v {
      case Arr(elements) =>
        ElementsShrink(v, 0, c, d);
        CappedArray(v, c);
        CappedArray(v, d);
        PrintedArray(KeptElements(v, 0, c));
        PrintedArray(KeptElements(v, 0, d));
      case Obj(members) =>
        MembersShrink(v, 0, c, d);
        CappedObject(v, c);
        CappedObject(v, d);
        PrintedObject(KeptMembers(v, 0, c));
        PrintedObject(KeptMembers(v, 0, d));
        NoneIsNothing(KeptMembers(v, 0, c), KeptMembers(v, 0, d));
      case _ => assert CapSchema(v, c) == v == CapSchema(v, d) by { LeafIsKept(v, c); LeafIsKept(v, d); }
    }
  }

  lemma LeafIsKept(v: Value, cap: Cap)
    requires !v.Arr? && !v.Obj?
    ensures CapSchema(v, cap) == v
  {
  }

  lemma NoneIsNothing(xs: seq<(string, Value)>, ys: seq<(string, Value)>)
    ensures xs != [] ==> MemberSizes(xs) >= 4
    ensures xs == [] ==> MemberSizes(xs) == 0
    ensures ys != [] ==> MemberSizes(ys) >= 4
    ensures ys == [] ==> MemberSizes(ys) == 0
  {
    hide Stringify, Width;
  }

  lemma {:induction false} ElementsShrink(v: Value, from: nat, c: Cap, d: Cap)
    requires v.Arr? && from <= |v.elements| && AtMost(c, d)
    ensures ItemSizes(KeptElements(v, from, c)) <= ItemSizes(KeptElements(v, from, d))
    ensures |KeptElements(v, from, c)| == |KeptElements(v, from, d)|
    decreases v, 0, |v.elements| - from
  {
    if from < |v.elements| {
      hide Stringify, CapSchema, KeptElements;
      SmallerCapPrintsLess(v.elements[from], c, d);
      ElementsShrink(v, from + 1, c, d);
      FirstElement(v, from, c);
      FirstElement(v, from, d);
    }
  }

  lemma {:induction false} MembersShrink(v: Value, from: nat, c: Cap, d: Cap)
    requires v.Obj? && from <= |v.members| && AtMost(c, d)
    ensures MemberSizes(KeptMembers(v, from, c)) <= MemberSizes(KeptMembers(v, from, d))
    decreases v, 0, |v.members| - from
  {
    if from < |v.members| {
      hide Stringify, CapSchema, KeptMembers, IsProse, CapMember, Width;
      var m := v.members[from];
      if IsProse(m) {
        ProseShrinks(m, c, d);
      } else {
        SmallerCapPrintsLess(m.1, c, d);
      }
      MembersShrink(v, from + 1, c, d);
      hide KeptMember, MemberSizes;
      FirstKept(v, from, c);
      FirstKept(v, from, d);
      MemberSizesAppend(KeptMember(m, c), KeptMembers(v, from + 1, c));
      MemberSizesAppend(KeptMember(m, d), KeptMembers(v, from + 1, d));
    }
  }
}
