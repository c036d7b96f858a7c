/** The reader accepts nothing else: whatever parses is a JSON text, and its value is the one that text stands for. */
module JsonSound {
  import opened Text
  import opened Json

  /** `r` is what reading `s` gave, and what was read is a rendering of it. */
  ghost predicate IsRead(s: string, c: Cst, r: Read<Value>) {
    Strict(c) && r.Got? && s == Render(c) + r.rest && ValueOf(c) == r.value
  }

  lemma {:induction false} SpacesSkipped(s: string) returns (spaces: string)
    ensures Spaces(spaces) && s == spaces + SkipSpaces(s)
  {
    if s != "" && IsJsonSpace(s[0]) {
      var more := SpacesSkipped(s[1..]);
      spaces := [s[0]] + more;
      assert s == [s[0]] + s[1..];
    } else {
      spaces := "";
    }
  }

  // ---------------------------------------------------------------- strings

  ghost predicate ItemRead(s: string, i: Item, rest: string) {
    StrictItem(i) && s == RenderItem(i) + rest
  }

  lemma SplitCode(s: string)
    requires |s| >= 6 && s[0] == '\\' && s[1] == 'u'
    ensures s == "\\u" + s[2..6] + s[6..]
  {
    assert s[..2] == "\\u";
    assert s == s[..2] + s[2..6] + s[6..];
  }

  /** One unit of a string that reads, and how the rest is read. */
  lemma FirstItem(s: string) returns (i: Item, rest: string)
    requires ReadString(s).Got? && s != "" && s[0] != '"'
    ensures ItemRead(s, i, rest) && |rest| < |s|
    ensures ReadString(rest).Got? && ReadString(s) == Got([ItemChar(i)] + ReadString(rest).value, ReadString(rest).rest)
  {
    hide CodeOf, Escaped, Pair;
    if s[0] != '\\' {
      i, rest := Plain(s[0]), s[1..];
      assert s == [s[0]] + s[1..];
    } else if s[1] != 'u' {
      i, rest := Escape(s[1]), s[2..];
      assert s == ['\\', s[1]] + s[2..];
    } else if IsCode(s[2..6]) {
      i, rest := Unicode(s[2..6]), s[6..];
      SplitCode(s);
    } else {
      i, rest := UnicodePair(s[2..6], s[8..12]), s[12..];
      SplitCode(s);
      SplitCode(s[6..]);
      assert s[6..][2..6] == s[8..12] && s[6..][6..] == s[12..];
      assert "\\u" + s[2..6] + ("\\u" + s[8..12] + s[12..]) == "\\u" + s[2..6] + "\\u" + s[8..12] + s[12..];
    }
  }

  lemma {:induction false} StringIsItems(s: string) returns (items: seq<Item>)
    requires ReadString(s).Got?
    ensures StrictItems(items) && s == RenderItems(items) + "\"" + ReadString(s).rest && StringOf(items) == ReadString(s).value
    decreases |s|
  {
    hide StrictItem, RenderItem, ItemChar;
    if s[0] == '"' {
      items := [];
      assert s == "\"" + s[1..];
    } else {
      var i, rest := FirstItem(s);
      var more := StringIsItems(rest);
      items := [i] + more;
      assert items[1..] == more;
      assert s == RenderItem(i) + (RenderItems(more) + "\"" + ReadString(rest).rest);
    }
  }

  // ---------------------------------------------------------------- values

  lemma {:induction false} NumbersAreNumeric(s: string)
    ensures forall k :: 0 <= k < NumRun(s) ==> IsNumChar(s[k])
  {
    if s != "" && IsNumChar(s[0]) {
      NumbersAreNumeric(s[1..]);
      assert forall k :: 1 <= k < NumRun(s) ==> s[k] == s[1..][k - 1];
    }
  }

  lemma ScalarIsRendered(s: string) returns (c: Cst)
    requires ReadValue(s).Got? && s[0] != '[' && s[0] != '{'
    ensures IsRead(s, c, ReadValue(s))
  {
    hide ReadElements, ReadMembers, SkipSpaces, NumberShape, ReadString, NumRun, StrictItems, RenderItems;
    if s[0] == '"' {
      var items := StringIsItems(s[1..]);
      c := CStr(items);
      assert s == "\"" + s[1..];
      assert "\"" + (RenderItems(items) + "\"" + ReadString(s[1..]).rest) == Quoted(items) + ReadString(s[1..]).rest;
    } else if StartsWith(s, "null") {
      c := CNull;
      assert s == s[..4] + s[4..];
    } else if StartsWith(s, "true") {
      c := CTrue;
      assert s == s[..4] + s[4..];
    } else if StartsWith(s, "false") {
      c := CFalse;
      assert s == s[..5] + s[5..];
    } else {
      NumbersAreNumeric(s);
      c := CNum(s[..NumRun(s)]);
      assert s == s[..NumRun(s)] + s[NumRun(s)..];
    }
  }

  lemma {:induction false} ValueIsRendered(s: string) returns (c: Cst)
    requires ReadValue(s).Got?
    ensures IsRead(s, c, ReadValue(s))
    decreases |s|, 1
  {
    if s[0] == '[' {
      c := ArrayIsRendered(s);
    } else if s[0] == '{' {
      c := ObjectIsRendered(s);
    } else {
      c := ScalarIsRendered(s);
    }
  }

  lemma {:induction false} ArrayIsRendered(s: string) returns (c: Cst)
    requires ReadValue(s).Got? && s[0] == '['
    ensures IsRead(s, c, ReadValue(s))
    decreases |s|, 0
  {
    hide ReadElements, SkipSpaces, Spaces, StrictElements, RenderElements, ElementsOf;
    OpenArray(s);
    var inner := SkipSpaces(s[1..]);
    if inner != "" && inner[0] == ']' {
      var spaces := SpacesSkipped(s[1..]);
      c := CArr(spaces, NoElements);
      assert ElementsOf(NoElements) == [] && StrictElements(NoElements) by { NoneIsNone(); }
      assert s == "[" + (spaces + inner) && inner == "]" + inner[1..];
      assert "[" + (spaces + ("]" + inner[1..])) == "[" + spaces + "]" + inner[1..];
    } else {
      var es := ElementsAreRendered(s[1..]);
      c := CArr("", es);
      assert Spaces("") by { NoSpaces(); }
      assert s == "[" + s[1..];
      assert "[" + (RenderElements(es) + "]" + ReadElements(s[1..]).rest) == "[" + RenderElements(es) + "]" + ReadElements(s[1..]).rest;
    }
  }

  lemma NoneIsNone()
    ensures StrictElements(NoElements) && ElementsOf(NoElements) == [] && StrictMembers(NoMembers) && MembersOf(NoMembers) == []
  {
  }

  lemma NoSpaces()
    ensures Spaces("")
  {
  }

  lemma {:induction false} ObjectIsRendered(s: string) returns (c: Cst)
    requires ReadValue(s).Got? && s[0] == '{'
    ensures IsRead(s, c, ReadValue(s))
    decreases |s|, 0
  {
    hide ReadMembers, SkipSpaces, Spaces, StrictMembers, RenderMembers, MembersOf;
    OpenObject(s);
    var inner := SkipSpaces(s[1..]);
    if inner != "" && inner[0] == '}' {
      var spaces := SpacesSkipped(s[1..]);
      c := CObj(spaces, NoMembers);
      assert MembersOf(NoMembers) == [] && StrictMembers(NoMembers) by { NoneIsNone(); }
      assert s == "{" + (spaces + inner) && inner == "}" + inner[1..];
      assert "{" + (spaces + ("}" + inner[1..])) == "{" + spaces + "}" + inner[1..];
    } else {
      var ms := MembersAreRendered(s[1..]);
      c := CObj("", ms);
      assert Spaces("") by { NoSpaces(); }
      assert s == "{" + s[1..];
      assert "{" + (RenderMembers(ms) + "}" + ReadMembers(s[1..]).rest) == "{" + RenderMembers(ms) + "}" + ReadMembers(s[1..]).rest;
    }
  }

  // ---------------------------------------------------------------- lists

  /** How a list that reads is read: one value, and then its end or the rest of it. */
  lemma OpenElements(s: string)
    requires ReadElements(s).Got?
    ensures var v := ReadValue(SkipSpaces(s));
            && v.Got?
            && var next := SkipSpaces(v.rest);
               && next != "" && (next[0] == ']' || next[0] == ',')
               && (next[0] == ']' ==> ReadElements(s) == Got([v.value], next[1..]))
               && (next[0] == ',' ==> ReadElements(next[1..]).Got? && |next[1..]| < |s|)
               && (next[0] == ',' ==> ReadElements(s) == Got([v.value] + ReadElements(next[1..]).value, ReadElements(next[1..]).rest))
  {
    hide ReadValue, SkipSpaces;
  }

  lemma {:induction false} ElementsAreRendered(s: string) returns (es: Elements)
    requires ReadElements(s).Got?
    ensures StrictElements(es) && es.Element? && ElementsOf(es) == ReadElements(s).value
    ensures s == RenderElements(es) + "]" + ReadElements(s).rest
    decreases |s|, 2
  {
    hide ReadValue, ReadElements, SkipSpaces, Spaces, Strict, ValueOf, Render;
    OpenElements(s);
    var open := SkipSpaces(s);
    var v := ReadValue(open);
    var next := SkipSpaces(v.rest);
    var before := SpacesSkipped(s);
    var after := SpacesSkipped(v.rest);
    var c := ValueIsRendered(open);
    assert next == [next[0]] + next[1..];
    if next[0] == ']' {
      es := Element(before, c, after, NoElements);
      LastElement(before, Render(c), after, next[1..]);
      assert ElementsOf(NoElements) == [];
    } else {
      var more := ElementsAreRendered(next[1..]);
      es := Element(before, c, after, more);
      FirstElement(before, Render(c), after, RenderElements(more), ReadElements(next[1..]).rest);
    }
  }

  lemma LastElement(before: string, v: string, after: string, rest: string)
    ensures before + (v + (after + ("]" + rest))) == before + v + after + "" + "]" + rest
  {
    assert before + (v + (after + ("]" + rest))) == before + v + after + ("]" + rest);
    assert before + v + after + "" == before + v + after;
  }

  lemma FirstElement(before: string, v: string, after: string, more: string, rest: string)
    ensures before + (v + (after + ("," + (more + "]" + rest)))) == before + v + after + ("," + more) + "]" + rest
  {
    assert before + (v + (after + ("," + (more + "]" + rest)))) == before + v + after + ("," + (more + "]" + rest));
    assert "," + (more + "]" + rest) == "," + more + "]" + rest;
  }

  // ---------------------------------------------------------------- members

  lemma OpenMembers(s: string)
    requires ReadMembers(s).Got?
    ensures var open := SkipSpaces(s);
            && open != "" && open[0] == '"' && ReadString(open[1..]).Got?
            && var key := ReadString(open[1..]);
               var colon := SkipSpaces(key.rest);
               && colon != "" && colon[0] == ':'
               && var v := ReadValue(SkipSpaces(colon[1..]));
                  && v.Got? && |SkipSpaces(colon[1..])| < |s|
                  && var next := SkipSpaces(v.rest);
                     && next != "" && (next[0] == '}' || next[0] == ',')
                     && (next[0] == '}' ==> ReadMembers(s) == Got([(key.value, v.value)], next[1..]))
                     && (next[0] == ',' ==> ReadMembers(next[1..]).Got? && |next[1..]| < |s|)
                     && (next[0] == ',' ==>
                          ReadMembers(s) == Got([(key.value, v.value)] + ReadMembers(next[1..]).value, ReadMembers(next[1..]).rest))
  {
    hide ReadValue, SkipSpaces, ReadString;
  }

  /** The rest of a member list behind a value: its end, or a comma and more members. */
  lemma RestOfMembers(next: string, members: seq<(string, Value)>, first: (string, Value)) returns (more: Members, rest: string)
    requires next != "" && (next[0] == '}' || (next[0] == ',' && ReadMembers(next[1..]).Got?))
    requires members == [first] + (if next[0] == '}' then [] else ReadMembers(next[1..]).value)
    ensures StrictMembers(more) && members == [first] + MembersOf(more)
    ensures next == (if more.NoMembers? then "" else "," + RenderMembers(more)) + "}" + rest
    ensures rest == if next[0] == '}' then next[1..] else ReadMembers(next[1..]).rest
    decreases |next|, 0
  {
    hide ReadMembers, RenderMembers, StrictMembers, MembersOf;
    NoneIsNone();
    assert next == [next[0]] + next[1..];
    if next[0] == '}' {
      more, rest := NoMembers, next[1..];
      assert "" + "}" + rest == next;
    } else {
      more := MembersAreRendered(next[1..]);
      rest := ReadMembers(next[1..]).rest;
      assert "," + (RenderMembers(more) + "}" + rest) == "," + RenderMembers(more) + "}" + rest;
    }
  }

  lemma {:induction false} MembersAreRendered(s: string) returns (ms: Members)
    requires ReadMembers(s).Got?
    ensures StrictMembers(ms) && ms.Member? && MembersOf(ms) == ReadMembers(s).value
    ensures s == RenderMembers(ms) + "}" + ReadMembers(s).rest
    decreases |s|, 2
  {
    hide ReadValue, ReadMembers, SkipSpaces, Spaces, Strict, ValueOf, Render, ReadString, StrictItems, StringOf, RenderItems;
    hide RenderMembers, StrictMembers, MembersOf;
    OpenMembers(s);
    var open := SkipSpaces(s);
    var key := ReadString(open[1..]);
    var colon := SkipSpaces(key.rest);
    var valued := SkipSpaces(colon[1..]);
    var v := ReadValue(valued);
    var next := SkipSpaces(v.rest);
    var before := SpacesSkipped(s);
    var items := StringIsItems(open[1..]);
    var colonBefore := SpacesSkipped(key.rest);
    var colonAfter := SpacesSkipped(colon[1..]);
    var c := ValueIsRendered(valued);
    var after := SpacesSkipped(v.rest);
    NextIsShorter(s, next);
    var more, rest := RestOfMembers(next, ReadMembers(s).value, (key.value, v.value));
    ms := Member(before, items, colonBefore, colonAfter, c, after, more);
    Assembled(s, before, open, RenderItems(items), key.rest, colonBefore, colon, colonAfter, valued, Render(c), v.rest, after, next,
              if more.NoMembers? then "" else "," + RenderMembers(more), rest);
    MemberParts(ms);
  }

  lemma NextIsShorter(s: string, next: string)
    requires ReadMembers(s).Got?
    requires next == SkipSpaces(ReadValue(SkipSpaces(SkipSpaces(ReadString(SkipSpaces(s)[1..]).rest)[1..])).rest)
    requires SkipSpaces(s) != "" && ReadString(SkipSpaces(s)[1..]).Got? && SkipSpaces(ReadString(SkipSpaces(s)[1..]).rest) != ""
    requires ReadValue(SkipSpaces(SkipSpaces(ReadString(SkipSpaces(s)[1..]).rest)[1..])).Got?
    ensures |next| < |s|
  {
    hide ReadValue, SkipSpaces, ReadString, ReadMembers;
  }

  lemma Assembled(
    s: string, before: string, open: string, key: string, keyRest: string, colonBefore: string, colon: string, colonAfter: string,
    valued: string, v: string, valueRest: string, after: string, next: string, more: string, rest: string)
    requires s == before + open && open != "" && open[0] == '"' && open[1..] == key + "\"" + keyRest
    requires keyRest == colonBefore + colon && colon != "" && colon[0] == ':' && colon[1..] == colonAfter + valued
    requires valued == v + valueRest && valueRest == after + next && next == more + "}" + rest
    ensures s == before + ("\"" + key + "\"") + colonBefore + ":" + colonAfter + v + after + more + "}" + rest
  {
    assert open == "\"" + open[1..] && colon == ":" + colon[1..];
    MemberRendered(before, key, colonBefore, colonAfter, v, after, more, rest);
  }

  lemma MemberRendered(before: string, key: string, colonBefore: string, colonAfter: string, v: string, after: string, more: string, rest: string)
    ensures before + ("\"" + (key + "\"" + (colonBefore + (":" + (colonAfter + (v + (after + (more + "}" + rest)))))))) ==
            before + ("\"" + key + "\"") + colonBefore + ":" + colonAfter + v + after + more + "}" + rest
  {
    var behind := colonBefore + (":" + (colonAfter + (v + (after + (more + "}" + rest)))));
    assert "\"" + (key + "\"" + behind) == "\"" + key + "\"" + behind;
    Regroup(before, "\"" + key + "\"", colonBefore, colonAfter, v, after, more, rest);
  }

  lemma MemberParts(ms: Members)
    requires ms.Member?
    ensures StrictMembers(ms) <==>
            && Spaces(ms.before) && StrictItems(ms.key) && Spaces(ms.colonBefore) && Spaces(ms.colonAfter) && Strict(ms.value)
            && Spaces(ms.after) && StrictMembers(ms.more)
    ensures StrictMembers(ms) ==> MembersOf(ms) == [(StringOf(ms.key), ValueOf(ms.value))] + MembersOf(ms.more)
    ensures RenderMembers(ms) ==
            ms.before + ("\"" + RenderItems(ms.key) + "\"") + ms.colonBefore + ":" + ms.colonAfter + Render(ms.value) + ms.after
            + if ms.more.NoMembers? then "" else "," + RenderMembers(ms.more)
  {
    hide Render, RenderItems, Spaces, Strict, StrictItems, StringOf, ValueOf;
  }

  /** Exactly the JSON texts parse, white space around them or not, each to the value it stands for. */
  lemma ParseIff(text: string, v: Value)
    ensures Parse(text) == Some(v) <==>
            exists before, c, after :: Spaces(before) && Strict(c) && Spaces(after) && text == before + Render(c) + after && ValueOf(c) == v
  {
    hide ReadValue, SkipSpaces, Spaces, Strict, ValueOf, Render;
    if Parse(text) == Some(v) {
      var open := SkipSpaces(text);
      var before := SpacesSkipped(text);
      var c := ValueIsRendered(open);
      var after := SpacesSkipped(ReadValue(open).rest);
      assert after + "" == after;
      assert text == before + Render(c) + after;
    }
    forall before, c, after | Spaces(before) && Strict(c) && Spaces(after) && text == before + Render(c) + after && ValueOf(c) == v
      ensures Parse(text) == Some(v)
    {
      ParseOfRender(before, c, after);
    }
  }
}
