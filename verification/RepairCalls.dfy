/** The lenient reader on every text, and the loop on messages made of calls. */
module RepairCalls {
  import opened Text
  import opened Json
  import opened Repair
  import opened RepairProofs

  // ---------------------------------------------------------------- what parses is left alone

  /** `s` is `x` and then `rest`, and the rewrite leaves `x` as it is. */
  ghost predicate KeptAs(s: string, x: string, rest: string) {
    s == x + rest && Rewrite(s, false, false) == x + Rewrite(rest, false, false)
  }

  ghost predicate Kept(s: string, rest: string) {
    exists x :: KeptAs(s, x, rest)
  }

  lemma KeptThrough(s: string, t: string, u: string)
    requires Kept(s, t) && Kept(t, u)
    ensures Kept(s, u)
  {
    hide Rewrite;
    var x :| KeptAs(s, x, t);
    var y :| KeptAs(t, y, u);
    Associative(x, y, u);
    Associative(x, y, Rewrite(u, false, false));
    assert KeptAs(s, x + y, u);
  }

  lemma KeptNow(s: string)
    ensures Kept(s, s)
  {
    hide Rewrite;
    assert "" + s == s && "" + Rewrite(s, false, false) == Rewrite(s, false, false);
    assert KeptAs(s, "", s);
  }

  lemma KeptByOne(s: string)
    requires s != "" && s[0] != '"'
    ensures Kept(s, s[1..])
  {
    assert s == [s[0]] + s[1..];
    assert KeptAs(s, [s[0]], s[1..]);
  }

  lemma {:induction false} KeptBySpaces(s: string)
    ensures Kept(s, SkipSpaces(s))
  {
    hide Kept;
    if s != "" && IsJsonSpace(s[0]) {
      KeptByOne(s);
      KeptBySpaces(s[1..]);
      KeptThrough(s, s[1..], SkipSpaces(s[1..]));
    } else {
      KeptNow(s);
    }
  }

  lemma {:induction false} KeptByMany(s: string, n: nat)
    requires n <= |s| && forall k :: 0 <= k < n ==> s[k] != '"'
    ensures Kept(s, s[n..])
  {
    hide Kept;
    if n == 0 {
      assert s[0..] == s;
      KeptNow(s);
    } else {
      KeptByOne(s);
      KeptByMany(s[1..], n - 1);
      assert s[1..][n - 1..] == s[n..];
      KeptThrough(s, s[1..], s[n..]);
    }
  }

  lemma {:induction false} NumRunIsNumeric(s: string)
    ensures forall k :: 0 <= k < NumRun(s) ==> IsNumChar(s[k])
  {
    if s != "" && IsNumChar(s[0]) {
      NumRunIsNumeric(s[1..]);
      assert forall k :: 1 <= k < NumRun(s) ==> s[k] == s[1..][k - 1];
    }
  }

  /** Inside a string that reads, every step keeps what it reads. */
  ghost predicate KeptInsideAs(s: string, x: string, rest: string) {
    s == x + rest && Rewrite(s, true, false) == x + Rewrite(rest, false, false)
  }

  lemma InsideStep(s: string, x: string, t: string, y: string, rest: string)
    requires s == x + t && Rewrite(s, true, false) == x + Rewrite(t, true, false) && KeptInsideAs(t, y, rest)
    ensures KeptInsideAs(s, x + y, rest)
  {
    hide Rewrite;
    Associative(x, y, rest);
    Associative(x, y, Rewrite(rest, false, false));
  }

  lemma {:induction false} ReadStringKeeps(s: string) returns (x: string)
    requires ReadString(s).Got?
    ensures KeptInsideAs(s, x, ReadString(s).rest)
    decreases |s|
  {
    hide KeptInsideAs, Rewrite;
    var rest := ReadString(s).rest;
    if s[0] == '"' {
      x := "\"";
      CloseIsKept(s);
    } else if s[0] == '\\' {
      var n := if s[1] != 'u' then 2 else if IsCode(s[2..6]) then 6 else 12;
      var y := ReadStringKeeps(s[n..]);
      x := s[..n] + y;
      if n == 12 { PairIsKept(s); } else { EscapeIsKept(s, n); }
      InsideStep(s, s[..n], s[n..], y, rest);
    } else {
      var y := ReadStringKeeps(s[1..]);
      x := [s[0]] + y;
      PlainIsKept(s);
      InsideStep(s, [s[0]], s[1..], y, rest);
    }
  }

  lemma CloseIsKept(s: string)
    requires s != "" && s[0] == '"'
    ensures KeptInsideAs(s, "\"", s[1..])
  {
    assert s == "\"" + s[1..];
  }

  lemma PlainIsKept(s: string)
    requires s != "" && IsPlain(s[0])
    ensures s == [s[0]] + s[1..] && Rewrite(s, true, false) == [s[0]] + Rewrite(s[1..], true, false)
  {
  }

  lemma EscapeIsKept(s: string, n: nat)
    requires 2 <= n <= |s| && s[0] == '\\'
    requires forall k :: 2 <= k < n ==> s[k] != '"' && s[k] != '\\' && s[k] >= ' '
    ensures s == s[..n] + s[n..] && Rewrite(s, true, false) == s[..n] + Rewrite(s[n..], true, false)
  {
    hide Rewrite;
    var x, y, z := ['\\', s[1]], s[2..n], s[n..];
    InsideEscape(s[1], s[2..], 1);
    InsidePlain(y, z, 1);
    SplitEscape(s, n);
    Associative(x, y, Rewrite(z, true, false));
  }

  lemma PairIsKept(s: string)
    requires PairAhead(s) && s[0] == '\\'
    ensures s == s[..12] + s[12..] && Rewrite(s, true, false) == s[..12] + Rewrite(s[12..], true, false)
  {
    hide Rewrite, PairAhead;
    HalvesAreDigits(s);
    SixAndSix(s);
    EscapeIsKept(s, 6);
    EscapeIsKept(s[6..], 6);
    Associative(s[..6], s[6..12], Rewrite(s[12..], true, false));
  }

  lemma SixAndSix(s: string)
    requires |s| >= 12
    ensures s[6..][..6] == s[6..12] && s[6..][6..] == s[12..] && s[..12] == s[..6] + s[6..12] && s == s[..12] + s[12..]
  {
  }

  lemma HalvesAreDigits(s: string)
    requires PairAhead(s)
    ensures |s| >= 12 && s[6] == '\\'
    ensures forall k :: 2 <= k < 6 ==> IsHex(s[k]) && IsHex(s[6..][k])
  {
    hide CodeOf;
    var high, low := s[2..6], s[8..12];
    assert s[2] == high[0] && s[3] == high[1] && s[4] == high[2] && s[5] == high[3];
    assert s[8] == low[0] && s[9] == low[1] && s[10] == low[2] && s[11] == low[3];
  }

  lemma SplitEscape(s: string, n: nat)
    requires 2 <= n <= |s| && s[0] == '\\'
    ensures s == ['\\', s[1]] + s[2..] && s[2..] == s[2..n] + s[n..] && s[..n] == ['\\', s[1]] + s[2..n]
  {
  }

  lemma KeptByString(s: string)
    requires s != "" && s[0] == '"' && ReadString(s[1..]).Got?
    ensures Kept(s, ReadString(s[1..]).rest)
  {
    var rest := ReadString(s[1..]).rest;
    var x := ReadStringKeeps(s[1..]);
    assert s == "\"" + s[1..];
    assert Rewrite(s, false, false) == "\"" + Rewrite(s[1..], true, false);
    hide Rewrite;
    Associative("\"", x, rest);
    Associative("\"", x, Rewrite(rest, false, false));
    assert KeptAs(s, "\"" + x, rest);
  }

  lemma {:induction false} KeptByValue(s: string)
    requires ReadValue(s).Got?
    ensures Kept(s, ReadValue(s).rest)
    decreases |s|, 0
  {
    hide Kept, SkipSpaces, ReadString, NumRun, NumberShape;
    if s[0] == '"' {
      KeptByString(s);
    } else if s[0] == '[' {
      OpenArray(s);
      KeptByOne(s);
      var inner := SkipSpaces(s[1..]);
      if inner != "" && inner[0] == ']' {
        KeptBySpaces(s[1..]);
        KeptByOne(inner);
        KeptThrough(s, s[1..], inner);
        KeptThrough(s, inner, inner[1..]);
      } else {
        KeptByElements(s[1..]);
        KeptThrough(s, s[1..], ReadElements(s[1..]).rest);
      }
    } else if s[0] == '{' {
      OpenObject(s);
      KeptByOne(s);
      var inner := SkipSpaces(s[1..]);
      if inner != "" && inner[0] == '}' {
        KeptBySpaces(s[1..]);
        KeptByOne(inner);
        KeptThrough(s, s[1..], inner);
        KeptThrough(s, inner, inner[1..]);
      } else {
        KeptByMembers(s[1..]);
        KeptThrough(s, s[1..], ReadMembers(s[1..]).rest);
      }
    } else {
      KeptByScalar(s);
    }
  }

  lemma KeptByScalar(s: string)
    requires ReadValue(s).Got? && s[0] != '"' && s[0] != '[' && s[0] != '{'
    ensures Kept(s, ReadValue(s).rest)
  {
    hide Kept, SkipSpaces, ReadString, NumberShape, ReadElements, ReadMembers, NumRun;
    if StartsWith(s, "null") {
      WordHasNoQuote(s, "null");
      KeptByMany(s, 4);
    } else if StartsWith(s, "true") {
      WordHasNoQuote(s, "true");
      KeptByMany(s, 4);
    } else if StartsWith(s, "false") {
      WordHasNoQuote(s, "false");
      KeptByMany(s, 5);
    } else {
      NumRunIsNumeric(s);
      KeptByMany(s, NumRun(s));
    }
  }

  lemma WordHasNoQuote(s: string, word: string)
    requires StartsWith(s, word) && '"' !in word
    ensures forall k :: 0 <= k < |word| ==> s[k] != '"'
  {
    assert forall k :: 0 <= k < |word| ==> s[k] == s[..|word|][k] && word[k] in word;
  }

  lemma {:induction false} KeptByElements(s: string)
    requires ReadElements(s).Got?
    ensures Kept(s, ReadElements(s).rest)
    decreases |s|, 1
  {
    hide Kept, SkipSpaces, ReadValue;
    var open := SkipSpaces(s);
    var v := ReadValue(open);
    var next := SkipSpaces(v.rest);
    KeptBySpaces(s);
    KeptByValue(open);
    KeptBySpaces(v.rest);
    KeptThrough(s, open, v.rest);
    KeptThrough(s, v.rest, next);
    KeptByOne(next);
    KeptThrough(s, next, next[1..]);
    if next[0] == ',' {
      KeptByElements(next[1..]);
      KeptThrough(s, next[1..], ReadElements(next[1..]).rest);
    }
  }

  lemma {:induction false} KeptByMembers(s: string)
    requires ReadMembers(s).Got?
    ensures Kept(s, ReadMembers(s).rest)
    decreases |s|, 1
  {
    hide Kept, SkipSpaces, ReadValue, ReadString;
    var open := SkipSpaces(s);
    var key := ReadString(open[1..]);
    var colon := SkipSpaces(key.rest);
    var valued := SkipSpaces(colon[1..]);
    var v := ReadValue(valued);
    var next := SkipSpaces(v.rest);
    KeptBySpaces(s);
    KeptByString(open);
    KeptThrough(s, open, key.rest);
    KeptBySpaces(key.rest);
    KeptThrough(s, key.rest, colon);
    KeptByOne(colon);
    KeptThrough(s, colon, colon[1..]);
    KeptBySpaces(colon[1..]);
    KeptThrough(s, colon[1..], valued);
    KeptByValue(valued);
    KeptThrough(s, valued, v.rest);
    KeptBySpaces(v.rest);
    KeptThrough(s, v.rest, next);
    KeptByOne(next);
    KeptThrough(s, next, next[1..]);
    if next[0] == ',' {
      KeptByMembers(next[1..]);
      KeptThrough(s, next[1..], ReadMembers(next[1..]).rest);
    }
  }

  /** The rewrite changes nothing that already parses, so trying the text as it is first decides nothing. */
  lemma LenientIsRewriteThenParse(text: string)
    ensures ParseLenient(text) == Parse(Rewrite(text, false, false))
    ensures Parse(text).Some? ==> Rewrite(text, false, false) == text
  {
    hide Kept, SkipSpaces, ReadValue, Rewrite;
    if Parse(text).Some? {
      var open := SkipSpaces(text);
      var rest := ReadValue(open).rest;
      KeptBySpaces(text);
      KeptByValue(open);
      KeptThrough(text, open, rest);
      KeptBySpaces(rest);
      KeptThrough(text, rest, "");
      KeptToTheEnd(text);
    }
  }

  lemma KeptToTheEnd(text: string)
    requires Kept(text, "")
    ensures Rewrite(text, false, false) == text
  {
    var x :| KeptAs(text, x, "");
    assert x + "" == x;
  }

  /** Loosely written JSON reads as the value it was meant to be. */
  lemma LenientReadsLoose(before: string, c: Cst, after: string)
    requires Spaces(before) && Strict(Tighten(c)) && Spaces(after)
    ensures ParseLenient(before + Render(c) + after) == Some(ValueOf(Tighten(c)))
  {
    StrictIsLexical(Tighten(c));
    LenientIsRewriteThenParse(before + Render(c) + after);
    RewriteTightens(before, c, after);
    ParseOfRender(before, Tighten(c), after);
  }

  // ---------------------------------------------------------------- what is a call

  /** The last member of that name, which is the one a parser that overwrites leaves. */
  ghost predicate Last(members: seq<(string, Value)>, name: string, v: Value) {
    exists k :: 0 <= k < |members| && members[k] == (name, v) && forall j :: k < j < |members| ==> members[j].0 != name
  }

  ghost predicate Lacks(members: seq<(string, Value)>, name: string) {
    forall k :: 0 <= k < |members| ==> members[k].0 != name
  }

  lemma {:induction false} PropertyIsTheLast(members: seq<(string, Value)>, name: string)
    ensures Property(members, name).None? <==> Lacks(members, name)
    ensures forall v :: Property(members, name) == Some(v) <==> Last(members, name, v)
  {
    if members != [] {
      var n := |members| - 1;
      PropertyIsTheLast(members[..n], name);
      if members[n].0 == name {
        assert Last(members, name, members[n].1);
      } else {
        forall v ensures Last(members, name, v) <==> Last(members[..n], name, v) { LastOfMore(members, name, v); }
        assert Lacks(members[..n], name) ==> Lacks(members, name);
        assert Lacks(members, name) ==> Lacks(members[..n], name);
      }
    }
  }

  lemma LastOfMore(members: seq<(string, Value)>, name: string, v: Value)
    requires members != [] && members[|members| - 1].0 != name
    ensures Last(members, name, v) <==> Last(members[..|members| - 1], name, v)
  {
    var n := |members| - 1;
    if Last(members, name, v) {
      var k :| 0 <= k < |members| && members[k] == (name, v) && forall j :: k < j < |members| ==> members[j].0 != name;
      assert members[..n][k] == (name, v);
    }
    if Last(members[..n], name, v) {
      var k :| 0 <= k < n && members[..n][k] == (name, v) && forall j :: k < j < n ==> members[..n][j].0 != name;
      assert forall j :: k < j < |members| ==> members[j].0 != name by { assert forall j :: k < j < n ==> members[j].0 == members[..n][j].0; }
    }
  }

  /** The arguments as written: `arguments`, or `parameters` where those are missing or null. */
  ghost predicate WritesArguments(members: seq<(string, Value)>, raw: Value) {
    || (Last(members, "arguments", raw) && !raw.Null?)
    || ((Lacks(members, "arguments") || Last(members, "arguments", Null)) && Last(members, "parameters", raw))
  }

  /** The arguments as meant: an object, or a string that reads as one. */
  ghost predicate MeansArguments(raw: Value, args: Value) {
    args.Obj? && (raw == args || (raw.Str? && ParseLenient(raw.s) == Some(args)))
  }

  /** A value is a call exactly when it is an object with a name the run has and arguments that are an object, in either spelling. */
  lemma CallReadsIff(v: Value, allowed: seq<string>, call: ToolCall)
    ensures AsToolCall(Some(v), allowed) == Some(call) <==>
            && v.Obj? && call.name != ""
            && (exists name :: Last(v.members, "name", Str(name)) && ResolveToolName(name, allowed) == Some(call.name))
            && exists raw :: WritesArguments(v.members, raw) && MeansArguments(raw, call.arguments)
    ensures AsToolCall(None, allowed) == None
  {
    hide ParseLenient, ResolveToolName, Last, Lacks, Property;
    if v.Obj? {
      var ms := v.members;
      PropertyIsTheLast(ms, "name");
      PropertyIsTheLast(ms, "arguments");
      PropertyIsTheLast(ms, "parameters");
      RawIsWritten(ms);
      if AsToolCall(Some(v), allowed) == Some(call) {
        var name, raw := Property(ms, "name").value.s, RawArguments(ms).value;
        assert Last(ms, "name", Str(name)) && ResolveToolName(name, allowed) == Some(call.name);
        assert WritesArguments(ms, raw) && MeansArguments(raw, call.arguments);
      }
    }
  }

  lemma RawIsWritten(members: seq<(string, Value)>)
    ensures forall raw :: RawArguments(members) == Some(raw) <==> WritesArguments(members, raw)
  {
    hide Last, Lacks, Property;
    PropertyIsTheLast(members, "arguments");
    PropertyIsTheLast(members, "parameters");
  }

  // ---------------------------------------------------------------- names

  /** Two characters a name may differ in: case, or a dot for an underscore. */
  predicate SameLetter(c: char, d: char) {
    || c == d || (c == '.' && d == '_') || (c == '_' && d == '.')
    || ('A' <= c <= 'Z' && d as int == c as int + 32) || ('A' <= d <= 'Z' && c as int == d as int + 32)
  }

  /** Names are alike exactly when they differ in nothing else. */
  lemma AlikeIff(a: string, b: string)
    ensures Flat(a) == Flat(b) <==> |a| == |b| && forall k :: 0 <= k < |a| ==> SameLetter(a[k], b[k])
  {
    if |a| == |b| {
      assert forall k :: 0 <= k < |a| ==> Flat(a)[k] == FlatChar(a[k]) && Flat(b)[k] == FlatChar(b[k]);
      forall k | 0 <= k < |a| ensures FlatChar(a[k]) == FlatChar(b[k]) <==> SameLetter(a[k], b[k]) {
        LetterIff(a[k], b[k]);
      }
    }
  }

  lemma LetterIff(c: char, d: char)
    ensures FlatChar(c) == FlatChar(d) <==> SameLetter(c, d)
  {
  }

  /** A name stands for itself where the run has it, and else for a tool nothing but dots and case tell it from, if there is just one. */
  lemma ResolvesIff(raw: string, allowed: seq<string>, name: string)
    requires forall i, j :: 0 <= i < j < |allowed| ==> allowed[i] != allowed[j]
    ensures ResolveToolName(raw, allowed) == Some(name) <==>
            name in allowed &&
            (name == raw || (raw !in allowed && Flat(name) == Flat(raw) && forall n :: n in allowed && Flat(n) == Flat(raw) ==> n == name))
  {
    hide Flat;
    var r := Alike(raw, allowed);
    if |r| >= 2 { AlikeIsDistinct(raw, allowed, 0, 1); }
    assert forall j :: 0 <= j < |r| ==> r[j] in r;
    if raw !in allowed && name in allowed && Flat(name) == Flat(raw) && forall n :: n in allowed && Flat(n) == Flat(raw) ==> n == name {
      assert name in r;
      assert forall j :: 0 <= j < |r| ==> r[j] == name;
    }
    if raw !in allowed && |r| == 1 {
      assert forall n :: n in r ==> n == r[0];
    }
  }

  lemma {:induction false} AlikeIsDistinct(raw: string, allowed: seq<string>, i: nat, j: nat)
    requires forall k, l :: 0 <= k < l < |allowed| ==> allowed[k] != allowed[l]
    requires i < j < |Alike(raw, allowed)|
    ensures Alike(raw, allowed)[i] != Alike(raw, allowed)[j]
  {
    hide Flat;
    var rest := Alike(raw, allowed[1..]);
    if Flat(allowed[0]) != Flat(raw) {
      assert Alike(raw, allowed) == rest;
      AlikeIsDistinct(raw, allowed[1..], i, j);
    } else {
      assert Alike(raw, allowed) == [allowed[0]] + rest;
      if i > 0 {
        AlikeIsDistinct(raw, allowed[1..], i - 1, j - 1);
      } else {
        assert rest[j - 1] in rest;
        var k :| 0 <= k < |allowed[1..]| && allowed[1..][k] == rest[j - 1];
        assert allowed[k + 1] == rest[j - 1];
      }
    }
  }
}
