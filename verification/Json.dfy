/**
 * JSON texts (RFC 8259): every way a value may be written, the value each writing stands for, and the
 * reader that goes back. Numbers are kept as they are written.
 */
module Json {
  import opened Text

  datatype Value =
    | Null
    | Bool(b: bool)
    | Num(lexeme: string)
    | Str(s: string)
    | Arr(elements: seq<Value>)
    | Obj(members: seq<(string, Value)>)

  // ---------------------------------------------------------------- how a value may be written

  /** One unit inside a string, as section 7 of RFC 8259 lists them. */
  datatype Item = Plain(c: char) | Escape(c: char) | Unicode(hex: string) | UnicodePair(high: string, low: string)

  datatype Cst =
    | CNull
    | CTrue
    | CFalse
    | CNum(lexeme: string)
    | CStr(items: seq<Item>)
    | CArr(inner: string, elements: Elements)
    | CObj(inner: string, members: Members)

  /** `before` value `after`, separated by commas. */
  datatype Elements = NoElements | Element(before: string, value: Cst, after: string, more: Elements)

  datatype Members =
    | NoMembers
    | Member(before: string, key: seq<Item>, colonBefore: string, colonAfter: string, value: Cst, after: string, more: Members)

  function RenderItem(i: Item): string {
    match i
    case Plain(c) => [c]
    case Escape(c) => ['\\', c]
    case Unicode(hex) => "\\u" + hex
    case UnicodePair(high, low) => "\\u" + high + "\\u" + low
  }

  function RenderItems(items: seq<Item>): string {
    if items == [] then "" else RenderItem(items[0]) + RenderItems(items[1..])
  }

  function Quoted(items: seq<Item>): string { "\"" + RenderItems(items) + "\"" }

  function Render(c: Cst): string {
    match c
    case CNull => "null"
    case CTrue => "true"
    case CFalse => "false"
    case CNum(lexeme) => lexeme
    case CStr(items) => Quoted(items)
    case CArr(inner, elements) => "[" + (if elements.NoElements? then inner else RenderElements(elements)) + "]"
    case CObj(inner, members) => "{" + (if members.NoMembers? then inner else RenderMembers(members)) + "}"
  }

  function RenderElements(es: Elements): string {
    match es
    case NoElements => ""
    case Element(before, value, after, more) =>
      before + Render(value) + after + (if more.NoElements? then "" else "," + RenderElements(more))
  }

  function RenderMembers(ms: Members): string {
    match ms
    case NoMembers => ""
    case Member(before, key, colonBefore, colonAfter, value, after, more) =>
      before + Quoted(key) + colonBefore + ":" + colonAfter + Render(value) + after +
      (if more.NoMembers? then "" else "," + RenderMembers(more))
  }

  // ---------------------------------------------------------------- what is well formed

  predicate IsJsonSpace(c: char) {
    c == ' ' || c == '\t' || c == '\n' || c == '\r'
  }

  ghost predicate Spaces(s: string) {
    forall k :: 0 <= k < |s| ==> IsJsonSpace(s[k])
  }

  predicate IsHex(c: char) { IsDigit(c) || 'a' <= c <= 'f' || 'A' <= c <= 'F' }

  function HexValue(c: char): (n: nat)
    requires IsHex(c)
    ensures n < 16
  {
    if IsDigit(c) then c as int - '0' as int
    else if 'a' <= c <= 'f' then c as int - 'a' as int + 10
    else c as int - 'A' as int + 10
  }

  predicate FourHex(hex: string) {
    |hex| == 4 && IsHex(hex[0]) && IsHex(hex[1]) && IsHex(hex[2]) && IsHex(hex[3])
  }

  /** Four hexadecimal digits that are a character by themselves. */
  predicate IsCode(hex: string) { FourHex(hex) && !(0xD800 <= CodeOf(hex) < 0xE000) }

  predicate IsHighHalf(hex: string) { FourHex(hex) && 0xD800 <= CodeOf(hex) < 0xDC00 }

  predicate IsLowHalf(hex: string) { FourHex(hex) && 0xDC00 <= CodeOf(hex) < 0xE000 }

  /** The character beyond the basic plane that two halves write, as section 7 of RFC 8259 has it. */
  function Pair(high: string, low: string): (c: char)
    requires IsHighHalf(high) && IsLowHalf(low)
    ensures c as int >= 0x10000
  {
    (0x10000 + (CodeOf(high) - 0xD800) * 0x400 + (CodeOf(low) - 0xDC00)) as char
  }

  function CodeOf(hex: string): (n: nat)
    requires FourHex(hex)
    ensures n < 0x10000
  {
    0x1000 * HexValue(hex[0]) + 0x100 * HexValue(hex[1]) + 0x10 * HexValue(hex[2]) + HexValue(hex[3])
  }

  predicate IsEscape(c: char) {
    c == '"' || c == '\\' || c == '/' || c == 'b' || c == 'f' || c == 'n' || c == 'r' || c == 't'
  }

  function Escaped(c: char): char
    requires IsEscape(c)
  {
    match c
    case 'b' => '\U{08}'
    case 'f' => '\U{0C}'
    case 'n' => '\n'
    case 'r' => '\r'
    case 't' => '\t'
    case _ => c
  }

  predicate IsPlain(c: char) { c != '"' && c != '\\' && c >= ' ' }

  predicate StrictItem(i: Item) {
    match i
    case Plain(c) => IsPlain(c)
    case Escape(c) => IsEscape(c)
    case Unicode(hex) => IsCode(hex)
    case UnicodePair(high, low) => IsHighHalf(high) && IsLowHalf(low)
  }

  predicate IsNumChar(c: char) {
    IsDigit(c) || c == '-' || c == '+' || c == '.' || c == 'e' || c == 'E'
  }

  function Exponent(s: string): bool {
    s == "" ||
    ((s[0] == 'e' || s[0] == 'E') &&
      var t := if |s| > 1 && (s[1] == '+' || s[1] == '-') then s[2..] else s[1..];
      t != "" && DigitRun(t) == |t|)
  }

  /** The number grammar of section 6 of RFC 8259. */
  ghost predicate IsNumber(s: string) {
    (forall k :: 0 <= k < |s| ==> IsNumChar(s[k])) && NumberShape(s)
  }

  predicate NumberShape(s: string) {
    s != "" &&
    var t := if s[0] == '-' then s[1..] else s;
    var d := DigitRun(t);
    d > 0 && (t[0] == '0' ==> d == 1) &&
    (if d < |t| && t[d] == '.' then
       var f := DigitRun(t[d + 1..]);
       f > 0 && Exponent(t[d + 1 + f..])
     else Exponent(t[d..]))
  }

  ghost predicate StrictItems(items: seq<Item>) {
    forall k :: 0 <= k < |items| ==> StrictItem(items[k])
  }

  /** A JSON text of RFC 8259. */
  ghost predicate Strict(c: Cst) {
    match c
    case CNum(lexeme) => IsNumber(lexeme)
    case CStr(items) => StrictItems(items)
    case CArr(inner, elements) => Spaces(inner) && StrictElements(elements)
    case CObj(inner, members) => Spaces(inner) && StrictMembers(members)
    case _ => true
  }

  ghost predicate StrictElements(es: Elements) {
    match es
    case NoElements => true
    case Element(before, value, after, more) => Spaces(before) && Strict(value) && Spaces(after) && StrictElements(more)
  }

  ghost predicate StrictMembers(ms: Members) {
    match ms
    case NoMembers => true
    case Member(before, key, colonBefore, colonAfter, value, after, more) =>
      Spaces(before) && StrictItems(key) && Spaces(colonBefore) && Spaces(colonAfter) && Strict(value) && Spaces(after) &&
      StrictMembers(more)
  }

  // ---------------------------------------------------------------- what a writing stands for

  function ItemChar(i: Item): char
    requires StrictItem(i)
  {
    match i
    case Plain(c) => c
    case Escape(c) => Escaped(c)
    case Unicode(hex) => CodeOf(hex) as char
    case UnicodePair(high, low) => Pair(high, low)
  }

  ghost function StringOf(items: seq<Item>): string
    requires StrictItems(items)
  {
    if items == [] then "" else [ItemChar(items[0])] + StringOf(items[1..])
  }

  ghost function ValueOf(c: Cst): Value
    requires Strict(c)
  {
    match c
    case CNull => Null
    case CTrue => Bool(true)
    case CFalse => Bool(false)
    case CNum(lexeme) => Num(lexeme)
    case CStr(items) => Str(StringOf(items))
    case CArr(_, elements) => Arr(ElementsOf(elements))
    case CObj(_, members) => Obj(MembersOf(members))
  }

  ghost function ElementsOf(es: Elements): seq<Value>
    requires StrictElements(es)
  {
    match es
    case NoElements => []
    case Element(_, value, _, more) => [ValueOf(value)] + ElementsOf(more)
  }

  ghost function MembersOf(ms: Members): seq<(string, Value)>
    requires StrictMembers(ms)
  {
    match ms
    case NoMembers => []
    case Member(_, key, _, _, value, _, more) => [(StringOf(key), ValueOf(value))] + MembersOf(more)
  }

  // ---------------------------------------------------------------- reading

  datatype Read<+T> = Fail | Got(value: T, rest: string)

  function SkipSpaces(s: string): (r: string)
    ensures |r| <= |s|
  {
    if s != "" && IsJsonSpace(s[0]) then SkipSpaces(s[1..]) else s
  }

  function NumRun(s: string): (n: nat)
    ensures n <= |s|
  {
    if s != "" && IsNumChar(s[0]) then 1 + NumRun(s[1..]) else 0
  }

  /** The rest of a string, its opening quote already read. */
  function ReadString(s: string): (r: Read<string>)
    ensures r.Got? ==> |r.rest| < |s|
  {
    if s == "" then Fail
    else if s[0] == '"' then Got("", s[1..])
    else if s[0] == '\\' then
      if |s| < 2 then Fail
      else if s[1] == 'u' then
        if |s| < 6 then Fail
        else if IsCode(s[2..6]) then Push(CodeOf(s[2..6]) as char, ReadString(s[6..]))
        else if PairAhead(s) then Push(Pair(s[2..6], s[8..12]), ReadString(s[12..]))
        else Fail
      else if IsEscape(s[1]) then Push(Escaped(s[1]), ReadString(s[2..]))
      else Fail
    else if IsPlain(s[0]) then Push(s[0], ReadString(s[1..]))
    else Fail
  }

  predicate PairAhead(s: string) {
    |s| >= 12 && IsHighHalf(s[2..6]) && s[6] == '\\' && s[7] == 'u' && IsLowHalf(s[8..12])
  }

  function Push(c: char, r: Read<string>): Read<string> {
    if r.Got? then Got([c] + r.value, r.rest) else Fail
  }

  function ReadValue(s: string): (r: Read<Value>)
    ensures r.Got? ==> |r.rest| < |s|
    decreases |s|, 0
  {
    if s == "" then Fail
    else if s[0] == '"' then
      var t := ReadString(s[1..]);
      if t.Got? then Got(Str(t.value), t.rest) else Fail
    else if s[0] == '[' then
      var inner := SkipSpaces(s[1..]);
      if inner != "" && inner[0] == ']' then Got(Arr([]), inner[1..])
      else
        var es := ReadElements(s[1..]);
        if es.Got? then Got(Arr(es.value), es.rest) else Fail
    else if s[0] == '{' then
      var inner := SkipSpaces(s[1..]);
      if inner != "" && inner[0] == '}' then Got(Obj([]), inner[1..])
      else
        var ms := ReadMembers(s[1..]);
        if ms.Got? then Got(Obj(ms.value), ms.rest) else Fail
    else if StartsWith(s, "null") then Got(Null, s[4..])
    else if StartsWith(s, "true") then Got(Bool(true), s[4..])
    else if StartsWith(s, "false") then Got(Bool(false), s[5..])
    else
      var n := NumRun(s);
      if n > 0 && NumberShape(s[..n]) then Got(Num(s[..n]), s[n..]) else Fail
  }

  function ReadElements(s: string): (r: Read<seq<Value>>)
    ensures r.Got? ==> |r.rest| < |s|
    decreases |s|, 1
  {
    var v := ReadValue(SkipSpaces(s));
    if v.Fail? then Fail
    else
      var next := SkipSpaces(v.rest);
      if next == "" then Fail
      else if next[0] == ']' then Got([v.value], next[1..])
      else if next[0] == ',' then
        var more := ReadElements(next[1..]);
        if more.Got? then Got([v.value] + more.value, more.rest) else Fail
      else Fail
  }

  function ReadMembers(s: string): (r: Read<seq<(string, Value)>>)
    ensures r.Got? ==> |r.rest| < |s|
    decreases |s|, 1
  {
    var open := SkipSpaces(s);
    if open == "" || open[0] != '"' then Fail
    else
      var key := ReadString(open[1..]);
      if key.Fail? then Fail
      else
        var colon := SkipSpaces(key.rest);
        if colon == "" || colon[0] != ':' then Fail
        else
          var v := ReadValue(SkipSpaces(colon[1..]));
          if v.Fail? then Fail
          else
            var next := SkipSpaces(v.rest);
            if next == "" then Fail
            else if next[0] == '}' then Got([(key.value, v.value)], next[1..])
            else if next[0] == ',' then
              var more := ReadMembers(next[1..]);
              if more.Got? then Got([(key.value, v.value)] + more.value, more.rest) else Fail
            else Fail
  }

  /** `JSON.parse`. */
  function Parse(text: string): Option<Value> {
    var r := ReadValue(SkipSpaces(text));
    if r.Got? && SkipSpaces(r.rest) == "" then Some(r.value) else None
  }

  // ---------------------------------------------------------------- reading undoes writing

  lemma {:induction false} SkipsSpaces(spaces: string, s: string)
    requires Spaces(spaces) && (s == "" || !IsJsonSpace(s[0]))
    ensures SkipSpaces(spaces + s) == s
  {
    if spaces == "" {
      assert spaces + s == s;
    } else {
      assert (spaces + s)[1..] == spaces[1..] + s;
      SkipsSpaces(spaces[1..], s);
    }
  }

  lemma ReadsItem(i: Item, tail: string)
    requires StrictItem(i)
    ensures ReadString(RenderItem(i) + tail) == Push(ItemChar(i), ReadString(tail))
  {
    hide CodeOf, Pair, Escaped, Push;
    var s := RenderItem(i) + tail;
    match i {
      case Plain(c) => assert s[1..] == tail;
      case Escape(c) => assert s[2..] == tail;
      case Unicode(hex) => assert s[2..6] == hex && s[6..] == tail;
      case UnicodePair(high, low) => assert s[2..6] == high && s[8..12] == low && s[12..] == tail;
    }
  }

  lemma {:induction false} ReadsItems(items: seq<Item>, rest: string)
    requires StrictItems(items)
    ensures ReadString(RenderItems(items) + "\"" + rest) == Got(StringOf(items), rest)
  {
    hide RenderItem, StrictItem, ItemChar;
    if items == [] {
      assert RenderItems(items) + "\"" + rest == "\"" + rest;
    } else {
      var tail := RenderItems(items[1..]) + "\"" + rest;
      ReadsItems(items[1..], rest);
      ReadsItem(items[0], tail);
      assert RenderItems(items) + "\"" + rest == RenderItem(items[0]) + tail;
    }
  }

  lemma {:induction false} ReadsNumber(lexeme: string, rest: string)
    requires (forall k :: 0 <= k < |lexeme| ==> IsNumChar(lexeme[k])) && (rest == "" || !IsNumChar(rest[0]))
    ensures NumRun(lexeme + rest) == |lexeme|
  {
    if lexeme == "" {
      assert lexeme + rest == rest;
    } else {
      assert (lexeme + rest)[1..] == lexeme[1..] + rest;
      ReadsNumber(lexeme[1..], rest);
    }
  }

  /** Whatever follows cannot be taken for more of a number. */
  predicate Delimits(rest: string) { rest == "" || !IsNumChar(rest[0]) }

  /** A writing opens with neither space nor a closing bracket. */
  lemma RenderOpens(c: Cst)
    requires Strict(c)
    ensures Render(c) != "" && !IsJsonSpace(Render(c)[0]) && Render(c)[0] != ']' && Render(c)[0] != '}'
  {
    if c.CNum? { assert IsNumChar(c.lexeme[0]); }
  }

  lemma {:induction false} ReadsWhatIsRendered(c: Cst, rest: string)
    requires Strict(c) && Delimits(rest)
    ensures ReadValue(Render(c) + rest) == Got(ValueOf(c), rest)
    decreases c, 1
  {
    match c {
      case CArr(inner, elements) => ReadsArray(inner, elements, rest);
      case CObj(inner, members) => ReadsObject(inner, members, rest);
      case _ => ReadsScalar(c, rest);
    }
  }

  lemma ReadsScalar(c: Cst, rest: string)
    requires Strict(c) && Delimits(rest) && !c.CArr? && !c.CObj?
    ensures ReadValue(Render(c) + rest) == Got(ValueOf(c), rest)
  {
    hide ReadElements, ReadMembers, SkipSpaces, NumberShape, ReadValue;
    match c {
      case CNum(lexeme) => ReadsNum(lexeme, rest);
      case CStr(items) => ReadsQuoted(items, rest);
      case CNull => ReadsWord("null", rest);
      case CTrue => ReadsWord("true", rest);
      case CFalse => ReadsWord("false", rest);
    }
  }

  lemma ReadsWord(word: string, rest: string)
    requires word == "null" || word == "true" || word == "false"
    ensures ReadValue(word + rest) == Got(if word == "null" then Null else Bool(word == "true"), rest)
  {
    hide ReadElements, ReadMembers, SkipSpaces, NumberShape, ReadString, NumRun;
    var s := word + rest;
    assert s[..|word|] == word && s[|word|..] == rest;
    if word != "null" { OpensOtherwise(s, "null"); }
    if word == "false" { OpensOtherwise(s, "true"); }
  }

  lemma OpensOtherwise(s: string, word: string)
    requires s != "" && word != "" && s[0] != word[0]
    ensures !StartsWith(s, word)
  {
    assert |word| <= |s| ==> s[..|word|][0] == s[0];
  }

  lemma ReadsQuoted(items: seq<Item>, rest: string)
    requires StrictItems(items)
    ensures ReadValue(Quoted(items) + rest) == Got(Str(StringOf(items)), rest)
  {
    hide ReadElements, ReadMembers, SkipSpaces, NumberShape, ReadString, NumRun;
    ReadsItems(items, rest);
    assert (Quoted(items) + rest)[1..] == RenderItems(items) + "\"" + rest;
  }

  lemma NumbersAreNotEmpty(lexeme: string)
    requires NumberShape(lexeme)
    ensures lexeme != ""
  {
  }

  lemma ReadsNum(lexeme: string, rest: string)
    requires IsNumber(lexeme) && Delimits(rest)
    ensures ReadValue(lexeme + rest) == Got(Num(lexeme), rest)
  {
    hide ReadElements, ReadMembers, SkipSpaces, NumberShape, ReadString;
    var s := lexeme + rest;
    NumbersAreNotEmpty(lexeme);
    ReadsNumber(lexeme, rest);
    assert IsNumChar(s[0]) && s[..|lexeme|] == lexeme && s[|lexeme|..] == rest;
    OpensOtherwise(s, "null");
    OpensOtherwise(s, "true");
    OpensOtherwise(s, "false");
  }

  // One step of each reader, for strings already split where it will split them.

  lemma OpenArray(s: string)
    requires s != "" && s[0] == '['
    ensures var inner, es := SkipSpaces(s[1..]), ReadElements(s[1..]);
            ReadValue(s) ==
              if inner != "" && inner[0] == ']' then Got(Arr([]), inner[1..])
              else if es.Got? then Got(Arr(es.value), es.rest) else Fail
  {
  }

  lemma OpenObject(s: string)
    requires s != "" && s[0] == '{'
    ensures var inner, ms := SkipSpaces(s[1..]), ReadMembers(s[1..]);
            ReadValue(s) ==
              if inner != "" && inner[0] == '}' then Got(Obj([]), inner[1..])
              else if ms.Got? then Got(Obj(ms.value), ms.rest) else Fail
  {
  }

  lemma NextElement(s: string, v: Value, rest: string, next: string)
    requires ReadValue(SkipSpaces(s)) == Got(v, rest) && SkipSpaces(rest) == next && next != ""
    ensures next[0] == ']' ==> ReadElements(s) == Got([v], next[1..])
    ensures next[0] == ',' && ReadElements(next[1..]).Got? ==>
              ReadElements(s) == Got([v] + ReadElements(next[1..]).value, ReadElements(next[1..]).rest)
  {
    hide ReadValue, SkipSpaces;
  }

  lemma NextMember(s: string, quoted: string, key: string, rest: string, colon: string, v: Value, afterValue: string, next: string)
    requires SkipSpaces(s) == quoted && quoted != "" && quoted[0] == '"' && ReadString(quoted[1..]) == Got(key, rest)
    requires SkipSpaces(rest) == colon && colon != "" && colon[0] == ':'
    requires ReadValue(SkipSpaces(colon[1..])) == Got(v, afterValue) && SkipSpaces(afterValue) == next && next != ""
    ensures next[0] == '}' ==> ReadMembers(s) == Got([(key, v)], next[1..])
    ensures next[0] == ',' && ReadMembers(next[1..]).Got? ==>
              ReadMembers(s) == Got([(key, v)] + ReadMembers(next[1..]).value, ReadMembers(next[1..]).rest)
  {
    hide ReadValue, SkipSpaces, ReadString;
  }

  lemma {:induction false} ReadsArray(inner: string, es: Elements, rest: string)
    requires Spaces(inner) && StrictElements(es)
    ensures ReadValue(Render(CArr(inner, es)) + rest) == Got(Arr(ElementsOf(es)), rest)
    decreases es, 2
  {
    hide ReadValue, ReadElements, SkipSpaces, Spaces, IsJsonSpace;
    var s := Render(CArr(inner, es)) + rest;
    OpenArray(s);
    if es.NoElements? {
      assert s[1..] == inner + ("]" + rest);
      CloseIsNotSpace();
      SkipsSpaces(inner, "]" + rest);
    } else {
      assert s[1..] == RenderElements(es) + "]" + rest;
      ReadsElements(es, rest);
    }
  }

  lemma CloseIsNotSpace()
    ensures !IsJsonSpace(']') && !IsJsonSpace('}') && !IsJsonSpace(',') && !IsJsonSpace(':') && !IsJsonSpace('"')
  {
  }

  /** What follows an element up to the closing bracket and beyond. */
  function AfterElement(es: Elements, rest: string): string
    requires es.Element?
  {
    (if es.more.NoElements? then "" else "," + RenderElements(es.more)) + "]" + rest
  }

  lemma ElementText(es: Elements, rest: string)
    requires es.Element?
    ensures RenderElements(es) + "]" + rest == es.before + (Render(es.value) + (es.after + AfterElement(es, rest)))
  {
  }

  lemma SpacesDelimit(spaces: string, close: string)
    requires Spaces(spaces) && close != "" && !IsNumChar(close[0])
    ensures Delimits(spaces + close)
  {
    if spaces != "" { assert (spaces + close)[0] == spaces[0]; }
  }

  lemma {:induction false} ReadsElements(es: Elements, rest: string)
    requires StrictElements(es) && es.Element?
    ensures ReadElements(RenderElements(es) + "]" + rest) == Got(ElementsOf(es), rest)
    ensures var inner := SkipSpaces(RenderElements(es) + "]" + rest); inner != "" && inner[0] != ']'
    decreases es, 1
  {
    hide ReadValue, ReadElements, SkipSpaces, Spaces, IsJsonSpace, Delimits, Render;
    var s := RenderElements(es) + "]" + rest;
    var close := AfterElement(es, rest);
    var tail := es.after + close;
    ElementText(es, rest);
    CloseIsNotSpace();
    RenderOpens(es.value);
    SkipsSpaces(es.before, Render(es.value) + tail);
    SpacesDelimit(es.after, close);
    ReadsWhatIsRendered(es.value, tail);
    SkipsSpaces(es.after, close);
    NextElement(s, ValueOf(es.value), tail, close);
    if es.more.Element? {
      ReadsElements(es.more, rest);
      assert close[1..] == RenderElements(es.more) + "]" + rest;
    } else {
      assert [ValueOf(es.value)] + ElementsOf(es.more) == [ValueOf(es.value)];
      assert close[1..] == rest;
    }
  }

  lemma Braced(x: string, rest: string)
    ensures var s := "{" + x + "}" + rest; s != "" && s[0] == '{' && s[1..] == x + ("}" + rest) == x + "}" + rest
  {
  }

  lemma {:induction false} ReadsObject(inner: string, ms: Members, rest: string)
    requires Spaces(inner) && StrictMembers(ms)
    ensures ReadValue(Render(CObj(inner, ms)) + rest) == Got(Obj(MembersOf(ms)), rest)
    decreases ms, 2
  {
    hide ReadValue, ReadMembers, SkipSpaces, Spaces, IsJsonSpace, RenderMembers;
    Braced(if ms.NoMembers? then inner else RenderMembers(ms), rest);
    OpenObject(Render(CObj(inner, ms)) + rest);
    if ms.NoMembers? {
      CloseIsNotSpace();
      SkipsSpaces(inner, "}" + rest);
    } else {
      ReadsMembers(ms, rest);
    }
  }

  function AfterMember(ms: Members, rest: string): string
    requires ms.Member?
  {
    (if ms.more.NoMembers? then "" else "," + RenderMembers(ms.more)) + "}" + rest
  }

  /** A member's text, split where the reader splits it. */
  function MemberColon(ms: Members, rest: string): string
    requires ms.Member?
  {
    ":" + (ms.colonAfter + (Render(ms.value) + (ms.after + AfterMember(ms, rest))))
  }

  lemma MemberText(ms: Members, rest: string)
    requires ms.Member?
    ensures RenderMembers(ms) + "}" + rest ==
            ms.before + ("\"" + (RenderItems(ms.key) + "\"" + (ms.colonBefore + MemberColon(ms, rest))))
  {
    hide Render, RenderItems, Quoted;
    var more := if ms.more.NoMembers? then "" else "," + RenderMembers(ms.more);
    assert RenderMembers(ms) ==
      ms.before + Quoted(ms.key) + ms.colonBefore + ":" + ms.colonAfter + Render(ms.value) + ms.after + more;
    Regroup(ms.before, Quoted(ms.key), ms.colonBefore, ms.colonAfter, Render(ms.value), ms.after, more, rest);
    QuotedThen(ms.key, ms.colonBefore + MemberColon(ms, rest));
  }

  lemma QuotedThen(items: seq<Item>, tail: string)
    ensures Quoted(items) + tail == "\"" + (RenderItems(items) + "\"" + tail)
  {
  }

  lemma Regroup(before: string, key: string, colonBefore: string, colonAfter: string, v: string, after: string, more: string, rest: string)
    ensures (before + key + colonBefore + ":" + colonAfter + v + after + more) + "}" + rest ==
            before + (key + (colonBefore + (":" + (colonAfter + (v + (after + (more + "}" + rest)))))))
  {
    var opening := before + key + colonBefore + ":" + colonAfter + v;
    var t := after + (more + "}" + rest);
    assert opening + after + more + "}" + rest == opening + t;
    var u := colonAfter + (v + t);
    assert opening + t == before + key + colonBefore + ":" + u;
    assert before + key + colonBefore + ":" + u == before + (key + (colonBefore + (":" + u)));
  }

  lemma {:induction false} ReadsMembers(ms: Members, rest: string)
    requires StrictMembers(ms) && ms.Member?
    ensures ReadMembers(RenderMembers(ms) + "}" + rest) == Got(MembersOf(ms), rest)
    ensures var inner := SkipSpaces(RenderMembers(ms) + "}" + rest); inner != "" && inner[0] != '}'
    decreases ms, 1
  {
    hide ReadValue, ReadMembers, SkipSpaces, Spaces, IsJsonSpace, Delimits, Render, RenderItems, RenderMembers, ReadString, StrictItems;
    var s := RenderMembers(ms) + "}" + rest;
    var close := AfterMember(ms, rest);
    var afterValue := ms.after + close;
    var colon := MemberColon(ms, rest);
    var keyed := RenderItems(ms.key) + "\"" + (ms.colonBefore + colon);
    MemberText(ms, rest);
    CloseIsNotSpace();
    SkipsSpaces(ms.before, "\"" + keyed);
    assert ("\"" + keyed)[1..] == keyed;
    ReadsItems(ms.key, ms.colonBefore + colon);
    SkipsSpaces(ms.colonBefore, colon);
    RenderOpens(ms.value);
    assert colon[1..] == ms.colonAfter + (Render(ms.value) + afterValue);
    SkipsSpaces(ms.colonAfter, Render(ms.value) + afterValue);
    SpacesDelimit(ms.after, close);
    ReadsWhatIsRendered(ms.value, afterValue);
    SkipsSpaces(ms.after, close);
    NextMember(s, "\"" + keyed, StringOf(ms.key), ms.colonBefore + colon, colon, ValueOf(ms.value), afterValue, close);
    if ms.more.Member? {
      ReadsMembers(ms.more, rest);
      assert close[1..] == RenderMembers(ms.more) + "}" + rest;
    } else {
      var only := (StringOf(ms.key), ValueOf(ms.value));
      assert [only] + MembersOf(ms.more) == [only];
      assert close[1..] == rest;
    }
  }

  /** Parsing any JSON text gives the value it stands for, white space around it or not. */
  lemma ParseOfRender(before: string, c: Cst, after: string)
    requires Spaces(before) && Strict(c) && Spaces(after)
    ensures Parse(before + Render(c) + after) == Some(ValueOf(c))
  {
    RenderOpens(c);
    assert before + Render(c) + after == before + (Render(c) + after);
    SkipsSpaces(before, Render(c) + after);
    ReadsWhatIsRendered(c, after);
    assert after + "" == after;
    SkipsSpaces(after, "");
  }

  // ---------------------------------------------------------------- writing it the usual way

  function HexDigit(n: nat): (c: char)
    requires n < 16
    ensures IsHex(c) && HexValue(c) == n
  {
    if n < 10 then '0' + n as char else 'a' + (n - 10) as char
  }

  /** How `JSON.stringify` writes one character. */
  function CompactItem(c: char): (i: Item)
    ensures StrictItem(i) && ItemChar(i) == c
    ensures i.Plain? ==> i.c >= ' '
  {
    if c == '"' || c == '\\' then Escape(c)
    else if c == '\U{08}' then Escape('b')
    else if c == '\U{0C}' then Escape('f')
    else if c == '\n' then Escape('n')
    else if c == '\r' then Escape('r')
    else if c == '\t' then Escape('t')
    else if c < ' ' then Unicode(['0', '0', HexDigit(c as nat / 16), HexDigit(c as nat % 16)])
    else Plain(c)
  }

  function CompactItems(s: string): (items: seq<Item>)
    ensures StrictItems(items) && StringOf(items) == s
  {
    if s == "" then []
    else
      var rest := CompactItems(s[1..]);
      var all := [CompactItem(s[0])] + rest;
      assert all[1..] == rest;
      all
  }

  /** Every number in a value is one JSON can write. */
  ghost predicate Writable(v: Value) {
    match v
    case Num(lexeme) => IsNumber(lexeme)
    case Arr(elements) => forall e :: e in elements ==> Writable(e)
    case Obj(members) => forall m :: m in members ==> Writable(m.1)
    case _ => true
  }

  function Compact(v: Value): Cst
    decreases v, 1
  {
    match v
    case Null => CNull
    case Bool(b) => if b then CTrue else CFalse
    case Num(lexeme) => CNum(lexeme)
    case Str(s) => CStr(CompactItems(s))
    case Arr(elements) => CArr("", CompactElements(v, 0))
    case Obj(members) => CObj("", CompactMembers(v, 0))
  }

  function CompactElements(v: Value, from: nat): Elements
    requires v.Arr? && from <= |v.elements|
    decreases v, 0, |v.elements| - from
  {
    if from == |v.elements| then NoElements
    else Element("", Compact(v.elements[from]), "", CompactElements(v, from + 1))
  }

  function CompactMembers(v: Value, from: nat): Members
    requires v.Obj? && from <= |v.members|
    decreases v, 0, |v.members| - from
  {
    if from == |v.members| then NoMembers
    else Member("", CompactItems(v.members[from].0), "", "", Compact(v.members[from].1), "", CompactMembers(v, from + 1))
  }

  /** `JSON.stringify`. */
  function Stringify(v: Value): string { Render(Compact(v)) }

  lemma {:induction false} CompactIsFaithful(v: Value)
    requires Writable(v)
    ensures Strict(Compact(v)) && ValueOf(Compact(v)) == v
    decreases v, 1
  {
    match v {
      case Arr(elements) =>
        CompactElementsAreFaithful(v, 0);
        assert elements[0..] == elements;
      case Obj(members) =>
        CompactMembersAreFaithful(v, 0);
        assert members[0..] == members;
      case _ =>
    }
  }

  lemma {:induction false} CompactElementsAreFaithful(v: Value, from: nat)
    requires Writable(v) && v.Arr? && from <= |v.elements|
    ensures StrictElements(CompactElements(v, from)) && ElementsOf(CompactElements(v, from)) == v.elements[from..]
    decreases v, 0, |v.elements| - from
  {
    if from < |v.elements| {
      assert v.elements[from] in v.elements;
      CompactIsFaithful(v.elements[from]);
      CompactElementsAreFaithful(v, from + 1);
    }
  }

  lemma {:induction false} CompactMembersAreFaithful(v: Value, from: nat)
    requires Writable(v) && v.Obj? && from <= |v.members|
    ensures StrictMembers(CompactMembers(v, from)) && MembersOf(CompactMembers(v, from)) == v.members[from..]
    decreases v, 0, |v.members| - from
  {
    if from < |v.members| {
      assert v.members[from] in v.members;
      CompactIsFaithful(v.members[from].1);
      CompactMembersAreFaithful(v, from + 1);
    }
  }

  /** What is printed is read back. */
  lemma ParseOfStringify(v: Value)
    requires Writable(v)
    ensures Parse(Stringify(v)) == Some(v)
  {
    CompactIsFaithful(v);
    ParseOfRender("", Compact(v), "");
    assert "" + Render(Compact(v)) + "" == Render(Compact(v));
  }

  ghost predicate OneLine(s: string) {
    forall k :: 0 <= k < |s| ==> s[k] != '\n'
  }

  lemma {:induction false} ItemsAreOneLine(s: string)
    ensures OneLine(RenderItems(CompactItems(s)))
  {
    if s != "" {
      ItemsAreOneLine(s[1..]);
      var i := CompactItem(s[0]);
      assert CompactItems(s) == [i] + CompactItems(s[1..]);
      assert OneLine(RenderItem(i));
    }
  }

  /** A printed value never breaks the line: section 7 of RFC 8259 has strings escape their newlines. */
  lemma {:induction false} StringifyIsOneLine(v: Value)
    requires Writable(v)
    ensures OneLine(Stringify(v))
    decreases v, 1
  {
    hide RenderItems, CompactItems, OneLine, RenderElements, RenderMembers, CompactElements, CompactMembers;
    PunctuationIsOneLine();
    match v {
      case Str(s) =>
        ItemsAreOneLine(s);
        InsideIsOneLine("\"", RenderItems(CompactItems(s)), "\"");
      case Arr(elements) =>
        ElementsAreOneLine(v, 0);
        InsideIsOneLine("[", if elements == [] then "" else RenderElements(CompactElements(v, 0)), "]");
        ElementsWhenEmpty(v);
      case Obj(members) =>
        MembersAreOneLine(v, 0);
        InsideIsOneLine("{", if members == [] then "" else RenderMembers(CompactMembers(v, 0)), "}");
        MembersWhenEmpty(v);
      case Num(lexeme) => NumberIsOneLine(lexeme);
      case Null => WordsAreOneLine();
      case Bool(b) => WordsAreOneLine();
    }
  }

  lemma InsideIsOneLine(open: string, inside: string, close: string)
    requires OneLine(open) && OneLine(inside) && OneLine(close)
    ensures OneLine(open + inside + close)
  {
  }

  lemma ElementsWhenEmpty(v: Value)
    requires v.Arr?
    ensures CompactElements(v, 0).NoElements? <==> v.elements == []
  {
  }

  lemma MembersWhenEmpty(v: Value)
    requires v.Obj?
    ensures CompactMembers(v, 0).NoMembers? <==> v.members == []
  {
  }

  lemma NumberIsOneLine(lexeme: string)
    requires IsNumber(lexeme)
    ensures OneLine(lexeme)
  {
    assert forall k :: 0 <= k < |lexeme| ==> IsNumChar(lexeme[k]);
  }

  lemma WordsAreOneLine()
    ensures OneLine("null") && OneLine("true") && OneLine("false")
  {
  }

  lemma {:induction false} ElementsAreOneLine(v: Value, from: nat)
    requires Writable(v) && v.Arr? && from <= |v.elements|
    ensures OneLine(RenderElements(CompactElements(v, from)))
    decreases v, 0, |v.elements| - from
  {
    hide Render, Compact, OneLine;
    PunctuationIsOneLine();
    if from < |v.elements| {
      assert v.elements[from] in v.elements;
      StringifyIsOneLine(v.elements[from]);
      ElementsAreOneLine(v, from + 1);
      var es := CompactElements(v, from);
      var value := Render(es.value);
      var more := if es.more.NoElements? then "" else "," + RenderElements(es.more);
      assert RenderElements(es) == value + more by { assert RenderElements(es) == "" + value + "" + more; }
      OneLineParts(",", RenderElements(es.more));
      OneLineParts(value, more);
    }
  }

  lemma {:induction false} MembersAreOneLine(v: Value, from: nat)
    requires Writable(v) && v.Obj? && from <= |v.members|
    ensures OneLine(RenderMembers(CompactMembers(v, from)))
    decreases v, 0, |v.members| - from
  {
    hide Render, RenderItems, CompactItems, Compact, OneLine;
    PunctuationIsOneLine();
    if from < |v.members| {
      assert v.members[from] in v.members;
      StringifyIsOneLine(v.members[from].1);
      MembersAreOneLine(v, from + 1);
      MemberIsOneLine(v, from);
    }
  }

  lemma MemberIsOneLine(v: Value, from: nat)
    requires v.Obj? && from < |v.members| && OneLine(Stringify(v.members[from].1))
    requires OneLine(RenderMembers(CompactMembers(v, from + 1)))
    ensures OneLine(RenderMembers(CompactMembers(v, from)))
  {
    hide Render, RenderItems, Compact, CompactItems, OneLine;
    PunctuationIsOneLine();
    ItemsAreOneLine(v.members[from].0);
    var ms := CompactMembers(v, from);
    OneLineParts("\"", RenderItems(ms.key));
    OneLineParts("\"" + RenderItems(ms.key), "\"");
    OneLineParts(",", RenderMembers(ms.more));
    OneLineMember(Quoted(ms.key), Render(ms.value), if ms.more.NoMembers? then "" else "," + RenderMembers(ms.more));
  }

  lemma OneLineMember(key: string, value: string, more: string)
    requires OneLine(key) && OneLine(value) && OneLine(more)
    ensures OneLine("" + key + "" + ":" + "" + value + "" + more)
  {
    hide OneLine;
    PunctuationIsOneLine();
    OneLineParts("", key);
    OneLineParts("" + key, "");
    OneLineParts("" + key + "", ":");
    OneLineParts("" + key + "" + ":", "");
    OneLineParts("" + key + "" + ":" + "", value);
    OneLineParts("" + key + "" + ":" + "" + value, "");
    OneLineParts("" + key + "" + ":" + "" + value + "", more);
  }

  lemma OneLineParts(a: string, b: string)
    ensures OneLine(a) && OneLine(b) ==> OneLine(a + b)
  {
  }

  lemma PunctuationIsOneLine()
    ensures OneLine("") && OneLine("\"") && OneLine(",") && OneLine(":")
    ensures OneLine("[") && OneLine("]") && OneLine("{") && OneLine("}")
  {
  }
}
