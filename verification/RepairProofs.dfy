/**
 * What the repair reads back: the scanner against the JSON grammar, the lenient rewrite against the
 * strict one, and the loop against the calls a message was printed from.
 */
module RepairProofs {
  import opened Text
  import opened Json
  import opened Repair

  // ---------------------------------------------------------------- the bare grammar

  /** An escaped code is any four digits to the grammar, even half of a pair by itself. */
  predicate LexicalItem(i: Item) {
    match i
    case Unicode(hex) => FourHex(hex)
    case UnicodePair(high, low) => FourHex(high) && FourHex(low)
    case _ => StrictItem(i)
  }

  ghost predicate LexicalItems(items: seq<Item>) {
    forall k :: 0 <= k < |items| ==> LexicalItem(items[k])
  }

  /** A JSON text by its grammar alone, whatever its escapes stand for. */
  ghost predicate Lexical(c: Cst) {
    match c
    case CNum(lexeme) => IsNumber(lexeme)
    case CStr(items) => LexicalItems(items)
    case CArr(inner, elements) => Spaces(inner) && LexicalElements(elements)
    case CObj(inner, members) => Spaces(inner) && LexicalMembers(members)
    case _ => true
  }

  ghost predicate LexicalElements(es: Elements) {
    match es
    case NoElements => true
    case Element(before, value, after, more) => Spaces(before) && Lexical(value) && Spaces(after) && LexicalElements(more)
  }

  ghost predicate LexicalMembers(ms: Members) {
    match ms
    case NoMembers => true
    case Member(before, key, colonBefore, colonAfter, value, after, more) =>
      Spaces(before) && LexicalItems(key) && Spaces(colonBefore) && Spaces(colonAfter) && Lexical(value) && Spaces(after) &&
      LexicalMembers(more)
  }

  lemma StrictItemsAreLexical(items: seq<Item>)
    requires StrictItems(items)
    ensures LexicalItems(items)
  {
    forall k | 0 <= k < |items| ensures LexicalItem(items[k]) { assert StrictItem(items[k]); }
  }

  /** Every text that stands for a value is in the grammar. */
  lemma {:induction false} StrictIsLexical(c: Cst)
    requires Strict(c)
    ensures Lexical(c)
  {
    match c {
      case CStr(items) => StrictItemsAreLexical(items);
      case CArr(_, elements) => StrictElementsAreLexical(elements);
      case CObj(_, members) => StrictMembersAreLexical(members);
      case _ =>
    }
  }

  lemma {:induction false} StrictElementsAreLexical(es: Elements)
    requires StrictElements(es)
    ensures LexicalElements(es)
  {
    if es.Element? {
      StrictIsLexical(es.value);
      StrictElementsAreLexical(es.more);
    }
  }

  lemma {:induction false} StrictMembersAreLexical(ms: Members)
    requires StrictMembers(ms)
    ensures LexicalMembers(ms)
  {
    if ms.Member? {
      StrictItemsAreLexical(ms.key);
      StrictIsLexical(ms.value);
      StrictMembersAreLexical(ms.more);
    }
  }

  // ---------------------------------------------------------------- loosely written JSON

  /** Raw line breaks and tabs inside strings, escaped; raw returns, gone. */
  function TightenItems(items: seq<Item>): seq<Item> {
    if items == [] then []
    else
      var rest := TightenItems(items[1..]);
      match items[0]
      case Plain('\n') => [Escape('n')] + rest
      case Plain('\t') => [Escape('t')] + rest
      case Plain('\r') => rest
      case i => [i] + rest
  }

  function Tighten(c: Cst): Cst {
    match c
    case CStr(items) => CStr(TightenItems(items))
    case CArr(inner, elements) => CArr(inner, TightenElements(elements))
    case CObj(inner, members) => CObj(inner, TightenMembers(members))
    case _ => c
  }

  function TightenElements(es: Elements): Elements {
    match es
    case NoElements => NoElements
    case Element(before, value, after, more) => Element(before, Tighten(value), after, TightenElements(more))
  }

  function TightenMembers(ms: Members): Members {
    match ms
    case NoMembers => NoMembers
    case Member(before, key, colonBefore, colonAfter, value, after, more) =>
      Member(before, TightenItems(key), colonBefore, colonAfter, Tighten(value), after, TightenMembers(more))
  }

  /** JSON except for raw breaks, tabs and returns inside strings. */
  ghost predicate Loose(c: Cst) { Lexical(Tighten(c)) }

  lemma {:induction false} LexicalItemsAreTight(items: seq<Item>)
    requires LexicalItems(items)
    ensures TightenItems(items) == items
  {
    if items != [] {
      assert LexicalItem(items[0]);
      LexicalItemsAreTight(items[1..]);
      assert items == [items[0]] + items[1..];
    }
  }

  /** JSON is left as it is. */
  lemma {:induction false} LexicalIsTight(c: Cst)
    requires Lexical(c)
    ensures Tighten(c) == c
  {
    match c {
      case CStr(items) => LexicalItemsAreTight(items);
      case CArr(_, elements) => LexicalElementsAreTight(elements);
      case CObj(_, members) => LexicalMembersAreTight(members);
      case _ =>
    }
  }

  lemma {:induction false} LexicalElementsAreTight(es: Elements)
    requires LexicalElements(es)
    ensures TightenElements(es) == es
  {
    if es.Element? {
      LexicalIsTight(es.value);
      LexicalElementsAreTight(es.more);
    }
  }

  lemma {:induction false} LexicalMembersAreTight(ms: Members)
    requires LexicalMembers(ms)
    ensures TightenMembers(ms) == ms
  {
    if ms.Member? {
      LexicalItemsAreTight(ms.key);
      LexicalIsTight(ms.value);
      LexicalMembersAreTight(ms.more);
    }
  }

  // ---------------------------------------------------------------- scanner and rewrite, piece by piece

  /** Before `rest`, at depth `d`, the scanner steps over `x` and the rewrite turns it into `y`. */
  ghost predicate HandlesBefore(x: string, y: string, d: int, rest: string) {
    EndFrom(x + rest, d, false, false) == Plus(|x|, EndFrom(rest, d, false, false)) &&
    Rewrite(x + rest, false, false) == y + Rewrite(rest, false, false)
  }

  ghost predicate Handles(x: string, y: string, d: int) {
    forall rest: string :: HandlesBefore(x, y, d, rest)
  }

  lemma HandlesBoth(x: string, x': string, y: string, y': string, d: int)
    requires Handles(x, x', d) && Handles(y, y', d)
    ensures Handles(x + y, x' + y', d)
  {
    hide HandlesBefore;
    forall rest: string ensures HandlesBefore(x + y, x' + y', d, rest) {
      assert HandlesBefore(y, y', d, rest) && HandlesBefore(x, x', d, y + rest);
      HandlesBothBefore(x, x', y, y', d, rest);
    }
  }

  lemma HandlesBothBefore(x: string, x': string, y: string, y': string, d: int, rest: string)
    requires HandlesBefore(x, x', d, y + rest) && HandlesBefore(y, y', d, rest)
    ensures HandlesBefore(x + y, x' + y', d, rest)
  {
    hide EndFrom, Rewrite;
    assert x + y + rest == x + (y + rest);
    assert x' + (y' + Rewrite(rest, false, false)) == x' + y' + Rewrite(rest, false, false);
  }

  ghost predicate Quiet(x: string) {
    forall k :: 0 <= k < |x| ==> x[k] != '"' && x[k] != '{' && x[k] != '}'
  }

  lemma HandlesQuiet(x: string, d: int)
    requires Quiet(x)
    ensures Handles(x, x, d)
  {
    hide HandlesBefore;
    forall rest: string ensures HandlesBefore(x, x, d, rest) { HandlesQuietBefore(x, d, rest); }
  }

  lemma {:induction false} HandlesQuietBefore(x: string, d: int, rest: string)
    requires Quiet(x)
    ensures HandlesBefore(x, x, d, rest)
  {
    if x == "" {
      assert x + rest == rest;
    } else {
      var s := x + rest;
      assert s[0] == x[0] && s[1..] == x[1..] + rest;
      HandlesQuietBefore(x[1..], d, rest);
      assert [x[0]] + (x[1..] + Rewrite(rest, false, false)) == x + Rewrite(rest, false, false);
    }
  }

  /** Four steps inside a string over characters that neither close nor escape it. */
  lemma {:induction false} InsidePlain(x: string, rest: string, d: int)
    requires forall k :: 0 <= k < |x| ==> x[k] != '"' && x[k] != '\\' && x[k] >= ' '
    ensures EndFrom(x + rest, d, true, false) == Plus(|x|, EndFrom(rest, d, true, false))
    ensures Rewrite(x + rest, true, false) == x + Rewrite(rest, true, false)
  {
    if x == "" {
      assert x + rest == rest;
    } else {
      InsidePlain(x[1..], rest, d);
      assert (x + rest)[1..] == x[1..] + rest;
      assert [x[0]] + (x[1..] + Rewrite(rest, true, false)) == x + Rewrite(rest, true, false);
    }
  }

  lemma InsideItem(i: Item, rest: string, d: int)
    requires LexicalItems(TightenItems([i]))
    ensures EndFrom(RenderItem(i) + rest, d, true, false) == Plus(|RenderItem(i)|, EndFrom(rest, d, true, false))
    ensures Rewrite(RenderItem(i) + rest, true, false) == RenderItems(TightenItems([i])) + Rewrite(rest, true, false)
  {
    hide EndFrom, Rewrite, RenderItems;
    TightenOne(i);
    RenderOne(i);
    match i {
      case Plain(c) =>
        if c == '\n' || c == '\t' || c == '\r' {
          InsideRaw(c, rest, d);
          RenderOne(Escape('n'));
          RenderOne(Escape('t'));
          assert RenderItems([]) == "" by { RenderNone(); }
        } else {
          assert LexicalItem([i][0]);
          InsidePlain([c], rest, d);
        }
      case Escape(c) => InsideEscape(c, rest, d);
      case Unicode(hex) =>
        assert LexicalItem([i][0]);
        InsideCode(hex, rest, d);
      case UnicodePair(high, low) =>
        assert LexicalItem([i][0]);
        InsideCode(low, rest, d);
        InsideCode(high, "\\u" + low + rest, d);
        PairParts(high, low, rest);
        PairParts(high, low, Rewrite(rest, true, false));
    }
  }

  lemma PairParts(high: string, low: string, rest: string)
    ensures RenderItem(UnicodePair(high, low)) + rest == "\\u" + high + ("\\u" + low + rest)
  {
  }

  lemma InsideCode(hex: string, rest: string, d: int)
    requires FourHex(hex)
    ensures EndFrom("\\u" + hex + rest, d, true, false) == Plus(6, EndFrom(rest, d, true, false))
    ensures Rewrite("\\u" + hex + rest, true, false) == "\\u" + hex + Rewrite(rest, true, false)
  {
    hide EndFrom, Rewrite;
    InsideEscape('u', hex + rest, d);
    InsidePlain(hex, rest, d);
    assert "\\u" + hex + rest == ['\\', 'u'] + (hex + rest);
    assert ['\\', 'u'] + (hex + Rewrite(rest, true, false)) == "\\u" + hex + Rewrite(rest, true, false);
  }

  lemma TightenOne(i: Item)
    ensures TightenItems([i]) ==
            if i == Plain('\n') then [Escape('n')] else if i == Plain('\t') then [Escape('t')] else if i == Plain('\r') then [] else [i]
  {
    assert [i][1..] == [];
    assert TightenItems([]) == [];
  }

  lemma RenderNone()
    ensures RenderItems([]) == ""
  {
  }

  lemma RenderOne(i: Item)
    ensures RenderItems([i]) == RenderItem(i)
  {
    assert [i][1..] == [] && RenderItem(i) + "" == RenderItem(i);
  }

  lemma InsideRaw(c: char, rest: string, d: int)
    requires c == '\n' || c == '\t' || c == '\r'
    ensures EndFrom([c] + rest, d, true, false) == Plus(1, EndFrom(rest, d, true, false))
    ensures Rewrite([c] + rest, true, false) ==
            (if c == '\n' then "\\n" else if c == '\t' then "\\t" else "") + Rewrite(rest, true, false)
  {
    assert ([c] + rest)[1..] == rest;
  }

  lemma InsideEscape(c: char, rest: string, d: int)
    ensures EndFrom(['\\', c] + rest, d, true, false) == Plus(2, EndFrom(rest, d, true, false))
    ensures Rewrite(['\\', c] + rest, true, false) == ['\\', c] + Rewrite(rest, true, false)
  {
    var s := ['\\', c] + rest;
    assert s[1..] == [c] + rest && s[1..][1..] == rest;
    assert ['\\'] + ([c] + Rewrite(rest, true, false)) == ['\\', c] + Rewrite(rest, true, false);
  }

  lemma {:induction false} InsideItems(items: seq<Item>, rest: string, d: int)
    requires LexicalItems(TightenItems(items))
    ensures EndFrom(RenderItems(items) + rest, d, true, false) == Plus(|RenderItems(items)|, EndFrom(rest, d, true, false))
    ensures Rewrite(RenderItems(items) + rest, true, false) == RenderItems(TightenItems(items)) + Rewrite(rest, true, false)
  {
    hide EndFrom, Rewrite, RenderItem;
    if items == [] {
      assert RenderItems(items) + rest == rest;
    } else {
      var i, more := items[0], items[1..];
      TightenFirst(items);
      InsideItems(more, rest, d);
      InsideItem(i, RenderItems(more) + rest, d);
      assert RenderItems(items) + rest == RenderItem(i) + (RenderItems(more) + rest);
      RenderItemsAppend(TightenItems([i]), TightenItems(more));
    }
  }

  lemma TightenFirst(items: seq<Item>)
    requires items != []
    ensures TightenItems(items) == TightenItems([items[0]]) + TightenItems(items[1..])
    ensures LexicalItems(TightenItems(items)) ==> LexicalItems(TightenItems([items[0]])) && LexicalItems(TightenItems(items[1..]))
  {
    hide LexicalItem, LexicalItems;
    TightenOne(items[0]);
    var a, b := TightenItems([items[0]]), TightenItems(items[1..]);
    assert TightenItems(items) == a + b;
    if LexicalItems(a + b) { LexicalParts(a, b); }
  }

  lemma LexicalParts(xs: seq<Item>, ys: seq<Item>)
    requires LexicalItems(xs + ys)
    ensures LexicalItems(xs) && LexicalItems(ys)
  {
    hide LexicalItem;
    assert forall k :: 0 <= k < |xs| ==> (xs + ys)[k] == xs[k];
    assert forall k :: 0 <= k < |ys| ==> (xs + ys)[|xs| + k] == ys[k];
  }

  lemma ConsAppend(xs: seq<Item>, ys: seq<Item>)
    requires xs != []
    ensures (xs + ys)[0] == xs[0] && (xs + ys)[1..] == xs[1..] + ys && xs + ys != []
  {
  }

  lemma RenderFirst(items: seq<Item>)
    requires items != []
    ensures RenderItems(items) == RenderItem(items[0]) + RenderItems(items[1..])
  {
  }

  lemma {:induction false} RenderItemsAppend(xs: seq<Item>, ys: seq<Item>)
    ensures RenderItems(xs + ys) == RenderItems(xs) + RenderItems(ys)
  {
    if xs == [] {
      assert xs + ys == ys;
    } else {
      hide RenderItems, RenderItem;
      var i, more := xs[0], xs[1..];
      RenderItemsAppend(more, ys);
      RenderFirst(xs);
      ConsAppend(xs, ys);
      RenderFirst(xs + ys);
      Associative(RenderItem(i), RenderItems(more), RenderItems(ys));
    }
  }

  lemma HandlesQuoted(items: seq<Item>, d: int)
    requires LexicalItems(TightenItems(items))
    ensures Handles(Quoted(items), Quoted(TightenItems(items)), d)
  {
    hide HandlesBefore;
    forall rest: string ensures HandlesBefore(Quoted(items), Quoted(TightenItems(items)), d, rest) {
      QuotedStep(items, rest, d);
    }
  }

  lemma QuotedStep(items: seq<Item>, rest: string, d: int)
    requires LexicalItems(TightenItems(items))
    ensures HandlesBefore(Quoted(items), Quoted(TightenItems(items)), d, rest)
  {
    hide RenderItems, TightenItems, LexicalItems;
    var s, closing := Quoted(items) + rest, "\"" + rest;
    InsideItems(items, closing, d);
    assert s[1..] == RenderItems(items) + closing;
    assert closing[1..] == rest;
    assert EndFrom(closing, d, true, false) == Plus(1, EndFrom(rest, d, false, false));
    assert Rewrite(closing, true, false) == "\"" + Rewrite(rest, false, false);
    assert "\"" + (RenderItems(TightenItems(items)) + ("\"" + Rewrite(rest, false, false))) ==
           Quoted(TightenItems(items)) + Rewrite(rest, false, false);
  }

  // ---------------------------------------------------------------- whole values

  lemma SpacesAreQuiet(s: string)
    requires Spaces(s)
    ensures Quiet(s)
  {
    assert forall k :: 0 <= k < |s| ==> IsJsonSpace(s[k]);
  }

  lemma NumbersAreQuiet(s: string)
    requires IsNumber(s)
    ensures Quiet(s)
  {
    assert forall k :: 0 <= k < |s| ==> IsNumChar(s[k]);
  }

  lemma WordsAreQuiet()
    ensures Quiet("null") && Quiet("true") && Quiet("false") && Quiet(",") && Quiet(":") && Quiet("[") && Quiet("]")
  {
  }

  lemma {:induction false} HandlesValue(c: Cst, d: int)
    requires Loose(c) && d >= 1
    ensures Handles(Render(c), Render(Tighten(c)), d)
    decreases c, 1
  {
    hide Handles, Quiet, Spaces, LexicalItems;
    WordsAreQuiet();
    match c {
      case CNull => HandlesQuiet("null", d);
      case CTrue => HandlesQuiet("true", d);
      case CFalse => HandlesQuiet("false", d);
      case CNum(lexeme) =>
        NumbersAreQuiet(lexeme);
        HandlesQuiet(lexeme, d);
      case CStr(items) => HandlesQuoted(items, d);
      case CArr(inner, elements) =>
        HandlesElements(elements, d);
        SpacesAreQuiet(inner);
        HandlesQuiet(inner, d);
        var x := if elements.NoElements? then inner else RenderElements(elements);
        var y := if elements.NoElements? then inner else RenderElements(TightenElements(elements));
        HandlesQuiet("[", d);
        HandlesQuiet("]", d);
        HandlesBoth("[", "[", x, y, d);
        HandlesBoth("[" + x, "[" + y, "]", "]", d);
      case CObj(inner, members) =>
        var x, y := ObjectInside(c, d + 1);
        HandlesBraces(x, y, d);
    }
  }

  /** What stands between an object's braces. */
  lemma {:induction false} ObjectInside(c: Cst, d: int) returns (x: string, y: string)
    requires c.CObj? && Loose(c) && d >= 1
    ensures Handles(x, y, d) && Render(c) == "{" + x + "}" && Render(Tighten(c)) == "{" + y + "}"
    decreases c, 0
  {
    hide Handles, Spaces;
    if c.members.NoMembers? {
      x, y := c.inner, c.inner;
      SpacesAreQuiet(x);
      HandlesQuiet(x, d);
    } else {
      x, y := RenderMembers(c.members), RenderMembers(TightenMembers(c.members));
      HandlesMembers(c.members, d);
    }
  }

  lemma HandlesBraces(x: string, y: string, d: int)
    requires d >= 1 && Handles(x, y, d + 1)
    ensures Handles("{" + x + "}", "{" + y + "}", d)
  {
    hide EndFrom, Rewrite;
    forall rest: string ensures HandlesBefore("{" + x + "}", "{" + y + "}", d, rest) {
      assert HandlesBefore(x, y, d + 1, "}" + rest);
      BracesStep(x, y, rest, d);
    }
  }

  lemma BracesStep(x: string, y: string, rest: string, d: int)
    requires HandlesBefore(x, y, d + 1, "}" + rest)
    ensures EndFrom("{" + x + "}" + rest, d, false, false) == Plus(1 + |x|, EndFrom("}" + rest, d + 1, false, false))
    ensures d >= 1 ==> EndFrom("}" + rest, d + 1, false, false) == Plus(1, EndFrom(rest, d, false, false))
    ensures d == 0 ==> EndFrom("}" + rest, d + 1, false, false) == Some(1)
    ensures Rewrite("{" + x + "}" + rest, false, false) == "{" + y + "}" + Rewrite(rest, false, false)
  {
    var s, closing := "{" + x + "}" + rest, "}" + rest;
    assert s[1..] == x + closing && closing[1..] == rest;
    assert EndFrom(x + closing, d + 1, false, false) == Plus(|x|, EndFrom(closing, d + 1, false, false));
    assert Rewrite(x + closing, false, false) == y + Rewrite(closing, false, false);
    assert Rewrite(closing, false, false) == "}" + Rewrite(rest, false, false);
    assert "{" + (y + ("}" + Rewrite(rest, false, false))) == "{" + y + "}" + Rewrite(rest, false, false);
  }

  lemma {:induction false} HandlesElements(es: Elements, d: int)
    requires LexicalElements(TightenElements(es)) && d >= 1
    ensures Handles(RenderElements(es), RenderElements(TightenElements(es)), d)
    decreases es, 2
  {
    hide Handles, Quiet, Spaces, Render, Tighten;
    WordsAreQuiet();
    HandlesQuiet("", d) by { assert Quiet("") by { EmptyIsQuiet(); } }
    if es.Element? {
      var v, v' := Render(es.value), Render(Tighten(es.value));
      var more := if es.more.NoElements? then "" else "," + RenderElements(es.more);
      var more' := if es.more.NoElements? then "" else "," + RenderElements(TightenElements(es.more));
      SpacesAreQuiet(es.before);
      SpacesAreQuiet(es.after);
      HandlesQuiet(es.before, d);
      HandlesQuiet(es.after, d);
      HandlesQuiet(",", d);
      HandlesValue(es.value, d);
      HandlesElements(es.more, d);
      HandlesBoth(",", ",", RenderElements(es.more), RenderElements(TightenElements(es.more)), d);
      HandlesBoth(es.before, es.before, v, v', d);
      HandlesBoth(es.before + v, es.before + v', es.after, es.after, d);
      HandlesBoth(es.before + v + es.after, es.before + v' + es.after, more, more', d);
    }
  }

  lemma EmptyIsQuiet()
    ensures Quiet("")
  {
  }

  lemma {:induction false} HandlesMembers(ms: Members, d: int)
    requires LexicalMembers(TightenMembers(ms)) && d >= 1
    ensures Handles(RenderMembers(ms), RenderMembers(TightenMembers(ms)), d)
    decreases ms, 2
  {
    hide Handles, Quiet, Spaces, Render, Tighten, Quoted, LexicalItems, TightenItems;
    WordsAreQuiet();
    EmptyIsQuiet();
    HandlesQuiet("", d);
    if ms.Member? {
      var key, key' := Quoted(ms.key), Quoted(TightenItems(ms.key));
      var v, v' := Render(ms.value), Render(Tighten(ms.value));
      var more := if ms.more.NoMembers? then "" else "," + RenderMembers(ms.more);
      var more' := if ms.more.NoMembers? then "" else "," + RenderMembers(TightenMembers(ms.more));
      SpacesAreQuiet(ms.before);
      SpacesAreQuiet(ms.colonBefore);
      SpacesAreQuiet(ms.colonAfter);
      SpacesAreQuiet(ms.after);
      HandlesQuiet(ms.before, d);
      HandlesQuiet(ms.colonBefore, d);
      HandlesQuiet(":", d);
      HandlesQuiet(ms.colonAfter, d);
      HandlesQuiet(ms.after, d);
      HandlesQuiet(",", d);
      HandlesQuoted(ms.key, d);
      HandlesValue(ms.value, d);
      HandlesMembers(ms.more, d);
      HandlesBoth(",", ",", RenderMembers(ms.more), RenderMembers(TightenMembers(ms.more)), d);
      var x, x' := ms.before, ms.before;
      HandlesBoth(x, x', key, key', d);
      x, x' := x + key, x' + key';
      HandlesBoth(x, x', ms.colonBefore, ms.colonBefore, d);
      x, x' := x + ms.colonBefore, x' + ms.colonBefore;
      HandlesBoth(x, x', ":", ":", d);
      x, x' := x + ":", x' + ":";
      HandlesBoth(x, x', ms.colonAfter, ms.colonAfter, d);
      x, x' := x + ms.colonAfter, x' + ms.colonAfter;
      HandlesBoth(x, x', v, v', d);
      x, x' := x + v, x' + v';
      HandlesBoth(x, x', ms.after, ms.after, d);
      x, x' := x + ms.after, x' + ms.after;
      HandlesBoth(x, x', more, more', d);
    }
  }

  /**
   * The scanner is exact: for every object text, strict or with raw breaks in its strings, and
   * anything behind it, it stops precisely where the object does.
   */
  lemma ScannerIsExact(c: Cst, suffix: string)
    requires c.CObj? && Loose(c)
    ensures EndOfObject(Render(c) + suffix) == Some(|Render(c)|)
  {
    hide EndFrom, Rewrite;
    var x, y := ObjectInside(c, 1);
    assert HandlesBefore(x, y, 1, "}" + suffix);
    BracesStep(x, y, suffix, 0);
  }

  /** The rewrite turns loosely written JSON into the strict writing of the same value. */
  lemma RewriteTightens(before: string, c: Cst, after: string)
    requires Spaces(before) && Loose(c) && Spaces(after)
    ensures Rewrite(before + Render(c) + after, false, false) == before + Render(Tighten(c)) + after
  {
    hide EndFrom, Rewrite, Spaces, Quiet, HandlesBefore;
    SpacesAreQuiet(before);
    SpacesAreQuiet(after);
    HandlesQuiet(before, 1);
    HandlesQuiet(after, 1);
    HandlesValue(c, 1);
    HandlesBoth(before, before, Render(c), Render(Tighten(c)), 1);
    HandlesBoth(before + Render(c), before + Render(Tighten(c)), after, after, 1);
    RewriteOfAll(before + Render(c) + after, before + Render(Tighten(c)) + after);
  }

  lemma RewriteOfAll(x: string, y: string)
    requires Handles(x, y, 1)
    ensures Rewrite(x, false, false) == y
  {
    hide EndFrom;
    assert HandlesBefore(x, y, 1, "");
    assert x + "" == x && y + "" == y;
  }
}
