/** Strings as sequences of characters: the few library operations the runtime leans on. */
module Text {

  datatype Option<+T> = None | Some(value: T)

  /** What `\s` and `String.prototype.trim` treat as white space. */
  predicate IsSpace(c: char) {
    || c == ' ' || '\t' <= c <= '\r' || c == '\U{A0}' || c == '\U{FEFF}' || c == '\U{1680}'
    || '\U{2000}' <= c <= '\U{200A}' || c == '\U{2028}' || c == '\U{2029}' || c == '\U{202F}'
    || c == '\U{205F}' || c == '\U{3000}'
  }

  predicate IsDigit(c: char) { '0' <= c <= '9' }

  ghost predicate AllSpace(s: string) {
    forall k :: 0 <= k < |s| ==> IsSpace(s[k])
  }

  ghost predicate AllDigits(s: string) {
    forall k :: 0 <= k < |s| ==> IsDigit(s[k])
  }

  // ---------------------------------------------------------------- trimming

  function TrimStart(s: string): (r: string)
    ensures |r| <= |s| && r == s[|s| - |r|..] && AllSpace(s[..|s| - |r|])
    ensures r != [] ==> !IsSpace(r[0])
  {
    if s != [] && IsSpace(s[0]) then
      var r := TrimStart(s[1..]);
      assert s[..|s| - |r|] == [s[0]] + s[1..][..|s| - 1 - |r|];
      r
    else s
  }

  function TrimEnd(s: string): (r: string)
    ensures |r| <= |s| && r == s[..|r|] && AllSpace(s[|r|..])
    ensures r != [] ==> !IsSpace(r[|r| - 1])
  {
    if s != [] && IsSpace(s[|s| - 1]) then
      var r := TrimEnd(s[..|s| - 1]);
      assert s[|r|..] == s[..|s| - 1][|r|..] + [s[|s| - 1]];
      r
    else s
  }

  function Trim(s: string): (r: string)
    ensures r != [] ==> !IsSpace(r[0]) && !IsSpace(r[|r| - 1])
    ensures |r| <= |s|
  {
    TrimEnd(TrimStart(s))
  }

  ghost predicate Trimmed(s: string) {
    s == [] || (!IsSpace(s[0]) && !IsSpace(s[|s| - 1]))
  }

  lemma {:induction false} TrimStartOfPadded(left: string, t: string)
    requires AllSpace(left) && (t == [] || !IsSpace(t[0]))
    ensures TrimStart(left + t) == t
  {
    hide IsSpace;
    if left == [] {
      assert left + t == t;
    } else {
      var all := left + t;
      assert all[0] == left[0] && all[1..] == left[1..] + t;
      TrimStartOfPadded(left[1..], t);
      assert TrimStart(all) == TrimStart(all[1..]);
    }
  }

  lemma {:induction false} TrimEndOfPadded(t: string, right: string)
    requires AllSpace(right) && (t == [] || !IsSpace(t[|t| - 1]))
    ensures TrimEnd(t + right) == t
  {
    hide IsSpace;
    if right == [] {
      assert t + right == t;
    } else {
      var all, n := t + right, |t + right| - 1;
      assert all[n] == right[|right| - 1] && all[..n] == t + right[..|right| - 1];
      TrimEndOfPadded(t, right[..|right| - 1]);
      assert TrimEnd(all) == TrimEnd(all[..n]);
    }
  }

  /** White space around a trimmed string is exactly what trimming takes away. */
  lemma TrimOfPadded(left: string, s: string, right: string)
    requires AllSpace(left) && AllSpace(right) && Trimmed(s)
    ensures Trim(left + s + right) == s
  {
    hide IsSpace;
    if s == [] {
      TrimStartOfPadded(left + right, "");
      assert left + s + right == left + right + "";
      assert TrimStart(left + s + right) == "";
    } else {
      assert (s + right)[0] == s[0];
      TrimStartOfPadded(left, s + right);
      assert left + s + right == left + (s + right);
      assert TrimStart(left + s + right) == s + right;
      TrimEndOfPadded(s, right);
    }
  }

  lemma TrimOfTrimmed(s: string)
    requires Trimmed(s)
    ensures Trim(s) == s
  {
    TrimOfPadded("", s, "");
    assert "" + s + "" == s;
  }

  // ---------------------------------------------------------------- searching

  ghost predicate OccursAt(pat: string, s: string, at: nat) {
    at + |pat| <= |s| && s[at..at + |pat|] == pat
  }

  ghost predicate Occurs(pat: string, s: string) {
    exists at: nat :: OccursAt(pat, s, at)
  }

  /** The first position of `pat`, as `indexOf` reports it. */
  function IndexOf(pat: string, s: string): (r: Option<nat>)
    ensures r.Some? ==> OccursAt(pat, s, r.value) && forall at: nat :: at < r.value ==> !OccursAt(pat, s, at)
    ensures r.None? <==> !Occurs(pat, s)
  {
    IndexFrom(pat, s, 0)
  }

  function IndexFrom(pat: string, s: string, from: nat): (r: Option<nat>)
    requires from <= |s|
    ensures r.Some? ==> from <= r.value && OccursAt(pat, s, r.value)
    ensures r.Some? ==> forall at: nat :: from <= at < r.value ==> !OccursAt(pat, s, at)
    ensures r.None? ==> forall at: nat :: from <= at ==> !OccursAt(pat, s, at)
    decreases |s| - from
  {
    if from + |pat| <= |s| && s[from..from + |pat|] == pat then Some(from)
    else if from == |s| then None
    else IndexFrom(pat, s, from + 1)
  }

  lemma OccursInMiddle(left: string, pat: string, right: string)
    ensures Occurs(pat, left + pat + right)
  {
    var s := left + pat + right;
    assert s[|left|..|left| + |pat|] == pat;
    assert OccursAt(pat, s, |left|);
  }

  predicate StartsWith(s: string, pat: string) {
    |pat| <= |s| && s[..|pat|] == pat
  }

  // ---------------------------------------------------------------- numerals

  function Digit(n: nat): (c: char)
    requires n < 10
    ensures IsDigit(c)
  {
    '0' + n as char
  }

  function DigitValue(c: char): (n: nat)
    requires IsDigit(c)
    ensures n < 10
  {
    c as int - '0' as int
  }

  /** The length of the run of digits a string opens with. */
  function DigitRun(s: string): (n: nat)
    ensures n <= |s| && AllDigits(s[..n]) && (n < |s| ==> !IsDigit(s[n]))
  {
    if s != [] && IsDigit(s[0]) then
      var n := 1 + DigitRun(s[1..]);
      assert s[..n] == [s[0]] + s[1..][..n - 1];
      n
    else 0
  }

  lemma {:induction false} DigitRunStops(digits: string, rest: string)
    requires AllDigits(digits) && rest != [] && !IsDigit(rest[0])
    ensures DigitRun(digits + rest) == |digits|
  {
    if digits == [] {
      assert digits + rest == rest;
    } else {
      assert (digits + rest)[1..] == digits[1..] + rest;
      DigitRunStops(digits[1..], rest);
    }
  }

  /** `String(n)` for a natural number. */
  function Decimal(n: nat): (s: string)
    ensures s != [] && AllDigits(s)
  {
    if n < 10 then [Digit(n)] else Decimal(n / 10) + [Digit(n % 10)]
  }

  /** `Number.parseInt(s, 10)` on a string of digits. */
  function ParseDecimal(s: string): nat
    requires AllDigits(s)
  {
    if s == [] then 0 else 10 * ParseDecimal(s[..|s| - 1]) + DigitValue(s[|s| - 1])
  }

  lemma {:induction false} ParseOfDecimal(n: nat)
    ensures ParseDecimal(Decimal(n)) == n
  {
    if n >= 10 {
      ParseOfDecimal(n / 10);
      assert Decimal(n)[..|Decimal(n)| - 1] == Decimal(n / 10);
    }
  }

  lemma DecimalInjective(m: nat, n: nat)
    requires Decimal(m) == Decimal(n)
    ensures m == n
  {
    ParseOfDecimal(m);
    ParseOfDecimal(n);
  }

  function PowerOfTen(k: nat): (p: nat)
    ensures p >= 1
  {
    if k == 0 then 1 else 10 * PowerOfTen(k - 1)
  }

  lemma {:induction false} DecimalLength(n: nat, k: nat)
    requires k >= 1 && n < PowerOfTen(k)
    ensures |Decimal(n)| <= k
  {
    if n >= 10 {
      DecimalLength(n / 10, k - 1);
    }
  }

  // ---------------------------------------------------------------- joining

  function Join(parts: seq<string>, sep: string): string {
    if parts == [] then ""
    else if |parts| == 1 then parts[0]
    else parts[0] + sep + Join(parts[1..], sep)
  }

  function Concat(parts: seq<string>): string {
    if parts == [] then "" else parts[0] + Concat(parts[1..])
  }

  lemma {:induction false} ConcatAppend(xs: seq<string>, ys: seq<string>)
    ensures Concat(xs + ys) == Concat(xs) + Concat(ys)
  {
    if xs == [] {
      assert xs + ys == ys;
    } else {
      ConcatAppend(xs[1..], ys);
      assert (xs + ys)[1..] == xs[1..] + ys;
    }
  }

  /** Every joined part is there, character for character. */
  lemma {:induction false} JoinKeepsParts(parts: seq<string>, sep: string, k: nat)
    requires k < |parts|
    ensures Occurs(parts[k], Join(parts, sep))
  {
    if |parts| == 1 {
      assert "" + parts[0] + "" == parts[0];
      OccursInMiddle("", parts[0], "");
    } else if k == 0 {
      assert Join(parts, sep) == "" + parts[0] + (sep + Join(parts[1..], sep));
      OccursInMiddle("", parts[0], sep + Join(parts[1..], sep));
    } else {
      JoinKeepsParts(parts[1..], sep, k - 1);
      OccursWithin(parts[k], parts[0] + sep, Join(parts[1..], sep), "");
      assert parts[0] + sep + Join(parts[1..], sep) + "" == Join(parts, sep);
    }
  }

  lemma OccursWithin(pat: string, left: string, s: string, right: string)
    requires Occurs(pat, s)
    ensures Occurs(pat, left + s + right)
  {
    var at: nat :| OccursAt(pat, s, at);
    var t := left + s + right;
    assert t[|left| + at..|left| + at + |pat|] == s[at..at + |pat|];
    assert OccursAt(pat, t, |left| + at);
  }
}
