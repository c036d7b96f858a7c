/** The edit distance of the benchmark: two rows in place of a table. */
module Levenshtein {

  function Min(a: nat, b: nat): nat { if a < b then a else b }

  /** The distance, by the last character of each side. */
  function Dist<T(==)>(a: seq<T>, b: seq<T>): nat
    decreases |a| + |b|
  {
    if a == [] then |b|
    else if b == [] then |a|
    else
      var m, n := |a| - 1, |b| - 1;
      Min(Min(Dist(a[..m], b) + 1, Dist(a, b[..n]) + 1), Dist(a[..m], b[..n]) + if a[m] == b[n] then 0 else 1)
  }

  /** One row of the table: the distances from `a` to every opening of `b`. */
  ghost predicate IsRow<T>(row: seq<nat>, a: seq<T>, b: seq<T>, n: nat) {
    n <= |b| && |row| == n + 1 && forall j :: 0 <= j <= n ==> row[j] == Dist(a, b[..j])
  }

  lemma RowStep<T>(a: seq<T>, b: seq<T>, i: nat, j: nat)
    requires i < |a| && j < |b|
    ensures Dist(a[..i + 1], b[..j + 1]) ==
            Min(Min(Dist(a[..i], b[..j + 1]) + 1, Dist(a[..i + 1], b[..j]) + 1), Dist(a[..i], b[..j]) + if a[i] == b[j] then 0 else 1)
  {
    assert a[..i + 1][..i] == a[..i] && b[..j + 1][..j] == b[..j];
  }

  method Distance(first: string, second: string) returns (d: nat)
    ensures d == Dist(first, second)
  {
    hide Dist;
    var a, b := first, second;
    if |a| < |b| {
      a, b := b, a;
    }
    var previous: seq<nat> := seq(|b| + 1, k => k);
    assert IsRow(previous, a[..0], b, |b|) by { FirstRow(a, b, previous); }
    for i := 0 to |a|
      invariant IsRow(previous, a[..i], b, |b|)
    {
      var current: seq<nat> := [i + 1];
      assert IsRow(current, a[..i + 1], b, 0) by { FirstOfRow(a, b, i); }
      for j := 0 to |b|
        invariant IsRow(current, a[..i + 1], b, j)
      {
        RowStep(a, b, i, j);
        current := current + [Min(Min(previous[j + 1] + 1, current[j] + 1), previous[j] + if a[i] == b[j] then 0 else 1)];
      }
      previous := current;
    }
    assert a[..|a|] == a && b[..|b|] == b;
    Symmetric(a, b);
    return previous[|previous| - 1];
  }

  lemma FirstRow<T>(a: seq<T>, b: seq<T>, row: seq<nat>)
    requires |row| == |b| + 1 && forall k :: 0 <= k <= |b| ==> row[k] == k
    ensures IsRow(row, a[..0], b, |b|)
  {
  }

  lemma FirstOfRow<T>(a: seq<T>, b: seq<T>, i: nat)
    requires i < |a|
    ensures Dist(a[..i + 1], b[..0]) == i + 1
  {
  }

  // ---------------------------------------------------------------- a distance

  lemma {:induction false} Symmetric<T>(a: seq<T>, b: seq<T>)
    ensures Dist(a, b) == Dist(b, a)
    decreases |a| + |b|
  {
    if a != [] && b != [] {
      var m, n := |a| - 1, |b| - 1;
      Symmetric(a[..m], b);
      Symmetric(a, b[..n]);
      Symmetric(a[..m], b[..n]);
    }
  }

  lemma {:induction false} ZeroIff<T>(a: seq<T>, b: seq<T>)
    ensures Dist(a, b) == 0 <==> a == b
    decreases |a| + |b|
  {
    if a != [] && b != [] {
      var m, n := |a| - 1, |b| - 1;
      ZeroIff(a[..m], b[..n]);
      assert a == a[..m] + [a[m]] && b == b[..n] + [b[n]];
      if a == b {
        assert a[..m] == b[..n] && a[m] == b[n];
      }
    }
  }

  lemma LastStep<T>(a: seq<T>, b: seq<T>)
    requires a != [] && b != []
    ensures var m, n := |a| - 1, |b| - 1;
            var delete, insert, replace := Dist(a[..m], b) + 1, Dist(a, b[..n]) + 1, Dist(a[..m], b[..n]) + if a[m] == b[n] then 0 else 1;
            && Dist(a, b) <= delete && Dist(a, b) <= insert && Dist(a, b) <= replace
            && (Dist(a, b) == delete || Dist(a, b) == insert || Dist(a, b) == replace)
  {
  }

  lemma {:induction false} Triangle<T>(a: seq<T>, b: seq<T>, c: seq<T>)
    ensures Dist(a, c) <= Dist(a, b) + Dist(b, c)
    decreases |a| + |b| + |c|, 1
  {
    if a == [] {
      LengthApart(b, c);
    } else if c == [] {
      LengthApart(a, b);
    } else if b == [] {
      AtMostBoth(a, c);
    } else {
      TriangleStep(a, b, c);
    }
  }

  lemma TriangleStep<T>(a: seq<T>, b: seq<T>, c: seq<T>)
    requires a != [] && b != [] && c != []
    ensures Dist(a, c) <= Dist(a, b) + Dist(b, c)
    decreases |a| + |b| + |c|, 0
  {
    hide Dist;
    var m, n, k := |a| - 1, |b| - 1, |c| - 1;
    LastStep(a, b);
    LastStep(b, c);
    LastStep(a, c);
    Triangle(a[..m], b, c);
    Triangle(a, b[..n], c);
    Triangle(a, b, c[..k]);
    Triangle(a[..m], b[..n], c);
    Triangle(a, b[..n], c[..k]);
    Triangle(a[..m], b[..n], c[..k]);
  }

  lemma {:induction false} LengthApart<T>(a: seq<T>, b: seq<T>)
    ensures Dist(a, b) >= |a| - |b| && Dist(a, b) >= |b| - |a|
    decreases |a| + |b|
  {
    if a != [] && b != [] {
      LengthApart(a[..|a| - 1], b);
      LengthApart(a, b[..|b| - 1]);
      LengthApart(a[..|a| - 1], b[..|b| - 1]);
    }
  }

  lemma {:induction false} AtMostBoth<T>(a: seq<T>, b: seq<T>)
    ensures Dist(a, b) <= |a| + |b|
    decreases |a| + |b|
  {
    if a != [] && b != [] {
      AtMostBoth(a[..|a| - 1], b);
    }
  }

  // ---------------------------------------------------------------- the least script

  datatype Edit<T> = Keep(c: T) | Replace(was: T, now: T) | Insert(c: T) | Delete(c: T)

  function Reads<T>(e: Edit<T>): seq<T> {
    match e
    case Keep(c) => [c]
    case Replace(was, _) => [was]
    case Insert(_) => []
    case Delete(c) => [c]
  }

  function Writes<T>(e: Edit<T>): seq<T> {
    match e
    case Keep(c) => [c]
    case Replace(_, now) => [now]
    case Insert(c) => [c]
    case Delete(_) => []
  }

  /** What a script reads. */
  function Before<T>(script: seq<Edit<T>>): seq<T> {
    if script == [] then []
    else
      Before(script[..|script| - 1]) + Reads(script[|script| - 1])
  }

  /** What a script writes. */
  function After<T>(script: seq<Edit<T>>): seq<T> {
    if script == [] then []
    else
      After(script[..|script| - 1]) + Writes(script[|script| - 1])
  }

  function Cost<T>(script: seq<Edit<T>>): nat {
    if script == [] then 0 else Cost(script[..|script| - 1]) + if script[|script| - 1].Keep? then 0 else 1
  }

  /** No script that turns one side into the other costs less than the distance. */
  lemma {:induction false} NoScriptIsCheaper<T>(script: seq<Edit<T>>)
    ensures Dist(Before(script), After(script)) <= Cost(script)
  {
    if script != [] {
      var front, e := script[..|script| - 1], script[|script| - 1];
      NoScriptIsCheaper(front);
      OneMoreEdit(Before(front), After(front), e);
    }
  }

  lemma OneMoreEdit<T>(a: seq<T>, b: seq<T>, e: Edit<T>)
    ensures Dist(a + Reads(e), b + Writes(e)) <= Dist(a, b) + if e.Keep? then 0 else 1
  {
    var x, y := a + Reads(e), b + Writes(e);
    assert e.Insert? ==> x == a;
    assert e.Delete? ==> y == b;
    assert !e.Insert? ==> x[..|x| - 1] == a;
    assert !e.Delete? ==> y[..|y| - 1] == b;
  }

  /** A script of exactly that cost. */
  function Best<T(==)>(a: seq<T>, b: seq<T>): seq<Edit<T>>
    decreases |a| + |b|
  {
    if a == [] && b == [] then []
    else if a == [] then Best(a, b[..|b| - 1]) + [Insert(b[|b| - 1])]
    else if b == [] then Best(a[..|a| - 1], b) + [Delete(a[|a| - 1])]
    else
      var m, n := |a| - 1, |b| - 1;
      if Dist(a, b) == Dist(a[..m], b) + 1 then Best(a[..m], b) + [Delete(a[m])]
      else if Dist(a, b) == Dist(a, b[..n]) + 1 then Best(a, b[..n]) + [Insert(b[n])]
      else Best(a[..m], b[..n]) + [if a[m] == b[n] then Keep(a[m]) else Replace(a[m], b[n])]
  }

  lemma Extended<T>(script: seq<Edit<T>>, e: Edit<T>)
    ensures Before(script + [e]) == Before(script) + Reads(e)
    ensures After(script + [e]) == After(script) + Writes(e)
    ensures Cost(script + [e]) == Cost(script) + if e.Keep? then 0 else 1
  {
    assert (script + [e])[..|script|] == script;
  }

  /** The distance is the cost of the cheapest script. */
  lemma {:induction false} BestAttainsIt<T>(a: seq<T>, b: seq<T>)
    ensures Before(Best(a, b)) == a && After(Best(a, b)) == b && Cost(Best(a, b)) == Dist(a, b)
    decreases |a| + |b|, 1
  {
    hide Before, After, Cost, Dist;
    if a == [] && b == [] {
      EmptyScript<T>();
      EmptySide(a, b);
    } else if a == [] {
      BestAttainsIt(a, b[..|b| - 1]);
      Extended(Best(a, b[..|b| - 1]), Insert(b[|b| - 1]));
      EmptySide(a, b);
      EmptySide(a, b[..|b| - 1]);
      Glue(b);
    } else if b == [] {
      BestAttainsIt(a[..|a| - 1], b);
      Extended(Best(a[..|a| - 1], b), Delete(a[|a| - 1]));
      EmptySide(a, b);
      EmptySide(a[..|a| - 1], b);
      Glue(a);
    } else {
      BestStep(a, b);
    }
  }

  lemma BestStep<T>(a: seq<T>, b: seq<T>)
    requires a != [] && b != []
    ensures Before(Best(a, b)) == a && After(Best(a, b)) == b && Cost(Best(a, b)) == Dist(a, b)
    decreases |a| + |b|, 0
  {
    hide Before, After, Cost, Dist;
    var m, n := |a| - 1, |b| - 1;
    LastStep(a, b);
    Glue(a);
    Glue(b);
    BestAttainsIt(a[..m], b);
    BestAttainsIt(a, b[..n]);
    BestAttainsIt(a[..m], b[..n]);
    Extended(Best(a[..m], b), Delete(a[m]));
    Extended(Best(a, b[..n]), Insert(b[n]));
    Extended(Best(a[..m], b[..n]), if a[m] == b[n] then Keep(a[m]) else Replace(a[m], b[n]));
  }

  lemma Glue<T>(s: seq<T>)
    ensures s + [] == s && (s != [] ==> s[..|s| - 1] + [s[|s| - 1]] == s)
  {
  }

  lemma EmptyScript<T>()
    ensures Before<T>([]) == [] && After<T>([]) == [] && Cost<T>([]) == 0
  {
  }

  lemma EmptySide<T>(a: seq<T>, b: seq<T>)
    requires a == [] || b == []
    ensures Dist(a, b) == |a| + |b|
  {
  }
}
