/** Small generic helpers shared by every other module: an optional value and
    the few list operations the JavaScript and Python code lean on
    (`filter`, `slice`, `map`). */
module Core {

  /** JavaScript's `null`/`undefined` and Python's `None`. */
  datatype Option<+T> = None | Some(value: T) {
    function GetOr(default: T): T {
      match this
      case Some(v) => v
      case None => default
    }
  }

  /** `xs.filter(p)` / `[x for x in xs if p(x)]`: keeps, in order, the elements satisfying `p`. */
  function Filter<T>(xs: seq<T>, p: T -> bool): (r: seq<T>)
    ensures |r| <= |xs|
    ensures forall i :: 0 <= i < |r| ==> r[i] in xs && p(r[i])
    ensures forall i :: 0 <= i < |xs| && p(xs[i]) ==> xs[i] in r
    ensures (forall i :: 0 <= i < |xs| ==> p(xs[i])) ==> r == xs
  {
    if |xs| == 0 then []
    else if p(xs[0]) then [xs[0]] + Filter(xs[1..], p)
    else Filter(xs[1..], p)
  }

  lemma {:induction false} FilterAppend<T>(xs: seq<T>, ys: seq<T>, p: T -> bool)
    ensures Filter(xs + ys, p) == Filter(xs, p) + Filter(ys, p)
  {
    if |xs| > 0 {
      assert (xs + ys)[1..] == xs[1..] + ys;
      FilterAppend(xs[1..], ys, p);
    } else {
      assert xs + ys == ys;
    }
  }

  /** An element of `xs` that satisfies `p` appears in `Filter(xs, p)` right
      after the satisfying elements before it. */
  lemma {:induction false} FilterAt<T>(xs: seq<T>, p: T -> bool, i: nat)
    requires i < |xs| && p(xs[i])
    ensures Count(xs[..i], p) < |Filter(xs, p)|
    ensures Filter(xs, p)[Count(xs[..i], p)] == xs[i]
  {
    assert xs == xs[..i] + xs[i..];
    FilterAppend(xs[..i], xs[i..], p);
    assert xs[i..][0] == xs[i];
  }

  /** Number of elements of `xs` satisfying `p`. */
  function Count<T>(xs: seq<T>, p: T -> bool): nat
  {
    |Filter(xs, p)|
  }

  /** Filtering with two predicates that agree on every element keeps the same elements. */
  lemma {:induction false} FilterSame<T>(xs: seq<T>, p: T -> bool, q: T -> bool)
    requires forall i :: 0 <= i < |xs| ==> p(xs[i]) == q(xs[i])
    ensures Filter(xs, p) == Filter(xs, q)
  {
    if |xs| > 0 {
      assert forall i :: 0 <= i < |xs[1..]| ==> xs[1..][i] == xs[i + 1];
      FilterSame(xs[1..], p, q);
    }
  }

  /** Filtering keeps nothing when no element passes. */
  lemma {:induction false} FilterNone<T>(xs: seq<T>, p: T -> bool)
    requires forall i :: 0 <= i < |xs| ==> !p(xs[i])
    ensures Filter(xs, p) == []
  {
    if |xs| > 0 {
      assert forall i :: 0 <= i < |xs[1..]| ==> xs[1..][i] == xs[i + 1];
      FilterNone(xs[1..], p);
    }
  }

  /** `xs.map(f)` / `[f(x) for x in xs]`. */
  function Map<T, U>(xs: seq<T>, f: T -> U): (r: seq<U>)
    ensures |r| == |xs|
    ensures forall i :: 0 <= i < |xs| ==> r[i] == f(xs[i])
  {
    seq(|xs|, i requires 0 <= i < |xs| => f(xs[i]))
  }

  lemma {:induction false} MapCons<T, U>(x: T, xs: seq<T>, f: T -> U)
    ensures Map([x] + xs, f) == [f(x)] + Map(xs, f)
  {
  }

  lemma {:induction false} MapAppend<T, U>(xs: seq<T>, ys: seq<T>, f: T -> U)
    ensures Map(xs + ys, f) == Map(xs, f) + Map(ys, f)
  {
    var l, r := Map(xs + ys, f), Map(xs, f) + Map(ys, f);
    forall i | 0 <= i < |l| ensures l[i] == r[i] {
      if i < |xs| {
        assert (xs + ys)[i] == xs[i];
      } else {
        assert (xs + ys)[i] == ys[i - |xs|];
      }
    }
  }

  /** The first element of `xs` occurs in its permutation `ys` at some
      position `j`; removing it there leaves a permutation of the rest of `xs`. */
  lemma {:induction false} PickOut<T>(xs: seq<T>, ys: seq<T>) returns (j: nat)
    requires |xs| > 0 && multiset(xs) == multiset(ys)
    ensures j < |ys| && ys[j] == xs[0]
    ensures ys == ys[..j] + [xs[0]] + ys[j + 1..]
    ensures xs == [xs[0]] + xs[1..]
    ensures multiset(xs[1..]) == multiset(ys[..j] + ys[j + 1..])
  {
    assert xs == [xs[0]] + xs[1..];
    assert xs[0] in multiset(ys);
    j :| 0 <= j < |ys| && ys[j] == xs[0];
    assert ys == ys[..j] + [xs[0]] + ys[j + 1..];
    calc {
      multiset(xs[1..]) + multiset{xs[0]};
      multiset(xs);
      multiset(ys);
      multiset(ys[..j] + ys[j + 1..]) + multiset{xs[0]};
    }
    assert multiset(xs[1..]) == multiset(xs[1..]) + multiset{xs[0]} - multiset{xs[0]};
    assert multiset(ys[..j] + ys[j + 1..]) == multiset(ys[..j] + ys[j + 1..]) + multiset{xs[0]} - multiset{xs[0]};
  }

  /** Mapping a permutation gives a permutation of the mapped list. */
  lemma {:induction false} MapPermutation<T, U>(xs: seq<T>, ys: seq<T>, f: T -> U)
    requires multiset(xs) == multiset(ys)
    ensures multiset(Map(xs, f)) == multiset(Map(ys, f))
    decreases |xs|
  {
    if |xs| == 0 {
      assert |ys| == |multiset(ys)| == 0;
    } else {
      var j := PickOut(xs, ys);
      var x, a, b := xs[0], ys[..j], ys[j + 1..];
      MapPermutation(xs[1..], a + b, f);
      MapCons(x, xs[1..], f);
      MapAppend(a + [x], b, f);
      MapAppend(a, [x], f);
      MapAppend(a, b, f);
      assert Map(ys, f) == Map(a, f) + Map([x], f) + Map(b, f);
      assert Map([x], f) == [f(x)];
      calc {
        multiset(Map(xs, f));
        multiset([f(x)] + Map(xs[1..], f));
        multiset{f(x)} + multiset(Map(a + b, f));
        multiset(Map(a, f)) + multiset{f(x)} + multiset(Map(b, f));
        multiset(Map(ys, f));
      }
    }
  }

  /** A count depends only on which elements there are, not on their order. */
  lemma {:induction false} CountPermutation<T>(xs: seq<T>, ys: seq<T>, p: T -> bool)
    requires multiset(xs) == multiset(ys)
    ensures Count(xs, p) == Count(ys, p)
    decreases |xs|
  {
    if |xs| == 0 {
      assert |ys| == |multiset(ys)| == 0;
    } else {
      var j := PickOut(xs, ys);
      CountPermutation(xs[1..], ys[..j] + ys[j + 1..], p);
      FilterAppend([xs[0]], xs[1..], p);
      FilterAppend(ys[..j] + [xs[0]], ys[j + 1..], p);
      FilterAppend(ys[..j], [xs[0]], p);
      FilterAppend(ys[..j], ys[j + 1..], p);
    }
  }

  /** `xs.slice(0, n)` / `xs[:n]` for a non-negative `n`. */
  function Take<T>(xs: seq<T>, n: nat): (r: seq<T>)
    ensures |r| == if n < |xs| then n else |xs|
    ensures r <= xs
  {
    if n < |xs| then xs[..n] else xs
  }

  /** JavaScript `xs.slice(0, k)`: a negative `k` counts from the end. */
  function JsSliceTo<T>(xs: seq<T>, k: int): (r: seq<T>)
    ensures r <= xs
    ensures k >= 0 ==> r == Take(xs, k)
    ensures k < 0 ==> |r| == if |xs| + k > 0 then |xs| + k else 0
  {
    if k >= 0 then Take(xs, k)
    else if |xs| + k > 0 then xs[..|xs| + k]
    else []
  }

  /** When every element satisfies exactly one of three predicates, the three
      counts add up to the length. */
  lemma {:induction false} CountPartition3<T>(xs: seq<T>, p: T -> bool, q: T -> bool, r: T -> bool)
    requires forall i :: 0 <= i < |xs| ==>
      (p(xs[i]) && !q(xs[i]) && !r(xs[i])) || (!p(xs[i]) && q(xs[i]) && !r(xs[i])) || (!p(xs[i]) && !q(xs[i]) && r(xs[i]))
    ensures Count(xs, p) + Count(xs, q) + Count(xs, r) == |xs|
  {
    if |xs| > 0 {
      assert forall i :: 0 <= i < |xs[1..]| ==> xs[1..][i] == xs[i + 1];
      CountPartition3(xs[1..], p, q, r);
    }
  }

  /** What a command-line script leaves behind: the JSON it printed and its exit status. */
  datatype Exit<J> = Exit(output: J, code: int)

  function Min(a: int, b: int): int { if a <= b then a else b }
  function Max(a: int, b: int): int { if a >= b then a else b }

  // ---------------------------------------------------------------------------
  // Python's round(x, digits)

  function Pow10(d: nat): (p: nat)
    ensures p >= 1
  {
    if d == 0 then 1 else 10 * Pow10(d - 1)
  }

  /** The integer nearest to `y`, a tie going to the even one. */
  function RoundHalfEven(y: real): (n: int)
    ensures -0.5 <= n as real - y <= 0.5
  {
    var f := y.Floor;
    var frac := y - f as real;
    if frac > 0.5 || (frac == 0.5 && f % 2 != 0) then f + 1 else f
  }

  /** Python's `round(x, digits)` on an exact value: the nearest multiple of
      `10^-digits`, a tie going to the even multiple. */
  function PyRound(x: real, digits: nat): real
  {
    RoundScaled(x, Pow10(digits) as real)
  }

  /** `x` rounded to the nearest multiple of `1 / p`. */
  function RoundScaled(x: real, p: real): real
    requires p > 0.0
  {
    RoundHalfEven(x * p) as real / p
  }

  lemma {:induction false} RoundHalfEvenMonotone(x: real, y: real)
    requires x <= y
    ensures RoundHalfEven(x) <= RoundHalfEven(y)
  {
  }

  lemma {:induction false} MulMonotone(x: real, y: real, p: real)
    requires x <= y && p > 0.0
    ensures x * p <= y * p
  {
  }

  lemma {:induction false} DivMonotone(x: real, y: real, p: real)
    requires x <= y && p > 0.0
    ensures x / p <= y / p
  {
    assert x / p * p == x && y / p * p == y;
  }

  lemma {:induction false} RoundScaledMonotone(x: real, y: real, p: real)
    requires x <= y && p > 0.0
    ensures RoundScaled(x, p) <= RoundScaled(y, p)
  {
    RoundProductMonotone(x, y, p);
    IntDivMonotone(RoundHalfEven(x * p), RoundHalfEven(y * p), p);
  }

  lemma {:induction false} RoundProductMonotone(x: real, y: real, p: real)
    requires x <= y && p > 0.0
    ensures RoundHalfEven(x * p) <= RoundHalfEven(y * p)
  {
    MulMonotone(x, y, p);
    RoundHalfEvenMonotone(x * p, y * p);
  }

  lemma {:induction false} IntDivMonotone(m: int, n: int, p: real)
    requires m <= n && p > 0.0
    ensures m as real / p <= n as real / p
  {
    assert m as real <= n as real;
    DivMonotone(m as real, n as real, p);
  }

  /** Rounding never reverses the order of two values. */
  lemma {:induction false} PyRoundMonotone(x: real, y: real, digits: nat)
    requires x <= y
    ensures PyRound(x, digits) <= PyRound(y, digits)
  {
    RoundScaledMonotone(x, y, Pow10(digits) as real);
  }

  lemma {:induction false} RoundWhole(m: int)
    ensures RoundHalfEven(m as real) == m
  {
    assert (m as real).Floor == m;
  }

  lemma {:induction false} RoundScaledExact(x: real, n: int, p: real)
    requires p > 0.0 && x * p == n as real
    ensures RoundScaled(x, p) == x
  {
    RoundWhole(n);
    assert n as real / p == x;
  }

  /** A value that already has at most `digits` decimals is unchanged. */
  lemma {:induction false} PyRoundFixed(x: real, n: int, digits: nat)
    requires x * Pow10(digits) as real == n as real
    ensures PyRound(x, digits) == x
  {
    RoundScaledExact(x, n, Pow10(digits) as real);
  }

  /** Rounding never takes a non-negative value below zero. */
  lemma {:induction false} PyRoundNonNegative(x: real, digits: nat)
    requires x >= 0.0
    ensures PyRound(x, digits) >= 0.0
  {
    PyRoundFixed(0.0, 0, digits);
    PyRoundMonotone(0.0, x, digits);
  }

  /** Rounding keeps a value inside [-1, 1]. */
  lemma {:induction false} PyRoundInUnit(x: real, digits: nat)
    requires -1.0 <= x <= 1.0
    ensures -1.0 <= PyRound(x, digits) <= 1.0
  {
    var p: int := Pow10(digits);
    PyRoundFixed(-1.0, -p, digits);
    PyRoundFixed(1.0, p, digits);
    PyRoundMonotone(-1.0, x, digits);
    PyRoundMonotone(x, 1.0, digits);
  }
}
