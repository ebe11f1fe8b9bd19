/** Ranking helpers shared by the search code paths: a stable descending sort
    by a score, "one result per video, keeping the best score" deduplication,
    and the interplay of cutting a ranked list and thresholding it. */
module Ranking {
  import opened Core

  /** `xs` is in non-increasing order of `key`. */
  predicate SortedDesc<T>(xs: seq<T>, key: T -> real) {
    forall i, j | 0 <= i < j < |xs| :: key(xs[i]) >= key(xs[j])
  }

  /** Inserts `x` in front of the first element whose key is strictly smaller,
      so `x` stays ahead of the elements it ties with (a stable insertion). */
  function InsertDesc<T(==)>(x: T, xs: seq<T>, key: T -> real): (r: seq<T>)
    requires SortedDesc(xs, key)
    ensures SortedDesc(r, key)
    ensures multiset(r) == multiset(xs) + multiset{x}
    ensures |r| == |xs| + 1
    ensures r[0] == x || (|xs| > 0 && r[0] == xs[0])
  {
    if |xs| == 0 || key(x) >= key(xs[0]) then
      ConsSortedHead(x, xs, key);
      [x] + xs
    else
      var rest := InsertDesc(x, xs[1..], key);
      assert xs == [xs[0]] + xs[1..];
      ConsSortedHead(xs[0], rest, key);
      [xs[0]] + rest
  }

  /** A head no smaller than the first element of a descending list keeps it descending. */
  lemma {:induction false} ConsSortedHead<T>(h: T, xs: seq<T>, key: T -> real)
    requires SortedDesc(xs, key) && (|xs| > 0 ==> key(h) >= key(xs[0]))
    ensures SortedDesc([h] + xs, key)
  {
    var r := [h] + xs;
    forall i, j | 0 <= i < j < |r| ensures key(r[i]) >= key(r[j]) {
      if i == 0 {
        assert r[j] == xs[j - 1];
      } else {
        assert r[i] == xs[i - 1] && r[j] == xs[j - 1];
      }
    }
  }

  /** `xs.sort((a, b) => key(b) - key(a))` / `sorted(xs, key=key, reverse=True)`. */
  function SortDesc<T(==)>(xs: seq<T>, key: T -> real): (r: seq<T>)
    ensures SortedDesc(r, key)
    ensures multiset(r) == multiset(xs)
    ensures |r| == |xs|
  {
    if |xs| == 0 then []
    else
      assert xs == [xs[0]] + xs[1..];
      InsertDesc(xs[0], SortDesc(xs[1..], key), key)
  }

  /** Sorting only reorders: the sorted list and the input have the same elements. */
  lemma {:induction false} SortDescMembers<T>(xs: seq<T>, key: T -> real)
    ensures forall j | 0 <= j < |SortDesc(xs, key)| :: SortDesc(xs, key)[j] in xs
    ensures forall j | 0 <= j < |xs| :: xs[j] in SortDesc(xs, key)
  {
    SameMembers(SortDesc(xs, key), xs);
  }

  lemma {:induction false} SortAscMembers<T>(xs: seq<T>, key: T -> real)
    ensures forall j | 0 <= j < |SortAsc(xs, key)| :: SortAsc(xs, key)[j] in xs
    ensures forall j | 0 <= j < |xs| :: xs[j] in SortAsc(xs, key)
  {
    SameMembers(SortAsc(xs, key), xs);
  }

  /** Two lists that are permutations of each other have the same elements. */
  lemma {:induction false} SameMembers<T>(a: seq<T>, b: seq<T>)
    requires multiset(a) == multiset(b)
    ensures forall j | 0 <= j < |a| :: a[j] in b
    ensures forall j | 0 <= j < |b| :: b[j] in a
  {
    forall j | 0 <= j < |a| ensures a[j] in b {
      assert a[j] in multiset(b);
    }
    forall j | 0 <= j < |b| ensures b[j] in a {
      assert b[j] in multiset(a);
    }
  }

  /** Ascending order of `key`. */
  predicate SortedAsc<T>(xs: seq<T>, key: T -> real) {
    forall i, j | 0 <= i < j < |xs| :: key(xs[i]) <= key(xs[j])
  }

  /** `find(...).sort({ key: 1 })`: ascending by `key`. */
  function SortAsc<T(==)>(xs: seq<T>, key: T -> real): (r: seq<T>)
    ensures SortedAsc(r, key)
    ensures multiset(r) == multiset(xs)
    ensures |r| == |xs|
  {
    var neg := (x: T) => -key(x);
    var r := SortDesc(xs, neg);
    assert forall i, j | 0 <= i < j < |r| :: neg(r[i]) >= neg(r[j]);
    r
  }

  // ---------------------------------------------------------------------------
  // One entry per id, keeping the best score.

  /** No two entries share an id. */
  predicate DistinctIds<T>(xs: seq<T>, id: T -> string) {
    forall i, j | 0 <= i < j < |xs| :: id(xs[i]) != id(xs[j])
  }

  /** Index of the entry with id `k`, if any. */
  function IndexOfId<T>(xs: seq<T>, id: T -> string, k: string): (r: Option<nat>)
    ensures r.Some? ==> r.value < |xs| && id(xs[r.value]) == k
    ensures r.None? <==> forall i | 0 <= i < |xs| :: id(xs[i]) != k
  {
    if |xs| == 0 then None
    else if id(xs[|xs| - 1]) == k then Some(|xs| - 1)
    else IndexOfId(xs[..|xs| - 1], id, k)
  }

  /** Some entry of `r` has the id of `x` and a score at least as high. */
  predicate Dominated<T>(x: T, r: seq<T>, id: T -> string, score: T -> real) {
    exists j | 0 <= j < |r| :: id(r[j]) == id(x) && score(r[j]) >= score(x)
  }

  /** One step of the dedup fold: a new id is appended, a known id is
      replaced in place only by a strictly higher score. */
  function KeepBest<T(==)>(acc: seq<T>, x: T, id: T -> string, score: T -> real): (r: seq<T>)
    requires DistinctIds(acc, id)
    ensures DistinctIds(r, id)
    ensures |acc| <= |r| <= |acc| + 1
    ensures forall j | 0 <= j < |r| :: r[j] == x || r[j] in acc
    ensures Dominated(x, r, id, score)
  {
    match IndexOfId(acc, id, id(x))
    case None =>
      assert (acc + [x])[|acc|] == x;
      acc + [x]
    case Some(k) =>
      if score(x) > score(acc[k]) then
        assert acc[k := x][k] == x;
        acc[k := x]
      else
        acc
  }

  /** Whatever the accumulator already dominated stays dominated after a step. */
  lemma {:induction false} KeepBestMonotone<T>(acc: seq<T>, x: T, y: T, id: T -> string, score: T -> real)
    requires DistinctIds(acc, id)
    requires Dominated(y, acc, id, score)
    ensures Dominated(y, KeepBest(acc, x, id, score), id, score)
  {
    var r := KeepBest(acc, x, id, score);
    var j :| 0 <= j < |acc| && id(acc[j]) == id(y) && score(acc[j]) >= score(y);
    match IndexOfId(acc, id, id(x))
    case None =>
      assert r[j] == acc[j];
    case Some(k) =>
      if score(x) > score(acc[k]) && j == k {
        assert r[k] == x;
      } else {
        assert id(r[j]) == id(acc[j]) && score(r[j]) >= score(acc[j]);
      }
  }

  /** Folds `KeepBest` over `xs` from the left: per id, the first occurrence
      fixes the position and the best score wins, earlier entries winning ties. */
  function DedupBest<T(==)>(xs: seq<T>, id: T -> string, score: T -> real): (r: seq<T>)
    ensures DistinctIds(r, id)
    ensures |r| <= |xs|
    ensures forall j | 0 <= j < |r| :: r[j] in xs
    ensures forall i | 0 <= i < |xs| :: Dominated(xs[i], r, id, score)
  {
    if |xs| == 0 then []
    else
      var init := xs[..|xs| - 1];
      var x := xs[|xs| - 1];
      var acc := DedupBest(init, id, score);
      assert xs == init + [x];
      var r := KeepBest(acc, x, id, score);
      forall i | 0 <= i < |xs|
        ensures Dominated(xs[i], r, id, score)
      {
        if i < |init| {
          KeepBestMonotone(acc, x, xs[i], id, score);
        }
      }
      r
  }

  /** Per id, the kept entry has the maximal score among the input entries of
      that id, every input id is represented, and every kept entry is an input. */
  lemma {:induction false} DedupKeepsMaximum<T>(xs: seq<T>, id: T -> string, score: T -> real)
    ensures var r := DedupBest(xs, id, score);
      forall i, j | 0 <= i < |xs| && 0 <= j < |r| && id(xs[i]) == id(r[j]) :: score(xs[i]) <= score(r[j])
  {
    var r := DedupBest(xs, id, score);
    forall i, j | 0 <= i < |xs| && 0 <= j < |r| && id(xs[i]) == id(r[j])
      ensures score(xs[i]) <= score(r[j])
    {
      assert Dominated(xs[i], r, id, score);
      var j' :| 0 <= j' < |r| && id(r[j']) == id(xs[i]) && score(r[j']) >= score(xs[i]);
      assert j' == j;
    }
  }

  /** Deduplicating a list that already has distinct ids changes nothing. */
  lemma {:induction false} DedupDistinctIsIdentity<T>(xs: seq<T>, id: T -> string, score: T -> real)
    requires DistinctIds(xs, id)
    ensures DedupBest(xs, id, score) == xs
  {
    if |xs| > 0 {
      var init, x := xs[..|xs| - 1], xs[|xs| - 1];
      assert xs == init + [x];
      assert DistinctIds(init, id);
      DedupDistinctIsIdentity(init, id, score);
      assert DedupBest(xs, id, score) == KeepBest(init, x, id, score);
      assert forall i | 0 <= i < |init| :: id(init[i]) != id(x) by {
        forall i | 0 <= i < |init| ensures id(init[i]) != id(x) {
          assert init[i] == xs[i];
        }
      }
      assert IndexOfId(init, id, id(x)).None?;
    }
  }

  /** Inserting an entry whose id is new keeps the ids distinct. */
  lemma {:induction false} InsertKeepsDistinctIds<T>(x: T, xs: seq<T>, key: T -> real, id: T -> string)
    requires SortedDesc(xs, key) && DistinctIds(xs, id)
    requires forall k | 0 <= k < |xs| :: id(xs[k]) != id(x)
    ensures DistinctIds(InsertDesc(x, xs, key), id)
  {
    if |xs| > 0 && key(x) < key(xs[0]) {
      var t := xs[1..];
      assert forall k | 0 <= k < |t| :: t[k] == xs[k + 1];
      InsertKeepsDistinctIds(x, t, key, id);
      var rest := InsertDesc(x, t, key);
      assert InsertDesc(x, xs, key) == [xs[0]] + rest;
      forall k | 0 <= k < |rest| ensures id(rest[k]) != id(xs[0]) {
        assert rest[k] in multiset(t) + multiset{x};
        if rest[k] != x {
          assert rest[k] in t;
        }
      }
    } else if |xs| > 0 {
      assert InsertDesc(x, xs, key) == [x] + xs;
    }
  }

  /** Sorting a list whose ids are distinct keeps them distinct. */
  lemma {:induction false} SortPreservesDistinctIds<T>(xs: seq<T>, key: T -> real, id: T -> string)
    requires DistinctIds(xs, id)
    ensures DistinctIds(SortDesc(xs, key), id)
  {
    if |xs| > 0 {
      var t := xs[1..];
      assert forall k | 0 <= k < |t| :: t[k] == xs[k + 1];
      SortPreservesDistinctIds(t, key, id);
      var s := SortDesc(t, key);
      forall k | 0 <= k < |s| ensures id(s[k]) != id(xs[0]) {
        assert s[k] in multiset(t);
        assert s[k] in t;
      }
      InsertKeepsDistinctIds(xs[0], s, key, id);
    }
  }

  /** A prefix of a sorted list with distinct ids is sorted and has distinct ids. */
  lemma {:induction false} PrefixKeepsOrder<T>(xs: seq<T>, p: seq<T>, key: T -> real, id: T -> string)
    requires p <= xs && SortedDesc(xs, key) && DistinctIds(xs, id)
    ensures SortedDesc(p, key) && DistinctIds(p, id)
  {
    assert forall i | 0 <= i < |p| :: p[i] == xs[i];
  }

  /** Filtering keeps a descending list descending. */
  lemma {:induction false} FilterKeepsSorted<T>(xs: seq<T>, p: T -> bool, key: T -> real)
    requires SortedDesc(xs, key)
    ensures SortedDesc(Filter(xs, p), key)
  {
    if |xs| > 0 {
      var tail := xs[1..];
      assert forall i | 0 <= i < |tail| :: tail[i] == xs[i + 1];
      FilterKeepsSorted(tail, p, key);
      if p(xs[0]) {
        var ft := Filter(tail, p);
        assert forall y | y in tail :: key(y) <= key(xs[0]);
        assert forall j | 0 <= j < |ft| :: key(ft[j]) <= key(xs[0]);
        ConsSorted(xs[0], ft, key);
      }
    }
  }

  lemma {:induction false} ConsSorted<T>(x: T, ys: seq<T>, key: T -> real)
    requires SortedDesc(ys, key) && forall j | 0 <= j < |ys| :: key(ys[j]) <= key(x)
    ensures SortedDesc([x] + ys, key)
  {
    assert forall j | 0 < j < |[x] + ys| :: ([x] + ys)[j] == ys[j - 1];
  }

  /** Filtering keeps the ids of a list distinct. */
  lemma {:induction false} FilterKeepsDistinct<T>(xs: seq<T>, p: T -> bool, id: T -> string)
    requires DistinctIds(xs, id)
    ensures DistinctIds(Filter(xs, p), id)
  {
    if |xs| > 0 {
      var tail := xs[1..];
      assert forall i | 0 <= i < |tail| :: tail[i] == xs[i + 1];
      FilterKeepsDistinct(tail, p, id);
      if p(xs[0]) {
        var ft := Filter(tail, p);
        assert forall y | y in tail :: id(y) != id(xs[0]);
        assert forall j | 0 <= j < |ft| :: id(ft[j]) != id(xs[0]);
        ConsDistinct(xs[0], ft, id);
      }
    }
  }

  lemma {:induction false} ConsDistinct<T>(x: T, ys: seq<T>, id: T -> string)
    requires DistinctIds(ys, id) && forall j | 0 <= j < |ys| :: id(ys[j]) != id(x)
    ensures DistinctIds([x] + ys, id)
  {
    assert forall j | 0 < j < |[x] + ys| :: ([x] + ys)[j] == ys[j - 1];
  }

  // ---------------------------------------------------------------------------
  // Cutting a ranked list and filtering it by a threshold.

  /** Sorting the dedup result keeps its per-id maxima: no input entry
      outscores the sorted entry of its id. */
  lemma {:induction false} SortedDedupKeepsMaximum<T>(xs: seq<T>, id: T -> string, score: T -> real, i: nat, j: nat)
    requires i < |xs| && j < |SortDesc(DedupBest(xs, id, score), score)|
    requires id(xs[i]) == id(SortDesc(DedupBest(xs, id, score), score)[j])
    ensures score(xs[i]) <= score(SortDesc(DedupBest(xs, id, score), score)[j])
  {
    var best := DedupBest(xs, id, score);
    var s := SortDesc(best, score);
    assert s[j] in multiset(best);
    var b :| 0 <= b < |best| && best[b] == s[j];
    DedupKeepsMaximum(xs, id, score);
  }

  /** `p` holds on a prefix of `xs` and nowhere after: true for "score above a
      threshold" on a list sorted by descending score. */
  predicate PrefixClosed<T>(xs: seq<T>, p: T -> bool) {
    forall i, j | 0 <= i < j < |xs| :: p(xs[j]) ==> p(xs[i])
  }

  lemma {:induction false} ThresholdIsPrefixClosed<T>(xs: seq<T>, key: T -> real, threshold: real)
    requires SortedDesc(xs, key)
    ensures PrefixClosed(xs, x => key(x) > threshold)
  {
  }

  /** On a prefix-closed predicate, filtering keeps exactly a prefix. */
  lemma {:induction false} FilterIsPrefix<T>(xs: seq<T>, p: T -> bool)
    requires PrefixClosed(xs, p)
    ensures Filter(xs, p) == xs[..|Filter(xs, p)|]
  {
    if |xs| > 0 {
      assert PrefixClosed(xs[1..], p);
      FilterIsPrefix(xs[1..], p);
      if !p(xs[0]) {
        assert forall i | 0 <= i < |xs[1..]| :: !p(xs[1..][i]) by {
          forall i | 0 <= i < |xs[1..]| ensures !p(xs[1..][i]) {
            assert xs[1..][i] == xs[i + 1];
          }
        }
        FilterNone(xs[1..], p);
      }
    }
  }

  lemma {:induction false} FilterNone<T>(xs: seq<T>, p: T -> bool)
    requires forall i | 0 <= i < |xs| :: !p(xs[i])
    ensures Filter(xs, p) == []
  {
    if |xs| > 0 {
      FilterNone(xs[1..], p);
    }
  }

  lemma {:induction false} FilterTake<T>(xs: seq<T>, p: T -> bool, n: nat)
    requires PrefixClosed(xs, p)
    ensures Filter(Take(xs, n), p) == Take(Filter(xs, p), n)
  {
    if |xs| > 0 && n > 0 {
      var t := xs[1..];
      assert xs == [xs[0]] + t;
      assert Take(xs, n) == [xs[0]] + Take(t, n - 1);
      if p(xs[0]) {
        assert PrefixClosed(t, p) by {
          assert forall i | 0 <= i < |t| :: t[i] == xs[i + 1];
        }
        FilterTake(t, p, n - 1);
        FilterTakeKeep(xs[0], t, p, n);
      } else {
        assert forall i | 0 <= i < |t| :: !p(t[i]) by {
          assert forall i | 0 <= i < |t| :: t[i] == xs[i + 1];
        }
        FilterTakeDrop(xs[0], t, p, n);
      }
    }
  }

  /** The step of `FilterTake` when the head is kept. */
  lemma {:induction false} FilterTakeKeep<T>(a: T, t: seq<T>, p: T -> bool, n: nat)
    requires n > 0 && p(a)
    requires Filter(Take(t, n - 1), p) == Take(Filter(t, p), n - 1)
    ensures Filter([a] + Take(t, n - 1), p) == Take(Filter([a] + t, p), n)
  {
    FilterCons(a, Take(t, n - 1), p);
    FilterCons(a, t, p);
    TakeCons(a, Filter(t, p), n);
  }

  lemma {:induction false} TakeCons<T>(a: T, ys: seq<T>, n: nat)
    requires n > 0
    ensures Take([a] + ys, n) == [a] + Take(ys, n - 1)
  {
    if n - 1 < |ys| {
      assert ([a] + ys)[..n] == [a] + ys[..n - 1];
    }
  }

  /** The step of `FilterTake` when the head, and so everything, is dropped. */
  lemma {:induction false} FilterTakeDrop<T>(a: T, t: seq<T>, p: T -> bool, n: nat)
    requires n > 0 && !p(a) && forall i | 0 <= i < |t| :: !p(t[i])
    ensures Filter([a] + Take(t, n - 1), p) == [] && Filter([a] + t, p) == []
  {
    FilterCons(a, Take(t, n - 1), p);
    FilterCons(a, t, p);
    FilterNone(t, p);
    FilterNone(Take(t, n - 1), p);
  }

  lemma {:induction false} FilterCons<T>(a: T, ys: seq<T>, p: T -> bool)
    ensures Filter([a] + ys, p) == if p(a) then [a] + Filter(ys, p) else Filter(ys, p)
  {
    assert ([a] + ys)[1..] == ys;
  }

  lemma {:induction false} FilterAllKept<T>(xs: seq<T>, p: T -> bool)
    requires forall i | 0 <= i < |xs| :: p(xs[i])
    ensures Filter(xs, p) == xs
  {
  }

  /** Sorting by descending score, cutting to `limit` and then keeping scores
      above `threshold` gives the same list as thresholding before the cut. */
  lemma {:induction false} CutThenThreshold<T>(xs: seq<T>, key: T -> real, threshold: real, limit: nat)
    requires SortedDesc(xs, key)
    ensures Filter(Take(xs, limit), x => key(x) > threshold) == Take(Filter(xs, x => key(x) > threshold), limit)
  {
    ThresholdIsPrefixClosed(xs, key, threshold);
    FilterTake(xs, x => key(x) > threshold, limit);
  }

  // ---------------------------------------------------------------------------
  // Top-k: what a cut to `k` leaves out scores no higher than what it keeps.

  /** An element of `xs` missing from the first `k` of the sorted list means
      the cut kept `k` elements, each scoring at least as high. */
  lemma {:induction false} TakeSortedDominates<T>(xs: seq<T>, key: T -> real, k: nat, x: T)
    requires x in xs && x !in Take(SortDesc(xs, key), k)
    ensures |Take(SortDesc(xs, key), k)| == k
    ensures forall j | 0 <= j < k :: key(Take(SortDesc(xs, key), k)[j]) >= key(x)
  {
    var s := SortDesc(xs, key);
    assert x in multiset(s);
    var p :| 0 <= p < |s| && s[p] == x;
    TakeAt(s, k, p);
  }

  /** The same after "one entry per id": an input whose id the cut list lacks
      means the cut kept `k` entries, each scoring at least as high. */
  lemma {:induction false} TakeDedupDominates<T>(xs: seq<T>, id: T -> string, score: T -> real, k: nat, i: nat)
    requires i < |xs|
    requires forall j | 0 <= j < |Take(SortDesc(DedupBest(xs, id, score), score), k)| ::
      id(Take(SortDesc(DedupBest(xs, id, score), score), k)[j]) != id(xs[i])
    ensures |Take(SortDesc(DedupBest(xs, id, score), score), k)| == k
    ensures forall j | 0 <= j < k :: score(Take(SortDesc(DedupBest(xs, id, score), score), k)[j]) >= score(xs[i])
  {
    var d := DedupBest(xs, id, score);
    var t := Take(SortDesc(d, score), k);
    assert Dominated(xs[i], d, id, score);
    var b :| 0 <= b < |d| && id(d[b]) == id(xs[i]) && score(d[b]) >= score(xs[i]);
    assert forall j | 0 <= j < |t| :: t[j] != d[b];
    TakeSortedDominates(d, score, k, d[b]);
  }

  lemma {:induction false} TakeAt<T>(s: seq<T>, k: nat, p: nat)
    requires p < |s|
    ensures p < k ==> p < |Take(s, k)| && Take(s, k)[p] == s[p]
  {
  }
}
