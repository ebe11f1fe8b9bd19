/** Page-based listing shared by the video and user listings: reading the
    `page` and `limit` query parameters, MongoDB's `skip`/`limit` window, and
    the pagination block of the response. JavaScript's numbers are modelled
    as exact rationals, so `Math.ceil` and `Math.round` act on exact values. */
module Paging {
  import opened Core
  import opened Text

  /** `parseInt(param) || fallback`: absent, unparseable and zero give the fallback. */
  function IntOr(param: Option<string>, fallback: int): (n: int)
    ensures param.None? ==> n == fallback
    ensures param.Some? && JsParseInt(param.value).Some? && JsParseInt(param.value).value != 0 ==>
      n == JsParseInt(param.value).value
    ensures fallback != 0 ==> n != 0
  {
    if param.None? then fallback
    else match JsParseInt(param.value)
      case None => fallback
      case Some(v) => if v == 0 then fallback else v
  }

  datatype Window = Window(page: int, limit: int, skip: int)

  /** The page and limit a listing reads, with `skip = (page - 1) * limit`. */
  function ReadWindow(pageParam: Option<string>, limitParam: Option<string>): (w: Window)
    ensures w.page != 0 && w.limit != 0 && w.skip == (w.page - 1) * w.limit
    ensures pageParam.None? ==> w.page == 1
    ensures limitParam.None? ==> w.limit == 20
  {
    var page := IntOr(pageParam, 1);
    var limit := IntOr(limitParam, 20);
    Window(page, limit, (page - 1) * limit)
  }

  /** The video listing's bounds: a page from 1 and a limit from 1 to 100. */
  predicate InBounds(w: Window) { w.page >= 1 && 1 <= w.limit <= 100 }

  /** `Math.ceil(x)`. */
  function Ceil(x: real): (c: int)
    ensures c as real >= x && (c - 1) as real < x
  {
    -((-x).Floor)
  }

  /** `Math.round(x)`: halves round up. */
  function Round(x: real): (r: int)
    ensures x - 0.5 < r as real <= x + 0.5
  {
    (x + 0.5).Floor
  }

  datatype Pagination = Pagination(page: int, limit: int, total: nat, totalPages: int, hasNext: bool, hasPrev: bool)

  /** The response's pagination block. */
  function PaginationOf(w: Window, total: nat): Pagination
    requires w.limit != 0
  {
    Pagination(w.page, w.limit, total, Ceil(total as real / w.limit as real),
               w.page * w.limit < total, w.page > 1)
  }

  /** With a positive limit the page count is the integer ceiling of
      `total / limit`, and there is a next page exactly when the current
      page is not the last. */
  lemma {:induction false} PaginationCounts(w: Window, total: nat)
    requires w.limit >= 1 && w.page >= 1
    ensures var p := PaginationOf(w, total);
      p.totalPages == (total + w.limit - 1) / w.limit &&
      (p.totalPages - 1) * w.limit < total <= p.totalPages * w.limit &&
      (p.hasNext <==> w.page < p.totalPages)
  {
    var l := w.limit;
    var q := (total + l - 1) / l;
    CeilOfQuotient(total, l);
    CeilDivBounds(total, l);
    if w.page < q {
      MulMono(w.page, q - 1, l);
    } else {
      MulMono(q, w.page, l);
    }
  }

  lemma {:induction false} MulMono(a: int, b: int, l: int)
    requires a <= b && l >= 0
    ensures a * l <= b * l
  {
    assert b * l - a * l == (b - a) * l;
  }

  /** `q = (t + l - 1) / l` is the least `q` with `q * l >= t`. */
  lemma {:induction false} CeilDivBounds(t: nat, l: int)
    requires l >= 1
    ensures ((t + l - 1) / l - 1) * l < t <= ((t + l - 1) / l) * l
  {
    var q := (t + l - 1) / l;
    var rem := (t + l - 1) % l;
    assert t + l - 1 == q * l + rem && 0 <= rem < l;
    assert (q - 1) * l == q * l - l;
  }

  /** `Math.ceil(t / l)` for a positive `l` is `(t + l - 1) / l`. */
  lemma {:induction false} CeilOfQuotient(t: nat, l: int)
    requires l >= 1
    ensures Ceil(t as real / l as real) == (t + l - 1) / l
  {
    var q := (t + l - 1) / l;
    var x := t as real / l as real;
    var L := l as real;
    CeilDivBounds(t, l);
    var below := (q - 1) * l;
    var above := q * l;
    assert below < t <= above;
    assert below as real < t as real <= above as real;
    assert below as real == (q - 1) as real * L;
    assert above as real == q as real * L;
    assert x * L == t as real;
    RealDivBounds(x, t as real, (q - 1) as real, q as real, L);
    var c := Ceil(x);
    assert (c - 1) as real < x <= c as real;
  }

  lemma {:induction false} RealDivBounds(x: real, t: real, lo: real, hi: real, l: real)
    requires l > 0.0 && x * l == t && lo * l < t <= hi * l
    ensures lo < x <= hi
  {
    assert lo * l < x * l;
    assert x * l <= hi * l;
  }

  /** How many of `total` ordered items a window shows: what remains after
      `skip`, capped by the limit's magnitude unless the limit is 0. */
  function PageLength(total: nat, skip: int, limit: int): nat
  {
    var rest := Max(0, total - skip);
    if limit == 0 then rest else Min(if limit > 0 then limit else -limit, rest)
  }

  /** MongoDB's `.skip(skip).limit(limit)` on an ordered result. A negative
      skip is an error (`None`); limit 0 means no limit, and a negative
      limit returns at most its magnitude. */
  function MongoPage<T>(xs: seq<T>, skip: int, limit: int): (r: Option<seq<T>>)
    ensures r.None? <==> skip < 0
    ensures r.Some? ==> |r.value| <= |xs| && (limit != 0 ==> |r.value| <= if limit > 0 then limit else -limit)
    ensures r.Some? ==> |r.value| == PageLength(|xs|, skip, limit)
    ensures r.Some? && skip < |xs| ==>
      forall i | 0 <= i < |r.value| :: skip + i < |xs| && r.value[i] == xs[skip + i]
    ensures r.Some? && skip >= |xs| ==> r.value == []
  {
    if skip < 0 then None
    else
      var rest := if skip < |xs| then xs[skip..] else [];
      var n := if limit > 0 then limit else -limit;
      Some(if limit == 0 then rest else Take(rest, n))
  }

  /** Every item of a listing shows on exactly one page: item `k` is on
      the page whose window covers it, and that is page `k / limit + 1`. */
  lemma {:induction false} ItemOnOnePage<T>(xs: seq<T>, limit: int, page: int, k: nat)
    requires 1 <= limit && page >= 1 && k < |xs|
    ensures var skip := (page - 1) * limit; var r := MongoPage(xs, skip, limit).value;
      (skip <= k < skip + |r| <==> page == k / limit + 1) &&
      (skip <= k < skip + |r| ==> r[k - skip] == xs[k])
  {
    var skip := (page - 1) * limit;
    var r := MongoPage(xs, skip, limit).value;
    MulMono(0, page - 1, limit);
    assert page * limit == skip + limit;
    var d := k / limit;
    assert k == d * limit + k % limit && 0 <= k % limit < limit;
    assert (d + 1) * limit == d * limit + limit;
    if page - 1 < d {
      MulMono(page, d, limit);
    } else if page - 1 > d {
      MulMono(d + 1, page - 1, limit);
    }
  }
}
