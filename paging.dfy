/**
 * Offset pagination of the list queries: the `skip`/`take` window handed to the storage layer and the
 * `pagination` block of the response, where `pages` is `Math.ceil(total / limit)`.
 */
module Paging {
  import opened Wrappers
  import opened JsNumbers
  import opened Errors
  import opened Sorting

  /**
   * A validated window: `page` and `limit` as echoed in the response (`parseInt` of the query values,
   * `None` for NaN), the rows to skip and take, and the divisor `pages` is computed with.
   */
  datatype Window = Window(page: Option<int>, limit: Option<int>, skip: nat, take: nat, divisor: real)

  datatype Pagination = Pagination(page: Option<int>, limit: Option<int>, total: nat, pages: Option<int>)

  function Min(a: int, b: int): int {
    if a <= b then a else b
  }

  /** The rows `skip` .. `skip + take` of `s`, as far as they exist. */
  function Slice<T>(s: seq<T>, skip: nat, take: nat): (r: seq<T>)
    ensures |r| == if skip >= |s| then 0 else Min(take, |s| - skip)
    ensures forall i :: 0 <= i < |r| ==> r[i] == s[skip + i]
  {
    if skip >= |s| then []
    else if skip + take >= |s| then s[skip..]
    else s[skip..skip + take]
  }

  /** A window of rows ordered by a key is ordered by it too. */
  lemma SliceKeepsOrder<T>(s: seq<T>, skip: nat, take: nat, key: T -> int)
    requires SortedDesc(s, key)
    ensures SortedDesc(Slice(s, skip, take), key)
  {
    var r := Slice(s, skip, take);
    forall i, j | 0 <= i < j < |r| ensures key(r[i]) >= key(r[j]) {
      assert r[i] == s[skip + i] && r[j] == s[skip + j];
    }
  }

  /** `Math.ceil(x)`. */
  function Ceil(x: real): (r: int)
    ensures (r - 1) as real < x <= r as real
  {
    -((-x).Floor)
  }

  /** `Math.ceil(total / limit)`, with `None` for the Infinity or NaN a zero limit gives (JSON `null`). */
  function PageCount(total: nat, limit: real): (r: Option<int>)
    ensures r.None? <==> limit == 0.0
    ensures limit > 0.0 ==> r.Some? && (r.value - 1) as real * limit < total as real <= r.value as real * limit
  {
    if limit == 0.0 then None
    else
      var c := Ceil(total as real / limit);
      if limit > 0.0 then CeilScaled(total as real, limit, c); Some(c)
      else Some(c)
  }

  lemma CeilScaled(x: real, d: real, c: int)
    requires d > 0.0 && (c - 1) as real < x / d <= c as real
    ensures (c - 1) as real * d < x <= c as real * d
  {
    assert x == (x / d) * d;
  }

  function PaginationOf(w: Window, total: nat): Pagination {
    Pagination(w.page, w.limit, total, PageCount(total, w.divisor))
  }

  /**
   * The transaction lists' window: `skip = (parseInt(page) - 1) * parseInt(limit)` and
   * `take = parseInt(limit)`, where the caller supplies `page` 1 and `limit` 50 when the query omits them. A NaN or negative
   * `skip` is refused by the storage layer. A negative `take`, which the storage layer would read backwards from
   * the end, is refused here as well.
   */
  function TransactionWindow(page: string, limit: string): (r: Outcome<Window>)
    ensures r.Ok? <==> ParseInt(page).Some? && ParseInt(limit).Some? && ParseInt(limit).value >= 0 &&
                       (ParseInt(page).value - 1) * ParseInt(limit).value >= 0
    ensures r.Ok? ==> var p := ParseInt(page).value;
                      var l := ParseInt(limit).value;
                      r.value == Window(Some(p), Some(l), (p - 1) * l, l, l as real)
    ensures r.Err? ==> r.error == StorageRejected()
  {
    var p := ParseInt(page);
    var l := ParseInt(limit);
    if p.None? || l.None? then Err(StorageRejected())
    else if l.value < 0 || (p.value - 1) * l.value < 0 then Err(StorageRejected())
    else Ok(Window(Some(p.value), Some(l.value), (p.value - 1) * l.value, l.value, l.value as real))
  }

  /**
   * The user list's window: `skip = (page - 1) * limit` in JavaScript's numeric coercion, passed through
   * `parseInt` (which truncates it), `take = parseInt(limit)`, and `pages` divides by the coerced limit.
   */
  function UserWindow(page: string, limit: string): (r: Outcome<Window>)
    ensures r.Ok? <==> ToNumber(page).Some? && ToNumber(limit).Some? && ParseInt(limit).Some? &&
                       ParseInt(limit).value >= 0 && SkipOf(ToNumber(page).value, ToNumber(limit).value) >= 0
    ensures r.Ok? ==> r.value == Window(ParseInt(page), ParseInt(limit), SkipOf(ToNumber(page).value, ToNumber(limit).value),
                                        ParseInt(limit).value, ToNumber(limit).value)
    ensures r.Err? ==> r.error == StorageRejected()
  {
    var pn := ToNumber(page);
    var ln := ToNumber(limit);
    var l := ParseInt(limit);
    if pn.None? || ln.None? || l.None? then Err(StorageRejected())
    else
      var skip := SkipOf(pn.value, ln.value);
      if skip < 0 || l.value < 0 then Err(StorageRejected())
      else Ok(Window(ParseInt(page), l, skip, l.value, ln.value))
  }

  /** `parseInt((page - 1) * limit)` on numbers: the product, truncated. */
  function SkipOf(page: real, limit: real): int {
    Trunc((page - 1.0) * limit)
  }

  /**
   * Pages of `limit` rows cover the results: row `i` is row `i % limit` of page `i / limit + 1`, and that
   * page is within the page count.
   */
  lemma PageOfRow<T>(s: seq<T>, limit: nat, i: nat)
    requires limit > 0 && i < |s|
    ensures var page := i / limit + 1;
            var onPage := Slice(s, (page - 1) * limit, limit);
            i % limit < |onPage| && onPage[i % limit] == s[i] &&
            1 <= page <= PageCount(|s|, limit as real).value
  {
    var page := i / limit + 1;
    var skip := (page - 1) * limit;
    DivFacts(i, limit);
    assert skip + i % limit == i;
    var c := PageCount(|s|, limit as real).value;
    RealMul(c, limit);
    assert i < c * limit;
    MulLt(i / limit, c, limit);
  }

  lemma RealMul(a: int, b: int)
    ensures a as real * b as real == (a * b) as real
  {
  }

  lemma DivFacts(i: nat, l: nat)
    requires l > 0
    ensures (i / l) * l + i % l == i && i % l < l
  {
  }

  lemma MulLt(a: int, b: int, l: nat)
    requires l > 0 && a * l < b * l
    ensures a < b
  {
  }
}
