/** Page/limit handling shared by `getEvents` (controllers/eventController.js)
    and `getAllUsers` (controllers/usercontroller.js): the clamping of the query
    parameters, the window of results a page shows, and the page count reported
    in `meta`. Query values are the integers `parseInt` produced, `None` when the
    parameter was absent or empty. */
module Pagination {
  import opened Outcomes

  const DefaultPage := 1
  const DefaultLimit := 10
  const MaxLimit := 100

  datatype Page = Page(page: int, limit: int, skip: int)

  function Max(a: int, b: int): int { if a >= b then a else b }
  function Min(a: int, b: int): int { if a <= b then a else b }

  /** `page = max(page || 1, 1)`, `limit = min(max(limit || 10, 1), 100)`,
      `skip = (page - 1) * limit`. */
  function Clamp(pageQ: Option<int>, limitQ: Option<int>): (p: Page)
    ensures p.page >= 1 && 1 <= p.limit <= MaxLimit
    ensures p.skip == (p.page - 1) * p.limit && p.skip >= 0
    ensures pageQ.None? ==> p.page == DefaultPage
    ensures limitQ.None? ==> p.limit == DefaultLimit
    ensures pageQ.Some? && pageQ.value >= 1 ==> p.page == pageQ.value
    ensures pageQ.Some? && pageQ.value < 1 ==> p.page == 1
    ensures limitQ.Some? && 1 <= limitQ.value <= MaxLimit ==> p.limit == limitQ.value
    ensures limitQ.Some? && limitQ.value < 1 ==> p.limit == 1
    ensures limitQ.Some? && limitQ.value > MaxLimit ==> p.limit == MaxLimit
  {
    var page := Max(if pageQ.Some? then pageQ.value else DefaultPage, 1);
    var limit := Min(Max(if limitQ.Some? then limitQ.value else DefaultLimit, 1), MaxLimit);
    Page(page, limit, (page - 1) * limit)
  }

  /** `Math.ceil(total / limit)`: the fewest pages of `limit` items that hold them all. */
  function PageCount(total: nat, limit: int): (pages: nat)
    requires limit >= 1
    ensures pages * limit >= total
    ensures pages == 0 || (pages - 1) * limit < total
  {
    (total + limit - 1) / limit
  }

  /** `.skip(skip).limit(limit)` on the sorted results. */
  function Window<T>(items: seq<T>, p: Page): (w: seq<T>)
    requires p.skip >= 0 && p.limit >= 1
    ensures |w| <= p.limit
    ensures p.skip < |items| ==> |w| == Min(p.limit, |items| - p.skip)
    ensures p.skip >= |items| ==> w == []
    ensures forall k :: 0 <= k < |w| ==> w[k] == items[p.skip + k]
  {
    if p.skip >= |items| then [] else items[p.skip .. Min(p.skip + p.limit, |items|)]
  }

  /** Every result is shown on exactly one of the reported pages: item `k` is
      entry `k % limit` of page `k / limit + 1`, and that page is within
      `pages`. */
  lemma EveryItemOnItsPage<T>(items: seq<T>, limit: int, k: nat)
    requires 1 <= limit <= MaxLimit && k < |items|
    ensures var page := k / limit + 1;
            var p := Clamp(Some(page), Some(limit));
            && 1 <= page <= PageCount(|items|, limit)
            && p.skip <= k < p.skip + limit
            && k % limit < |Window(items, p)|
            && Window(items, p)[k % limit] == items[k]
  {
    var q, r := k / limit, k % limit;
    DivMod(k, limit);
    var p := Clamp(Some(q + 1), Some(limit));
    assert p.skip == q * limit;
    var pages := PageCount(|items|, limit);
    if pages <= q {
      MulMonotone(pages, q, limit);
      assert false;
    }
    var w := Window(items, p);
    assert |w| == Min(limit, |items| - p.skip);
    assert w[r] == items[p.skip + r];
  }

  lemma DivMod(k: nat, limit: int)
    requires limit >= 1
    ensures k == (k / limit) * limit + k % limit && 0 <= k % limit < limit && k / limit >= 0
  {
  }

  lemma MulMonotone(a: int, b: int, c: int)
    requires 0 <= a <= b && c >= 0
    ensures a * c <= b * c
  {
  }
}
