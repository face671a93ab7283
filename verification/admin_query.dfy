/** The query-string handling the admin listing routes share: page and limit
    with their defaults, the offset of a page, the page count, the "ALL"
    sentinel of the exact-match filters and the optional search text. */
module AdminQuery {
  import opened Wrappers
  import opened Seqs
  import Truthy
  import Numbers

  /** Rows skipped before the requested page. */
  function Skip(page: int, limit: int): int {
    (page - 1) * limit
  }

  /** The first page starts at the first row; each page starts one limit
      after the one before it. */
  lemma SkipSteps(page: int, limit: int)
    ensures Skip(1, limit) == 0
    ensures Skip(page + 1, limit) == Skip(page, limit) + limit
  {
  }

  /** With a positive limit, row `i` lies on exactly one page. */
  lemma PageHoldsRow(page: int, limit: int, i: nat)
    requires limit > 0
    ensures Skip(page, limit) <= i < Skip(page, limit) + limit <==> page == i / limit + 1
  {
    var q := i / limit;
    assert q * limit <= i < q * limit + limit;
    if page - 1 < q {
      Numbers.MulLeq(page, q, limit);
    } else if page - 1 > q {
      Numbers.MulLeq(q + 1, page - 1, limit);
    }
  }

  /** `Math.ceil(total / limit)`; a zero limit divides to Infinity or NaN,
      which the JSON reply carries as null (None). */
  function Pages(total: nat, limit: int): (r: Option<int>)
    ensures r.None? <==> limit == 0
    ensures limit > 0 ==> (r.value - 1) * limit < total <= r.value * limit
    ensures limit < 0 ==> r.value * limit <= total < (r.value - 1) * limit
  {
    if limit == 0 then None else Some(Numbers.CeilDiv(total, limit))
  }

  /** With a positive limit every row is on a page between 1 and the page
      count, and every such page starts before the last row. */
  lemma PagesCoverRows(total: nat, limit: int)
    requires limit > 0
    ensures forall i: nat :: i < total ==> 1 <= i / limit + 1 <= Pages(total, limit).value
    ensures forall p :: 1 <= p <= Pages(total, limit).value ==> 0 <= Skip(p, limit) < total
  {
    forall i: nat | i < total
      ensures i / limit + 1 <= Pages(total, limit).value
    {
      RowOnCountedPage(total, limit, i);
    }
    forall p | 1 <= p <= Pages(total, limit).value
      ensures 0 <= Skip(p, limit) < total
    {
      CountedPageStartsInside(total, limit, p);
    }
  }

  lemma RowOnCountedPage(total: nat, limit: int, i: nat)
    requires limit > 0 && i < total
    ensures i / limit + 1 <= Pages(total, limit).value
  {
    var n := Pages(total, limit).value;
    var q := i / limit;
    assert q * limit <= i;
    assert total <= n * limit;
    Numbers.MulLess(q, n, limit);
  }

  lemma CountedPageStartsInside(total: nat, limit: int, p: int)
    requires limit > 0 && 1 <= p <= Pages(total, limit).value
    ensures 0 <= Skip(p, limit) < total
  {
    var n := Pages(total, limit).value;
    assert (n - 1) * limit < total;
    Numbers.MulLeq(0, p - 1, limit);
    Numbers.MulLeq(p - 1, n - 1, limit);
  }

  /** `param || 'ALL'` tested with `!== 'ALL'`: the value an exact-match
      filter is applied with, if any. */
  function ExactFilter(param: Option<string>): (r: Option<string>)
    ensures r.None? <==> !Truthy.Text(param) || param.value == "ALL"
    ensures r.Some? ==> r == param
  {
    if Truthy.Text(param) && param.value != "ALL" then param else None
  }

  predicate Passes(filter: Option<string>, value: string) {
    filter.None? || filter.value == value
  }

  /** The route's reply for a listing: the rows the where-clause selects, in
      store order, with the offset and size of the requested window, and the
      pagination block. */
  datatype Listing<T> = Listing(selected: seq<T>, skip: int, take: int,
                                total: nat, pages: Option<int>, page: int, limit: int)

  /** Pagination of the rows `selects` keeps: page defaults to 1 and limit
      to 10 when absent or empty. */
  function List<T>(selects: T -> bool, rows: seq<T>, page: Option<int>, limit: Option<int>): (r: Listing<T>)
    ensures IsSubsequence(r.selected, rows)
    ensures forall i :: 0 <= i < |r.selected| ==> r.selected[i] in rows && selects(r.selected[i])
    ensures forall i :: 0 <= i < |rows| && selects(rows[i]) ==> rows[i] in r.selected
    ensures r.page == page.GetOr(1) && r.limit == limit.GetOr(10)
    ensures r.take == r.limit && r.skip == Skip(r.page, r.limit)
    ensures r.total == |r.selected| && r.pages == Pages(r.total, r.limit)
  {
    var p := page.GetOr(1);
    var l := limit.GetOr(10);
    var selected := Filter(selects, rows);
    Listing(selected, Skip(p, l), l, |selected|, Pages(|selected|, l), p, l)
  }
}
