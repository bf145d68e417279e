/** The pagination shown under the list, derived from the current query and
    the total number of matching users the last response reported. */
module Pagination {

  import opened Arith
  import opened Queries

  datatype PageInfo = PageInfo(page: int, hasPrev: bool, hasNext: bool)

  /** Ceiling of n / d: the fewest pages of size d that hold n records. */
  function CeilDiv(n: nat, d: int): (r: nat)
    requires d > 0
    ensures r * d >= n
    ensures (r - 1) * d < n
  {
    CeilDivBounds(n, d);
    (n + d - 1) / d
  }

  lemma CeilDivBounds(n: nat, d: int)
    requires d > 0
    ensures (n + d - 1) / d >= 0
    ensures ((n + d - 1) / d) * d >= n
    ensures ((n + d - 1) / d - 1) * d < n
  {
    var x := n + d - 1;
    var qt, rm := x / d, x % d;
    assert x == qt * d + rm && 0 <= rm < d;
    assert (qt - 1) * d == qt * d - d;
  }

  /** Number of pages needed for all matching users. */
  function TotalPages(total: nat, limit: int): (r: nat)
    requires limit > 0
    ensures total == 0 <==> r == 0
  {
    CeilDiv(total, limit)
  }

  /** The 1-based number of the page the query's window shows. */
  function Page(q: Query): (p: int)
    requires Aligned(q)
    ensures (p - 1) * q.limit == q.offset
  {
    q.offset / q.limit + 1
  }

  /** The page number together with whether the prev and next buttons are enabled. */
  function Derive(q: Query, total: nat): (r: PageInfo)
    requires Aligned(q)
    ensures r.page == Page(q)
    ensures r.hasPrev <==> r.page > 1
    ensures r.hasNext <==> r.page < TotalPages(total, q.limit)
  {
    var page := Page(q);
    PageInfo(page, page > 1, page < TotalPages(total, q.limit))
  }

  /** The page number is 1 exactly on the first window, and a later page
      means a window further on. */
  lemma PageOrder(q: Query)
    requires Aligned(q)
    ensures Page(q) == 1 <==> q.offset == 0
    ensures Page(q) > 1 <==> q.offset > 0
    ensures Page(q) >= 1 <==> q.offset >= 0
  {
    var k := Page(q) - 1;
    if k >= 1 {
      MulMonotone(1, k, q.limit);
    } else if k <= -1 {
      MulMonotone(k, -1, q.limit);
    }
  }

  /** There is a previous page exactly when the window does not start at the first record. */
  lemma HasPrevIff(q: Query, total: nat)
    requires Aligned(q)
    ensures Derive(q, total).hasPrev <==> q.offset > 0
  {
    PageOrder(q);
  }

  /** There is a next page exactly when some matching user lies beyond the current window. */
  lemma HasNextIff(q: Query, total: nat)
    requires Aligned(q)
    ensures Derive(q, total).hasNext <==> q.offset + q.limit < total
  {
    var p: int, t: int := Page(q), TotalPages(total, q.limit);
    assert q.offset + q.limit == p * q.limit;
    if p < t {
      MulMonotone(p, t - 1, q.limit);
    } else {
      MulMonotone(t, p, q.limit);
    }
  }

  /** With no matching users there is never a next page, whatever the page size. */
  lemma NoNextWhenEmpty(q: Query)
    requires Valid(q)
    ensures !Derive(q, 0).hasNext
  {
    HasNextIff(q, 0);
  }

  /** On a reachable query the page number lies between 1 and the number of
      pages, as long as the window shows at least one record. */
  lemma PageInRange(q: Query, total: nat)
    requires Valid(q) && q.offset < total
    ensures 1 <= Page(q) <= TotalPages(total, q.limit)
  {
    PageOrder(q);
    var p: int, t: int := Page(q), TotalPages(total, q.limit);
    if p > t {
      MulMonotone(t, p - 1, q.limit);
    }
  }

  /** The initial query shows page 1 with no previous page. */
  lemma BaseQueryFirstPage(total: nat)
    ensures Derive(BaseQuery, total).page == 1
    ensures !Derive(BaseQuery, total).hasPrev
  {
  }

  /** Changing the name, the age or a positive page size shows page 1 with no previous page. */
  lemma ResetShowsFirstPage(q: Query, name: string, age: string, limit: int, total: nat)
    requires q.limit > 0 && limit > 0
    ensures Derive(WithName(q, name), total).page == 1 && !Derive(WithName(q, name), total).hasPrev
    ensures Derive(WithAge(q, age), total).page == 1 && !Derive(WithAge(q, age), total).hasPrev
    ensures Derive(WithLimit(q, limit), total).page == 1 && !Derive(WithLimit(q, limit), total).hasPrev
  {
  }

  /** Pressing "next" while it is enabled moves to the following page, which
      starts at a matching user, and keeps the query reachable. */
  lemma NextWhenEnabled(q: Query, total: nat)
    requires Valid(q) && Derive(q, total).hasNext
    ensures Valid(NextPage(q))
    ensures Page(NextPage(q)) == Page(q) + 1
    ensures NextPage(q).offset < total
    ensures Derive(NextPage(q), total).hasPrev
  {
    NextKeepsValid(q);
    HasNextIff(q, total);
    var p := Page(q);
    assert NextPage(q).offset == p * q.limit;
    ModOfMultiple(p, q.limit);
    PageOrder(NextPage(q));
  }

  /** Pressing "prev" while it is enabled moves to the preceding page, keeps
      the offset non-negative and the page number at least 1. */
  lemma PrevWhenEnabled(q: Query, total: nat)
    requires Valid(q) && Derive(q, total).hasPrev
    ensures Valid(PrevPage(q))
    ensures Page(PrevPage(q)) == Page(q) - 1 >= 1
  {
    HasPrevIff(q, total);
    PrevKeepsValid(q);
    var p := Page(q);
    assert PrevPage(q).offset == (p - 2) * q.limit;
    ModOfMultiple(p - 2, q.limit);
    PageOrder(PrevPage(q));
  }

  /** Five users per page and twelve matching users: the first window is
      page 1 of 3 with a next page and no previous one. */
  lemma FirstOfThreePages()
    ensures TotalPages(12, 5) == 3
    ensures Derive(BaseQuery, 12) == PageInfo(1, false, true)
  {
  }

  /** Same query on the third window (offset 10): page 3, a previous page, no next one. */
  lemma LastOfThreePages()
    ensures Derive(BaseQuery.(offset := 10), 12) == PageInfo(3, true, false)
  {
  }
}
