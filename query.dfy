/** The query that drives the user list: the name and age filters and the
    pagination window (page size and number of records skipped). Each UI event
    replaces the whole value with a copy in which some fields differ. */
module Queries {

  import opened Arith

  datatype Query = Query(name: string, age: string, limit: int, offset: int)

  /** The query the list starts with: no filters, five users per page, first page. */
  const BaseQuery: Query := Query("", "", 5, 0)

  /** The page sizes the page-size selector offers. */
  const LimitOptions: seq<int> := [4, 8, 16]

  /** The window starts on a page boundary of a positive page size. */
  predicate Aligned(q: Query)
  {
    q.limit > 0 && q.offset % q.limit == 0
  }

  /** What every query the list can reach satisfies: in addition to being
      aligned, the window never starts before the first record. */
  predicate Valid(q: Query)
  {
    Aligned(q) && q.offset >= 0
  }

  /** Typing in the name filter: new name, back to the first page. */
  function WithName(q: Query, name: string): (r: Query)
    ensures r.name == name && r.offset == 0
    ensures r.age == q.age && r.limit == q.limit
  {
    q.(name := name, offset := 0)
  }

  /** Typing in the age filter: new age, back to the first page. */
  function WithAge(q: Query, age: string): (r: Query)
    ensures r.age == age && r.offset == 0
    ensures r.name == q.name && r.limit == q.limit
  {
    q.(age := age, offset := 0)
  }

  /** Choosing a page size: new limit, back to the first page. */
  function WithLimit(q: Query, limit: int): (r: Query)
    ensures r.limit == limit && r.offset == 0
    ensures r.name == q.name && r.age == q.age
  {
    q.(limit := limit, offset := 0)
  }

  /** The "next" button: skip one more page of records. */
  function NextPage(q: Query): (r: Query)
    ensures r.offset == q.offset + q.limit
    ensures r.name == q.name && r.age == q.age && r.limit == q.limit
  {
    q.(offset := q.offset + q.limit)
  }

  /** The "prev" button: skip one page fewer. There is no clamp at zero; the
      button is disabled unless a previous page exists. */
  function PrevPage(q: Query): (r: Query)
    ensures r.offset == q.offset - q.limit
    ensures r.name == q.name && r.age == q.age && r.limit == q.limit
  {
    q.(offset := q.offset - q.limit)
  }

  lemma PrevUndoesNext(q: Query)
    ensures PrevPage(NextPage(q)) == q
  {
  }

  /** Holds for every query, in particular for the interior pages on which
      the prev button is enabled. */
  lemma NextUndoesPrev(q: Query)
    ensures NextPage(PrevPage(q)) == q
  {
  }

  /** A filter or page-size change depends only on the field it sets: applying
      it twice is applying it once, and the two filters commute. */
  lemma FiltersIdempotentAndCommute(q: Query, name: string, age: string, limit: int)
    ensures WithName(WithName(q, name), name) == WithName(q, name)
    ensures WithAge(WithAge(q, age), age) == WithAge(q, age)
    ensures WithLimit(WithLimit(q, limit), limit) == WithLimit(q, limit)
    ensures WithName(WithAge(q, age), name) == WithAge(WithName(q, name), age)
  {
  }

  /** A filter change keeps a query reachable; a page-size change does so for any positive size. */
  lemma ResetKeepsValid(q: Query, name: string, age: string, limit: int)
    requires q.limit > 0 && limit > 0
    ensures Valid(WithName(q, name)) && Valid(WithAge(q, age)) && Valid(WithLimit(q, limit))
  {
  }

  /** Moving forward one page keeps the window on a page boundary. */
  lemma NextKeepsValid(q: Query)
    requires Valid(q)
    ensures Valid(NextPage(q))
  {
    var k := q.offset / q.limit;
    assert q.offset == k * q.limit;
    assert q.offset + q.limit == (k + 1) * q.limit;
    ModOfMultiple(k + 1, q.limit);
  }

  /** Moving back one page from a later page keeps the window on a page boundary. */
  lemma PrevKeepsValid(q: Query)
    requires Valid(q) && q.offset > 0
    ensures Valid(PrevPage(q))
  {
    var k := q.offset / q.limit;
    assert q.offset == k * q.limit;
    assert k >= 1 by {
      if k <= 0 {
        MulMonotone(k, 0, q.limit);
      }
    }
    assert q.offset - q.limit == (k - 1) * q.limit;
    ModOfMultiple(k - 1, q.limit);
  }
}
