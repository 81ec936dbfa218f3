/**
 * Pagination as the list endpoints do it: the query's `page` and `limit` become LIMIT and OFFSET,
 * the rows come back with the count of every match, and the reply's `totalPages` is
 * `Math.ceil(total / limit)`.
 */
module Pagination {
  import opened Wrappers
  import opened JsText
  import opened Storage

  /** A JavaScript value that is a string or undefined is truthy when it is a non-empty string. */
  predicate Given(v: Option<string>) {
    v.Some? && v.value != ""
  }

  /** A page of rows and the number of rows matching the filters. */
  datatype Page<T> = Page(rows: seq<T>, total: nat)

  /**
   * The LIMIT and OFFSET values PostgreSQL receives: `(page - 1) * limit` and `limit`, or `None` when
   * one of them is NaN, negative or beyond `bigint`, which makes the query fail.
   */
  function Bounds(page: JsNum, limit: JsNum): (r: Option<(nat, nat)>)
    ensures r.Some? <==> page.Int? && limit.Int? && RowCount(limit.value) && RowCount((page.value - 1) * limit.value)
    ensures r.Some? ==> r.value.0 == (page.value - 1) * limit.value && r.value.1 == limit.value
  {
    if page.Int? && limit.Int? && RowCount(limit.value) && RowCount((page.value - 1) * limit.value) then
      Some(((page.value - 1) * limit.value, limit.value))
    else None
  }

  /**
   * `Math.ceil(total / limit)` as the JSON reply carries it, for a limit the query accepted: with a
   * limit of 0 the quotient is Infinity or NaN, which JSON writes as null.
   */
  function TotalPages(total: nat, limit: nat): (r: Option<nat>)
    ensures r.None? <==> limit == 0
  {
    if limit == 0 then None else Some(CeilDiv(total, limit))
  }

  /**
   * The pages numbered 1 to `totalPages` are exactly the pages whose offset falls inside the
   * matches: every match is on one of them and none of them is empty.
   */
  lemma {:induction false} PagesCoverMatches(total: nat, limit: nat, page: int)
    requires limit > 0 && page >= 1
    ensures PageHasRows(total, limit, page) <==> page <= TotalPages(total, limit).value
  {
    var n := TotalPages(total, limit).value;
    if page <= n {
      assert (page - 1) * limit <= (n - 1) * limit by {
        MulMonotone(page - 1, n - 1, limit);
      }
    } else {
      assert n * limit <= (page - 1) * limit by {
        MulMonotone(n, page - 1, limit);
      }
    }
  }

  /** PagesCoverMatches for every page number at once. */
  lemma {:induction false} PagesCoverAll(total: nat, limit: nat)
    requires limit > 0
    ensures forall page :: page >= 1 ==> (PageHasRows(total, limit, page) <==> page <= TotalPages(total, limit).value)
  {
    forall page | page >= 1
      ensures PageHasRows(total, limit, page) <==> page <= TotalPages(total, limit).value
    {
      PagesCoverMatches(total, limit, page);
    }
  }

  /** Page `page` of `limit` rows starts before the last match, so it is not empty. */
  predicate PageHasRows(total: nat, limit: nat, page: int) {
    (page - 1) * limit < total
  }

  lemma {:induction false} MulMonotone(a: int, b: int, c: nat)
    requires a <= b
    ensures a * c <= b * c
  {
  }
}
