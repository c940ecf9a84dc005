/**
 * AbstractD7Cursor: a cursor over a Drupal 7 select query. The query is
 * built once; the first iteration or count applies the cursor's range and
 * sorts to it, runs it and keeps the result; the total count is computed
 * once on a copy of the query. The query is an opaque value: what running
 * it returns is given as a function.
 */
module D7Cursors {
  import opened Wrappers
  import opened Cursors

  /** PHP_INT_MAX on 64-bit PHP, the bulk-load threshold. */
  const PhpIntMax: int := 0x7fff_ffff_ffff_ffff

  /** An ORDER BY clause: a column and "asc" or "desc". */
  datatype Order = Order(column: string, keyword: string)

  /** A select query as the cursor shapes it: the base query, the range applied to it, its ORDER BY clauses. */
  datatype Query = Query(base: nat, range: Option<(int, int)>, orders: seq<Order>)

  /** The materialized result: row ids loaded all at once, or loaded one object at a time while iterating. */
  datatype Materialized = Bulk(ids: seq<nat>) | Lazy(ids: seq<nat>)

  /** The keyword a direction becomes: "asc" for SORT_ASC, "desc" for anything else. */
  function Keyword(direction: int, sortAsc: int): (k: string)
    ensures k == "asc" <==> direction == sortAsc
    ensures k == "asc" || k == "desc"
  {
    if direction == sortAsc then "asc" else "desc"
  }

  /** The ORDER BY clauses for sorts, in insertion order. */
  function OrderClauses(sorts: seq<Sort>, column: string -> string, sortAsc: int): (r: seq<Order>)
    ensures |r| == |sorts|
    ensures forall k :: 0 <= k < |sorts| ==>
      r[k] == Order(column(sorts[k].field), Keyword(sorts[k].direction, sortAsc))
  {
    if sorts == [] then []
    else
      var last := sorts[|sorts| - 1];
      OrderClauses(sorts[..|sorts| - 1], column, sortAsc) + [Order(column(last.field), Keyword(last.direction, sortAsc))]
  }

  /**
   * The query runQuery executes: the base query, with the range
   * (offset, limit) when a limit is set, then one ORDER BY per sort.
   */
  function Prepared(q: Query, limit: int, offset: int, limitNone: int, sorts: seq<Sort>,
                    column: string -> string, sortAsc: int): (r: Query)
    ensures r.base == q.base
    ensures limit != limitNone ==> r.range == Some((offset, limit))
    ensures limit == limitNone ==> r.range == q.range
    ensures |r.orders| == |q.orders| + |sorts| && r.orders[..|q.orders|] == q.orders
    ensures forall k :: 0 <= k < |sorts| ==>
      r.orders[|q.orders| + k] == Order(column(sorts[k].field), Keyword(sorts[k].direction, sortAsc))
  {
    var ranged := if limit != limitNone then q.(range := Some((offset, limit))) else q;
    ranged.(orders := ranged.orders + OrderClauses(sorts, column, sortAsc))
  }

  /**
   * Objects are loaded one at a time when the limit is falsy or above the
   * threshold. With the threshold at PHP_INT_MAX no PHP integer limit is
   * above it, so only a zero limit loads lazily.
   */
  function LoadsLazily(limit: int): (lazy: bool)
    ensures limit <= PhpIntMax ==> (lazy <==> limit == 0)
    ensures limit == 0 ==> lazy
  {
    limit == 0 || PhpIntMax < limit
  }

  /** The sort loop of runQuery: one ORDER BY per sort, in insertion order, after those already there. */
  method ApplySorts(q0: Query, sorts: seq<Sort>, column: string -> string, sortAsc: int) returns (q: Query)
    ensures q == q0.(orders := q0.orders + OrderClauses(sorts, column, sortAsc))
  {
    q := q0;
    var k := 0;
    while k < |sorts|
      invariant k <= |sorts|
      invariant q == q0.(orders := q0.orders + OrderClauses(sorts[..k], column, sortAsc))
    {
      assert sorts[..k + 1][..k] == sorts[..k];
      q := q.(orders := q.orders + [Order(column(sorts[k].field), Keyword(sorts[k].direction, sortAsc))]);
      k := k + 1;
    }
    assert sorts[..k] == sorts;
  }

  class AbstractD7Cursor {
    const cursor: AbstractCursor
    /** What createdQuery() returns. */
    const created: Query
    /** getSortColumn(). */
    const column: string -> string
    /** The row ids a query yields when executed. */
    const execute: Query -> seq<nat>
    /** The value countQuery()->execute()->fetchField() yields for a query. */
    const countOf: Query -> int
    var query: Option<Query>
    var result: Option<Materialized>
    var count: Option<int>
    /** How often createdQuery, execute and the count query have been called. */
    ghost var createdCalls: nat
    ghost var executeCalls: nat
    ghost var countCalls: nat

    constructor(cursor: AbstractCursor, created: Query, column: string -> string,
                execute: Query -> seq<nat>, countOf: Query -> int)
      ensures this.cursor == cursor && this.created == created && this.column == column
      ensures this.execute == execute && this.countOf == countOf
      ensures query.None? && result.None? && count.None?
      ensures createdCalls == 0 && executeCalls == 0 && countCalls == 0
    {
      this.cursor := cursor;
      this.created := created;
      this.column := column;
      this.execute := execute;
      this.countOf := countOf;
      query, result, count := None, None, None;
      createdCalls, executeCalls, countCalls := 0, 0, 0;
    }

    /** The base query, created on first use and reused afterwards. */
    method GetQuery() returns (q: Query)
      modifies this`query, this`createdCalls
      ensures old(query).Some? ==> q == old(query).value && query == old(query) && createdCalls == old(createdCalls)
      ensures old(query).None? ==> q == created && query == Some(q) && createdCalls == old(createdCalls) + 1
    {
      if query.None? {
        query := Some(created);
        createdCalls := createdCalls + 1;
      }
      q := query.value;
    }

    /**
     * The query a first run executes, given the query kept before it: the
     * kept one, or a newly created one, with the range and the sorts applied.
     */
    function PreparedFrom(kept: Option<Query>): Query
      reads cursor
    {
      var base := if kept.Some? then kept.value else created;
      Prepared(base, cursor.limit, cursor.offset, cursor.limitNone, cursor.sorts, column, cursor.sortAsc)
    }

    /** The rows of q, kept for lazy loading or for bulk loading as the limit decides. */
    function Kept(q: Query): Materialized
      reads cursor
    {
      if LoadsLazily(cursor.limit) then Lazy(execute(q)) else Bulk(execute(q))
    }

    /**
     * Runs the query the first time only: applies the range and the sorts to
     * it, executes it and keeps the rows, to be loaded in bulk or lazily.
     * The cursor's run flag is left as it is.
     */
    method RunQuery()
      modifies this`query, this`result, this`createdCalls, this`executeCalls
      ensures old(result).Some? ==>
        result == old(result) && query == old(query) && executeCalls == old(executeCalls)
      ensures old(result).None? ==>
        var q := PreparedFrom(old(query));
        query == Some(q) && executeCalls == old(executeCalls) + 1 && result == Some(Kept(q))
      ensures createdCalls <= 1 + old(createdCalls) && (old(query).Some? ==> createdCalls == old(createdCalls))
    {
      if result.None? {
        var limit := cursor.limit;
        var q := GetQuery();
        if cursor.limitNone != limit {
          q := q.(range := Some((cursor.offset, limit)));
          query := Some(q);
        }
        q := ApplySorts(q, cursor.sorts, column, cursor.sortAsc);
        query := Some(q);
        var rows := execute(q);
        executeCalls := executeCalls + 1;
        if !(limit != 0) || PhpIntMax < limit {
          result := Some(Lazy(rows));
        } else {
          result := Some(Bulk(rows));
        }
      }
    }

    /** The rows of the kept result. */
    function Items(): seq<nat>
      reads this
      requires result.Some?
    {
      result.value.ids
    }

    /** Iteration: the kept result, run first if need be. */
    method GetIterator() returns (items: Materialized)
      modifies this`query, this`result, this`createdCalls, this`executeCalls
      ensures result == Some(items)
      ensures old(result).Some? ==> items == old(result).value && query == old(query) && executeCalls == old(executeCalls)
      ensures old(result).None? ==>
        var q := PreparedFrom(old(query));
        items == Kept(q) && query == Some(q) && executeCalls == old(executeCalls) + 1
    {
      RunQuery();
      items := result.value;
    }

    /** The number of items in the kept result, run first if need be. */
    method Count() returns (n: nat)
      modifies this`query, this`result, this`createdCalls, this`executeCalls
      ensures result.Some? && n == |Items()|
      ensures old(result).Some? ==> result == old(result) && query == old(query) && executeCalls == old(executeCalls)
      ensures old(result).None? ==>
        var q := PreparedFrom(old(query));
        n == |execute(q)| && result == Some(Kept(q)) && query == Some(q) && executeCalls == old(executeCalls) + 1
    {
      RunQuery();
      n := |result.value.ids|;
    }

    /**
     * The total count: computed once, on a copy of the query as it then
     * stands, and returned from the memo afterwards. After a run that query
     * carries the run's range and sorts, so a total taken after iterating
     * counts the ranged query.
     */
    method GetTotalCount() returns (n: int)
      modifies this`query, this`count, this`createdCalls, this`countCalls
      ensures old(count).Some? ==> (n == old(count).value && count == old(count) &&
        query == old(query) && countCalls == old(countCalls))
      ensures old(count).None? ==> (count == Some(n) && countCalls == old(countCalls) + 1 &&
        query.Some? && n == countOf(query.value) &&
        query == (if old(query).Some? then old(query) else Some(created)))
    {
      if count.None? {
        var q := GetQuery();
        var copy := q;
        count := Some(countOf(copy));
        countCalls := countCalls + 1;
      }
      n := count.value;
    }
  }

  /** Counting twice runs the query once, and both counts agree. */
  method CountTwice(c: AbstractD7Cursor) returns (a: nat, b: nat)
    modifies c
    ensures a == b
  {
    ghost var calls := c.executeCalls;
    a := c.Count();
    b := c.Count();
    assert c.executeCalls <= calls + 1;
  }

  /** count() on a cursor that has not run yet is the number of rows its prepared query yields. */
  method CountFreshCursor(c: AbstractD7Cursor) returns (n: nat)
    requires c.query.None? && c.result.None?
    modifies c
    ensures n == |c.execute(Prepared(c.created, c.cursor.limit, c.cursor.offset, c.cursor.limitNone,
                                     c.cursor.sorts, c.column, c.cursor.sortAsc))|
  {
    n := c.Count();
  }
}
