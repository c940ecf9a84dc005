/**
 * AbstractCursor: the query-building state every cursor shares. Sorts,
 * limit and offset may be changed only until the cursor has run; the run
 * flag, once set, stays set.
 */
module Cursors {
  import opened Wrappers

  /** One sort request: a field and its direction, kept in the order first requested. */
  datatype Sort = Sort(field: string, direction: int)

  /** The fields sorted on. */
  function Fields(sorts: seq<Sort>): set<string> {
    if sorts == [] then {} else {sorts[0].field} + Fields(sorts[1..])
  }

  /** Every field appears at most once. */
  predicate UniqueFields(sorts: seq<Sort>) {
    sorts == [] || (sorts[0].field !in Fields(sorts[1..]) && UniqueFields(sorts[1..]))
  }

  /** The direction set for field, if any. */
  function DirectionOf(sorts: seq<Sort>, field: string): Option<int> {
    if sorts == [] then None
    else if sorts[0].field == field then Some(sorts[0].direction)
    else DirectionOf(sorts[1..], field)
  }

  /**
   * `$sorts[$field] = $direction` on an ordered PHP array: an existing field
   * keeps its place and takes the new direction, a new one goes at the end.
   */
  function PutSort(sorts: seq<Sort>, field: string, direction: int): (r: seq<Sort>)
    ensures |r| == |sorts| || |r| == |sorts| + 1
  {
    if sorts == [] then [Sort(field, direction)]
    else if sorts[0].field == field then [Sort(field, direction)] + sorts[1..]
    else [sorts[0]] + PutSort(sorts[1..], field, direction)
  }

  /** PutSort adds the field it puts and no other. */
  lemma {:induction false} FieldsOfPut(sorts: seq<Sort>, field: string, direction: int)
    ensures Fields(PutSort(sorts, field, direction)) == Fields(sorts) + {field}
  {
    if sorts != [] {
      FieldsOfPut(sorts[1..], field, direction);
      assert sorts == [sorts[0]] + sorts[1..];
    }
  }

  /** A field has a direction exactly when it is one of the sorts. */
  lemma {:induction false} DirectionOfFields(sorts: seq<Sort>, field: string)
    ensures DirectionOf(sorts, field).Some? <==> field in Fields(sorts)
  {
    if sorts != [] {
      DirectionOfFields(sorts[1..], field);
      assert sorts == [sorts[0]] + sorts[1..];
    }
  }

  /**
   * After PutSort the field maps to the new direction, every other field
   * keeps its direction, no field appears twice, and re-adding a field does
   * not lengthen the list.
   */
  lemma {:induction false} PutSortRules(sorts: seq<Sort>, field: string, direction: int)
    requires UniqueFields(sorts)
    ensures UniqueFields(PutSort(sorts, field, direction))
    ensures DirectionOf(PutSort(sorts, field, direction), field) == Some(direction)
    ensures forall f :: f != field ==> DirectionOf(PutSort(sorts, field, direction), f) == DirectionOf(sorts, f)
    ensures field in Fields(sorts) ==> |PutSort(sorts, field, direction)| == |sorts|
  {
    if sorts != [] {
      var tail := sorts[1..];
      if sorts[0].field != field {
        PutSortRules(tail, field, direction);
        FieldsOfPut(tail, field, direction);
      }
    }
  }

  class AbstractCursor {
    /** getAvailableSorts() of the concrete cursor. */
    const availableSorts: seq<string>
    /** The values of CursorInterface::LIMIT_NONE and SORT_ASC, which are not part of this model. */
    const limitNone: int
    const sortAsc: int
    var run: bool
    var sorts: seq<Sort>
    var limit: int
    var offset: int

    ghost predicate Valid()
      reads this
    {
      UniqueFields(sorts)
    }

    /** A fresh cursor has not run, has no sorts, no limit and offset 0. */
    constructor(availableSorts: seq<string>, limitNone: int, sortAsc: int)
      ensures Valid()
      ensures this.availableSorts == availableSorts && this.limitNone == limitNone && this.sortAsc == sortAsc
      ensures !run && sorts == [] && limit == limitNone && offset == 0
    {
      this.availableSorts := availableSorts;
      this.limitNone := limitNone;
      this.sortAsc := sortAsc;
      run := false;
      sorts := [];
      limit := limitNone;
      offset := 0;
    }

    /**
     * Once run, fails with a LogicException; a field that is not sortable
     * fails with InvalidArgument; otherwise the field takes the direction.
     * A failed call changes nothing.
     */
    method AddSort(sort: string, direction: int) returns (r: Outcome)
      requires Valid()
      modifies this`sorts
      ensures Valid()
      ensures old(run) ==> r.Fail? && r.error.LogicException? && sorts == old(sorts)
      ensures !old(run) && sort !in availableSorts ==> r.Fail? && r.error.InvalidArgument? && sorts == old(sorts)
      ensures !old(run) && sort in availableSorts ==> r == Pass && sorts == PutSort(old(sorts), sort, direction)
      ensures r == Pass ==> DirectionOf(sorts, sort) == Some(direction)
    {
      if run {
        return Fail(LogicException("Query has already been run"));
      }
      if sort !in availableSorts {
        return Fail(InvalidArgument("Sort field is not supported"));
      }
      PutSortRules(sorts, sort, direction);
      sorts := PutSort(sorts, sort, direction);
      r := Pass;
    }

    /** Once run, fails and changes nothing; otherwise sets the limit only. */
    method SetLimit(limit: int) returns (r: Outcome)
      modifies this`limit
      ensures old(run) ==> r.Fail? && r.error.LogicException? && this.limit == old(this.limit)
      ensures !old(run) ==> r == Pass && this.limit == limit
    {
      if run {
        return Fail(LogicException("Query has already been run"));
      }
      this.limit := limit;
      r := Pass;
    }

    /** Once run, fails and changes nothing; otherwise sets the offset only. */
    method SetOffset(offset: int) returns (r: Outcome)
      modifies this`offset
      ensures old(run) ==> r.Fail? && r.error.LogicException? && this.offset == old(this.offset)
      ensures !old(run) ==> r == Pass && this.offset == offset
    {
      if run {
        return Fail(LogicException("Query has already been run"));
      }
      this.offset := offset;
      r := Pass;
    }

    /** Once run, fails and changes nothing; otherwise sets limit and offset. */
    method SetRange(limit: int, offset: int) returns (r: Outcome)
      modifies this`limit, this`offset
      ensures old(run) ==> (r.Fail? && r.error.LogicException? &&
        this.limit == old(this.limit) && this.offset == old(this.offset))
      ensures !old(run) ==> r == Pass && this.limit == limit && this.offset == offset
    {
      if run {
        return Fail(LogicException("Query has already been run"));
      }
      this.limit := limit;
      this.offset := offset;
      r := Pass;
    }

    /** Locks the cursor; there is no way back. */
    method SetHasRun()
      modifies this`run
      ensures run
    {
      run := true;
    }
  }

  /**
   * Once a cursor has run, every mutator fails with a LogicException and
   * leaves it as it was: the outcomes are those of addSort, setLimit,
   * setOffset and setRange, in that order, called after setHasRun.
   */
  method LockedAfterRun(c: AbstractCursor, field: string, direction: int, limit: int, offset: int)
    returns (outcomes: seq<Outcome>)
    requires c.Valid()
    modifies c
    ensures |outcomes| == 4
    ensures forall k :: 0 <= k < |outcomes| ==> outcomes[k].Fail? && outcomes[k].error.LogicException?
    ensures c.run && c.sorts == old(c.sorts) && c.limit == old(c.limit) && c.offset == old(c.offset)
  {
    c.SetHasRun();
    var a := c.AddSort(field, direction);
    var b := c.SetLimit(limit);
    var d := c.SetOffset(offset);
    var e := c.SetRange(limit, offset);
    outcomes := [a, b, d, e];
  }
}
