/**
 * CursorWorker: applies a callback to each item a cursor yields, until the
 * cursor runs out or a memory or time budget is exceeded. The budgets come
 * from the memory_limit and max_execution_time settings, less a safety
 * margin, and are checked only every 50 iterations.
 */
module Workers {
  import opened Wrappers
  import opened PhpValues

  /** Iterations run between two budget checks. */
  const BlindIterations: nat := 50

  // ---- memory_limit ------------------------------------------------------------

  /**
   * The memory_limit setting in bytes, None meaning no limit: "-1" (compared
   * as a number) is no limit, an integer string is taken as it is, and an
   * integer followed by k, m or g (any case) is multiplied by 1024 once,
   * twice or three times (the switch falls through from g to m to k);
   * anything else is no limit.
   */
  function ParseMemoryLimit(setting: string): (r: Option<int>)
    ensures var s := Trim(setting);
      r.None? <==> ((IsIntegerString(s) && IntegerValue(s) == -1) ||
                    (!IsIntegerString(s) && (s == [] || LowerChar(s[|s| - 1]) !in "kmg")))
    ensures IsIntegerString(Trim(setting)) && r.Some? ==> r.value == IntegerValue(Trim(setting))
    ensures !IsIntegerString(Trim(setting)) && r.Some? ==> r.value % 1024 == 0
  {
    var s := Trim(setting);
    if IsIntegerString(s) && IntegerValue(s) == -1 then None
    else if IsIntegerString(s) then Some(IntegerValue(s))
    else if s == [] then None
    else
      var unit := LowerChar(s[|s| - 1]);
      if unit == 'g' then KibiMultiple(LeadingInteger(s) * 1024 * 1024); Some(LeadingInteger(s) * 1024 * 1024 * 1024)
      else if unit == 'm' then KibiMultiple(LeadingInteger(s) * 1024); Some(LeadingInteger(s) * 1024 * 1024)
      else if unit == 'k' then KibiMultiple(LeadingInteger(s)); Some(LeadingInteger(s) * 1024)
      else None
  }

  /** A whole number of kibibytes is a multiple of 1024. */
  lemma KibiMultiple(n: int)
    ensures (n * 1024) % 1024 == 0
  {
  }

  /** A string ending in a letter is not an integer string. */
  lemma NotIntegerWithUnit(digits: string, unit: char)
    requires !IsDigit(unit)
    ensures !IsIntegerString(digits + [unit])
  {
    var s := digits + [unit];
    assert s[|s| - 1] == unit;
    if |s| > 1 {
      assert s[1..][|s| - 2] == unit;
    }
  }

  /** An integer and a unit letter read back as that many kilo-, mega- or gigabytes. */
  lemma ParseWithUnit(n: int, unit: char)
    requires unit in "kKmMgG"
    ensures ParseMemoryLimit(IntToString(n) + [unit]) ==
      Some(n * if LowerChar(unit) == 'k' then 1024
              else if LowerChar(unit) == 'm' then 1024 * 1024
              else 1024 * 1024 * 1024)
  {
    var s := IntToString(n) + [unit];
    assert s[0] == IntToString(n)[0];
    assert s[|s| - 1] == unit;
    TrimKeeps(s);
    NotIntegerWithUnit(IntToString(n), unit);
    LeadingIntegerOfSuffixed(n, [unit]);
  }

  /** A plain integer setting is taken as it is, except -1, which means no limit. */
  lemma ParsePlain(n: int)
    ensures ParseMemoryLimit(IntToString(n)) == if n == -1 then None else Some(n)
  {
    var s := IntToString(n);
    IntToStringRoundTrip(n);
    assert s[0] == '-' || IsDigit(s[0]);
    TrimKeeps(s);
  }

  /** Any other last letter means no limit. */
  lemma ParseOtherUnit(n: int, unit: char)
    requires !IsDigit(unit) && !IsTrimChar(unit) && LowerChar(unit) !in "kmg"
    ensures ParseMemoryLimit(IntToString(n) + [unit]) == None
  {
    var s := IntToString(n) + [unit];
    assert s[0] == IntToString(n)[0];
    assert s[|s| - 1] == unit;
    IntToStringRoundTrip(n);
    assert s[0] == '-' || IsDigit(s[0]);
    TrimKeeps(s);
    NotIntegerWithUnit(IntToString(n), unit);
  }

  // ---- the budgets -----------------------------------------------------------------

  /** floor(v * 0.85), with the float product taken exactly. */
  function MemoryBudget(limit: Option<int>): (r: Option<int>)
    ensures r.None? <==> limit.None?
    ensures limit.Some? && limit.value >= 0 ==> 0 <= r.value <= limit.value
    ensures limit.Some? ==> 100 * r.value <= 85 * limit.value < 100 * r.value + 100
  {
    if limit.None? then None else Some((limit.value * 85) / 100)
  }

  /** The deadline as written: now + floor(max_execution_time * 0.80). */
  function TimeDeadlineAsWritten(now: int, maxExecutionTime: int): (r: int)
    ensures maxExecutionTime >= 0 ==> now <= r <= now + maxExecutionTime
    ensures 100 * (r - now) <= 80 * maxExecutionTime < 100 * (r - now) + 100
  {
    now + (maxExecutionTime * 80) / 100
  }

  /** The deadline as intended: a max_execution_time of 0 means no time limit. */
  function TimeDeadline(now: int, maxExecutionTime: int): (r: Option<int>)
    ensures r.None? <==> maxExecutionTime == 0
    ensures r.Some? ==> r.value == TimeDeadlineAsWritten(now, maxExecutionTime)
  {
    if maxExecutionTime == 0 then None else Some(TimeDeadlineAsWritten(now, maxExecutionTime))
  }

  /** The limits process() checks: bytes of memory and a time, None meaning none. */
  datatype Budget = Budget(memory: Option<int>, deadline: Option<int>)

  /** The check on iteration i, where usage(i) and clock(i) are memory_get_usage() and time() then. */
  predicate Exceeded(b: Budget, i: nat, clock: nat -> int, usage: nat -> int) {
    (b.memory.Some? && b.memory.value < usage(i)) || (b.deadline.Some? && b.deadline.value < clock(i))
  }

  // ---- the processing loop -------------------------------------------------------

  /** How a run ends: all done or stopped by a budget; the items handled; the cursor's position. */
  datatype Finish = Finish(complete: bool, handled: nat, pointer: nat)

  /**
   * The run of process() from item pos after i iterations: each iteration
   * first checks the budgets when its number is a multiple of 50, then asks
   * the cursor for an item; a truthy one is handled, anything else ends the
   * run as complete.
   */
  function Run(items: seq<Value>, pos: nat, i: nat, b: Budget, clock: nat -> int, usage: nat -> int): (f: Finish)
    requires pos <= |items|
    ensures pos <= f.handled <= f.pointer <= |items|
    ensures !f.complete ==> f.handled == f.pointer
    decreases |items| - pos
  {
    var next := i + 1;
    if next % BlindIterations == 0 && Exceeded(b, next, clock, usage) then Finish(false, pos, pos)
    else if pos < |items| && Truthy(items[pos]) then Run(items, pos + 1, next, b, clock, usage)
    else Finish(true, pos, if pos < |items| then pos + 1 else pos)
  }

  /**
   * A run hands truthy items only, and a complete run has reached the end
   * or the first falsy item, which the cursor has then been moved past.
   */
  lemma {:induction false} RunHandlesTruthy(items: seq<Value>, pos: nat, i: nat, b: Budget, clock: nat -> int, usage: nat -> int)
    requires pos <= |items|
    ensures var f := Run(items, pos, i, b, clock, usage);
      (forall k :: pos <= k < f.handled ==> Truthy(items[k])) &&
      (f.complete ==> (f.handled == |items| && f.pointer == |items|) ||
                      (!Truthy(items[f.handled]) && f.pointer == f.handled + 1))
    decreases |items| - pos
  {
    var next := i + 1;
    if !(next % BlindIterations == 0 && Exceeded(b, next, clock, usage)) && pos < |items| && Truthy(items[pos]) {
      RunHandlesTruthy(items, pos + 1, next, b, clock, usage);
    }
  }

  /** Within budget at every check, a run handles every item up to the first falsy one. */
  lemma {:induction false} RunWithinBudget(items: seq<Value>, pos: nat, i: nat, b: Budget, clock: nat -> int, usage: nat -> int)
    requires pos <= |items|
    requires forall j :: i < j ==> !Exceeded(b, j, clock, usage)
    ensures Run(items, pos, i, b, clock, usage).complete
    decreases |items| - pos
  {
    if pos < |items| && Truthy(items[pos]) {
      RunWithinBudget(items, pos + 1, i + 1, b, clock, usage);
    }
  }

  /** A run stops early only at a check, on an iteration numbered by a multiple of 50, that finds a budget exceeded. */
  lemma {:induction false} RunStopsAtCheck(items: seq<Value>, pos: nat, i: nat, b: Budget, clock: nat -> int, usage: nat -> int)
    requires pos <= |items|
    requires !Run(items, pos, i, b, clock, usage).complete
    ensures exists j :: i < j && j % BlindIterations == 0 && Exceeded(b, j, clock, usage)
    decreases |items| - pos
  {
    var next := i + 1;
    if next % BlindIterations == 0 && Exceeded(b, next, clock, usage) {
    } else {
      RunStopsAtCheck(items, pos + 1, next, b, clock, usage);
    }
  }

  /** The first 49 iterations check nothing: a run that ends within them is complete whatever the budgets. */
  lemma {:induction false} BlindRun(items: seq<Value>, pos: nat, i: nat, b: Budget, clock: nat -> int, usage: nat -> int)
    requires pos <= |items|
    requires i + (|items| - pos) + 1 < BlindIterations
    ensures Run(items, pos, i, b, clock, usage).complete
    decreases |items| - pos
  {
    if pos < |items| && Truthy(items[pos]) {
      BlindRun(items, pos + 1, i + 1, b, clock, usage);
    }
  }

  /**
   * With the deadline as written, a max_execution_time of 0 puts the
   * deadline at the start time: once the clock has moved on by iteration 50,
   * a run over at least 50 truthy items stops there.
   */
  lemma {:induction false} ZeroTimeLimitStops(items: seq<Value>, pos: nat, i: nat, now: int, clock: nat -> int, usage: nat -> int)
    requires i < BlindIterations && pos + BlindIterations - i <= |items|
    requires forall k :: pos <= k < pos + BlindIterations - i ==> Truthy(items[k])
    requires clock(BlindIterations) > now
    ensures !Run(items, pos, i, Budget(None, Some(TimeDeadlineAsWritten(now, 0))), clock, usage).complete
    decreases BlindIterations - i
  {
    if i + 1 < BlindIterations {
      ZeroTimeLimitStops(items, pos + 1, i + 1, now, clock, usage);
    }
  }

  /** With the intended deadline and no memory limit, a max_execution_time of 0 never stops a run. */
  lemma ZeroTimeLimitIntended(items: seq<Value>, pos: nat, i: nat, now: int, clock: nat -> int, usage: nat -> int)
    requires pos <= |items|
    ensures Run(items, pos, i, Budget(None, TimeDeadline(now, 0)), clock, usage).complete
  {
    RunWithinBudget(items, pos, i, Budget(None, TimeDeadline(now, 0)), clock, usage);
  }

  // ---- process() as written --------------------------------------------------------

  /** What a call returns, or that the stack ran out first. */
  datatype CallResult = Returned(value: bool) | StackOverflow | LaterIteration

  /**
   * process() as written, given how many nested calls the stack still has
   * room for. Its first iteration is number 1, which is not a multiple of
   * 50, so it checks no budget and calls process() again (where
   * processSingle() was meant); LaterIteration stands for the loop going on
   * after that call returns true. Whatever the budgets, the stack runs out.
   */
  function ProcessAsWritten(room: nat): (r: CallResult)
    ensures r == StackOverflow
    decreases room
  {
    if room == 0 then StackOverflow
    else
      var deeper := ProcessAsWritten(room - 1);
      match deeper
      case Returned(inner) => if !inner then Returned(true) else LaterIteration
      case other => other
  }

  /**
   * PHP's next() over a sequence of values whose internal pointer is at p
   * (|items| meaning past the end): the pointer moves on first, and the
   * result is the value it then points at, or false past the end. The
   * worker's cursor is an object, and next() on an object steps through its
   * property table the same way, so items stands for those property values;
   * reading them as the cursor's items is an idealisation.
   */
  function NextAsWritten(items: seq<Value>, p: nat): (r: (nat, Value))
    requires p <= |items|
    ensures r.0 == if p < |items| then p + 1 else p
    ensures r.0 <= |items|
    ensures r.1 == if r.0 < |items| then items[r.0] else Bool(false)
  {
    if p < |items| then (p + 1, if p + 1 < |items| then items[p + 1] else Bool(false))
    else (p, Bool(false))
  }

  /**
   * The items processSingle() as written hands to the callback, called
   * again and again from pointer p until next() gives a falsy value.
   */
  function HandedAsWritten(items: seq<Value>, p: nat): seq<Value>
    requires p <= |items|
    decreases |items| - p
  {
    var (q, v) := NextAsWritten(items, p);
    if Truthy(v) then [v] + HandedAsWritten(items, q) else []
  }

  /**
   * As written, truthy values at pointer p are handed out from the one
   * after p on, never the one at p: from a fresh start, the first is skipped.
   */
  lemma {:induction false} FirstItemSkipped(items: seq<Value>, p: nat)
    requires p < |items|
    requires forall k :: 0 <= k < |items| ==> Truthy(items[k])
    ensures HandedAsWritten(items, p) == items[p + 1..]
    decreases |items| - p
  {
    if p + 1 < |items| {
      FirstItemSkipped(items, p + 1);
      assert items[p + 1..] == [items[p + 1]] + items[p + 2..];
    }
  }

  /** The items handed between two positions grow by one item as the upper position advances. */
  lemma SliceGrows(items: seq<Value>, start: nat, end: nat)
    requires start <= end < |items|
    ensures items[start..end + 1] == items[start..end] + [items[end]]
  {
  }

  // ---- the worker --------------------------------------------------------------------

  class CursorWorker {
    /** The items the cursor yields, in order. */
    const items: seq<Value>
    /** How many items the cursor has handed out. */
    var pointer: nat
    /** The items passed to the callback so far, in order. */
    var processed: seq<Value>

    ghost predicate Valid()
      reads this
    {
      pointer <= |items|
    }

    constructor(items: seq<Value>)
      ensures Valid() && this.items == items && pointer == 0 && processed == []
    {
      this.items := items;
      pointer := 0;
      processed := [];
    }

    /**
     * Handles one item: when the cursor yields a truthy item the callback
     * gets it and the answer is true; otherwise nothing is called and the
     * answer is false.
     */
    method ProcessSingle() returns (handled: bool)
      requires Valid()
      modifies this`pointer, this`processed
      ensures Valid()
      ensures handled <==> old(pointer) < |items| && Truthy(items[old(pointer)])
      ensures handled ==> processed == old(processed) + [items[old(pointer)]] && pointer == old(pointer) + 1
      ensures !handled ==> (processed == old(processed) &&
        pointer == if old(pointer) < |items| then old(pointer) + 1 else old(pointer))
    {
      if pointer < |items| {
        var item := items[pointer];
        pointer := pointer + 1;
        if Truthy(item) {
          processed := processed + [item];
          return true;
        }
      }
      handled := false;
    }

    /**
     * process() as documented, calling processSingle() in its loop. The
     * settings are memory_limit and max_execution_time; now is time() at the
     * start, and clock(i) and usage(i) are time() and memory_get_usage() at
     * iteration i. The answer and the items handled are those of Run.
     */
    method Process(memoryLimit: string, maxExecutionTime: int, now: int, clock: nat -> int, usage: nat -> int)
      returns (complete: bool)
      requires Valid()
      modifies this`pointer, this`processed
      ensures Valid()
      ensures var f := Run(items, old(pointer), 0,
          Budget(MemoryBudget(ParseMemoryLimit(memoryLimit)), TimeDeadline(now, maxExecutionTime)), clock, usage);
        complete == f.complete && pointer == f.pointer && processed == old(processed) + items[old(pointer)..f.handled]
    {
      var memLimit := MemoryBudget(ParseMemoryLimit(memoryLimit));
      var timeLimit := TimeDeadline(now, maxExecutionTime);
      complete := ProcessWithin(memLimit, timeLimit, clock, usage);
    }

    /**
     * The loop of process() once the limits are known: memLimit is the
     * memory allowed and timeLimit the deadline, each None when unlimited.
     */
    method ProcessWithin(memLimit: Option<int>, timeLimit: Option<int>, clock: nat -> int, usage: nat -> int)
      returns (complete: bool)
      requires Valid()
      modifies this`pointer, this`processed
      ensures Valid()
      ensures var f := Run(items, old(pointer), 0, Budget(memLimit, timeLimit), clock, usage);
        complete == f.complete && pointer == f.pointer && processed == old(processed) + items[old(pointer)..f.handled]
    {
      ghost var budget := Budget(memLimit, timeLimit);
      ghost var start := pointer;
      var i := 0;
      while true
        invariant Valid() && start <= pointer
        invariant Run(items, start, 0, budget, clock, usage) == Run(items, pointer, i, budget, clock, usage)
        invariant processed == old(processed) + items[start..pointer]
        decreases |items| - pointer
      {
        i := i + 1;
        if i % BlindIterations == 0 {
          if (memLimit.Some? && memLimit.value < usage(i)) || (timeLimit.Some? && timeLimit.value < clock(i)) {
            assert Run(items, pointer, i - 1, budget, clock, usage) == Finish(false, pointer, pointer);
            return false;
          }
        }
        assert !(i % BlindIterations == 0 && Exceeded(budget, i, clock, usage));
        ghost var before := pointer;
        var more := ProcessSingle();
        if !more {
          assert Run(items, before, i - 1, budget, clock, usage) == Finish(true, before, pointer);
          return true;
        }
        assert Run(items, before, i - 1, budget, clock, usage) == Run(items, pointer, i, budget, clock, usage);
        SliceGrows(items, start, before);
      }
    }
  }

  /** The constructor's check: a callback that is not callable is refused. */
  method CreateWorker(items: seq<Value>, callable: bool) returns (r: Result<CursorWorker>)
    ensures !callable ==> r == Err(InvalidArgument("Given worker callback is not callable"))
    ensures callable ==> (r.Ok? && fresh(r.value) && r.value.Valid() &&
      r.value.items == items && r.value.pointer == 0 && r.value.processed == [])
  {
    if !callable {
      return Err(InvalidArgument("Given worker callback is not callable"));
    }
    var w := new CursorWorker(items);
    r := Ok(w);
  }
}
