/**
 Running one gateway handler with a deadline (internal/discord/tail_execution.go) and the failure
 circuit (internal/discord/tail_failures.go).

 Time is an integer; nothing bounds how late the runner is scheduled, and when several arms of a
 select are ready any of them may be taken.  A handler's completion and its channel send are one
 step, so its result can be received from `completedAt` on.
 */
module TailExecution {
  import opened Options

  const GRACE: nat := 100_000_000  // 100 milliseconds, in nanoseconds

  datatype Error =
    | Canceled(code: int)  // errors.Is(err, context.Canceled)
    | Exceeded             // context.DeadlineExceeded
    | Panic
    | Other(code: int)
    | Deadline(timeout: int, cause: Error, detached: bool, returnedNil: bool)
    | Unjoined(cause: Error)

  datatype Result = Result(err: Option<Error>, completedAt: int)

  datatype JoinOutcome = NotRequired | Joined | TimedOut

  datatype Execution = Execution(
    err: Option<Error>, observedAt: int, handlerElapsed: int, joinElapsed: int, joinOutcome: JoinOutcome,
    forceFallback: bool, parentCancellation: bool, handlerReturnedErr: bool)

  // ---------------------------------------------------------------- pure parts

  function Elapsed(start: int, end: int): (r: int)
    ensures r >= 0
  {
    if end < start then 0 else end - start
  }

  function BoundedJoin(start: int, end: int): (r: int)
    ensures 0 <= r <= GRACE
  {
    if Elapsed(start, end) > GRACE then GRACE else Elapsed(start, end)
  }

  function DetachedError(timeout: int): Error {
    Deadline(timeout, Exceeded, true, false)
  }

  /** The error of a handler that returned after its deadline. */
  function LateError(timeout: int, err: Option<Error>): Error {
    match err
    case None => Deadline(timeout, Exceeded, false, true)
    case Some(e) => Deadline(timeout, if e.Canceled? then Exceeded else e, false, false)
  }

  function Completed(r: Result, start: int): Execution {
    Execution(r.err, r.completedAt, Elapsed(start, r.completedAt), 0, NotRequired, false, false, r.err.Some?)
  }

  function Classify(timeout: int, r: Result, start: int): Execution {
    var deadline := start + timeout;
    if r.completedAt < deadline then Completed(r, start)
    else if r.completedAt < deadline + GRACE then
      Execution(Some(LateError(timeout, r.err)), deadline, Elapsed(start, r.completedAt),
                BoundedJoin(deadline, r.completedAt), Joined, false, false, false)
    else
      Execution(Some(DetachedError(timeout)), deadline, Elapsed(start, deadline + GRACE), GRACE, Joined,
                false, false, false)
  }

  function NeverJoined(timeout: int, start: int): Execution {
    var deadline := start + timeout;
    Execution(Some(DetachedError(timeout)), deadline, Elapsed(start, deadline + GRACE), GRACE, TimedOut,
              true, false, false)
  }

  function AfterCancellation(parentErr: Error, r: Result, start: int, canceledAt: int): Execution {
    Execution(if r.err.Some? then r.err else Some(parentErr),
              if r.err.Some? then r.completedAt else canceledAt,
              Elapsed(start, r.completedAt), BoundedJoin(canceledAt, r.completedAt), Joined,
              false, true, r.err.Some?)
  }

  // ---------------------------------------------------------------- what the error may depend on

  /** How a handler ends, None when it never returns. */
  type Handler = Option<Result>

  /** The error of a run with a deadline, from the handler's result and its completion time alone. */
  function ErrorOf(timeout: int, handler: Handler, start: int): Option<Error> {
    var deadline := start + timeout;
    if handler.None? || handler.value.completedAt >= deadline + GRACE then Some(DetachedError(timeout))
    else if handler.value.completedAt >= deadline then Some(LateError(timeout, handler.value.err))
    else handler.value.err
  }

  /** Success means: returned nil, and strictly before the deadline. */
  lemma SuccessIsInTime(timeout: int, handler: Handler, start: int)
    ensures ErrorOf(timeout, handler, start).None? <==>
      handler.Some? && handler.value.err.None? && handler.value.completedAt < start + timeout
  {
  }

  /** What every execution says about its handler: given up on exactly when it had not returned. */
  predicate Honest(x: Execution, returned: bool) {
    && (x.joinOutcome == TimedOut <==> x.forceFallback)
    && (!x.forceFallback ==> returned)
    && (x.forceFallback ==>
          x.err.Some? && if x.parentCancellation then x.err.value.Unjoined? else x.err.value.Deadline? && x.err.value.detached)
  }

  datatype Cancellation = Cancellation(at: int, err: Error)

  /** The runner's surroundings: the clock, the handler and when the parent context ends. */
  class Runner {
    var now: int
    const timeout: int
    const handler: Handler
    const parent: Option<Cancellation>
    const parentDeadline: Option<int>

    constructor (now: int, timeout: int, handler: Handler, parent: Option<Cancellation>, parentDeadline: Option<int>)
      ensures this.now == now && this.timeout == timeout && this.handler == handler
      ensures this.parent == parent && this.parentDeadline == parentDeadline
    {
      this.now, this.timeout, this.handler, this.parent, this.parentDeadline :=
        now, timeout, handler, parent, parentDeadline;
    }

    predicate HasResult()
      reads this
    {
      handler.Some? && handler.value.completedAt <= now
    }

    predicate ParentDone()
      reads this
    {
      parent.Some? && parent.value.at <= now
    }

    /** The runner is scheduled again, at this time or any later one. */
    method Wake(earliest: int)
      modifies this
      ensures now >= old(now) && now >= earliest
    {
      var t: int :| t >= now && t >= earliest;
      now := t;
    }

    predicate ReturnedBy(t: int) {
      handler.Some? && handler.value.completedAt <= t
    }

    /** The parent has a deadline of its own that comes before the handler's. */
    predicate EndsFirst(deadline: int) {
      parentDeadline.Some? && parentDeadline.value < deadline
    }

    /** ctx.Err(), unless the handler's own deadline has passed first. */
    method ParentError(deadline: int) returns (r: Option<Error>)
      modifies this
      ensures now >= old(now)
      ensures r.Some? ==> ParentDone() && r.value == parent.value.err && parent.value.at <= old(now)
      ensures r.Some? ==> now < deadline || EndsFirst(deadline)
      ensures r.None? ==> !old(ParentDone()) || now >= deadline
    {
      var done := ParentDone();
      Wake(now);
      r := if done && (EndsFirst(deadline) || now < deadline) then Some(parent.value.err) else None;
    }

    /** Waits for a cancelled handler, at most for the grace period. */
    method AwaitParent(parentErr: Error, start: int, canceledAt: int) returns (x: Execution)
      modifies this
      ensures now >= old(now) && Honest(x, HasResult())
      ensures if ReturnedBy(old(now)) || x.joinOutcome != TimedOut
              then handler.Some? && x == AfterCancellation(parentErr, handler.value, start, canceledAt)
              else x.err == Some(Unjoined(parentErr)) && x.joinElapsed == GRACE && x.forceFallback && x.parentCancellation
                   && !x.handlerReturnedErr
    {
      if HasResult() {
        return AfterCancellation(parentErr, handler.value, start, canceledAt);
      }
      var timer := now + GRACE;
      Wake(if ReturnedBy(timer) then handler.value.completedAt else timer);
      var takeResult: bool := *;
      if HasResult() && (takeResult || now < timer) {
        x := AfterCancellation(parentErr, handler.value, start, canceledAt);
      } else {
        x := Execution(Some(Unjoined(parentErr)), canceledAt, Elapsed(start, now), GRACE, TimedOut, true, true, false);
      }
    }

    /** After the deadline: the result may still arrive within the grace period. */
    method AwaitDeadline(start: int) returns (x: Execution)
      requires now >= start + timeout
      modifies this
      ensures x == if handler.Some? && x.joinOutcome != TimedOut then Classify(timeout, handler.value, start)
                   else NeverJoined(timeout, start)
      ensures x.err == ErrorOf(timeout, handler, start) && Honest(x, HasResult())
      ensures x.joinOutcome == TimedOut ==> !ReturnedBy(start + timeout + GRACE)
    {
      if HasResult() {
        return Classify(timeout, handler.value, start);
      }
      var graceDeadline := start + timeout + GRACE;
      Wake(now);
      if graceDeadline - now <= 0 {
        x := FinalDeadline(start);
        return;
      }
      Wake(if ReturnedBy(graceDeadline) then handler.value.completedAt else graceDeadline);
      var takeResult: bool := *;
      if HasResult() && (takeResult || now < graceDeadline) {
        x := Classify(timeout, handler.value, start);
      } else {
        x := FinalDeadline(start);
      }
    }

    /** One last look for a result once the grace period is over. */
    method FinalDeadline(start: int) returns (x: Execution)
      requires now >= start + timeout + GRACE
      modifies this
      ensures x == if handler.Some? && x.joinOutcome != TimedOut then Classify(timeout, handler.value, start)
                   else NeverJoined(timeout, start)
      ensures x.err == ErrorOf(timeout, handler, start) && Honest(x, HasResult())
      ensures x.joinOutcome == TimedOut ==> !ReturnedBy(start + timeout + GRACE)
    {
      Wake(now);
      x := if HasResult() then Classify(timeout, handler.value, start) else NeverJoined(timeout, start);
    }

    /**
     Runs the handler.  Without a deadline the call returns only if the handler does or the parent ends.

     Unless the parent ends, the error is a function of the handler's result and completion time,
     whichever arms were taken.  In every case success means that the handler returned nil in time, the
     join took at most the grace period, and only a handler that had not returned is given up on.
     */
    method Run() returns (x: Execution)
      requires timeout > 0 || handler.Some? || parent.Some?
      requires handler.Some? ==> handler.value.completedAt >= now
      modifies this
      ensures parent.None? && timeout > 0 ==> x.err == ErrorOf(timeout, handler, old(now))
      ensures parent.None? && timeout > 0 ==>
        x == if handler.Some? && x.joinOutcome != TimedOut then Classify(timeout, handler.value, old(now))
             else NeverJoined(timeout, old(now))
      ensures parent.None? && timeout <= 0 ==> handler.Some? && x == Completed(handler.value, old(now))
      ensures x.parentCancellation && !x.forceFallback ==>
        && handler.Some? && x.handlerElapsed == Elapsed(old(now), handler.value.completedAt)
        && x.err == (if handler.value.err.Some? then handler.value.err else Some(parent.value.err))
      ensures x.err.None? ==> handler.Some? && handler.value.err.None?
      ensures x.err.None? && timeout > 0 ==> handler.value.completedAt < old(now) + timeout
      ensures 0 <= x.joinElapsed <= GRACE
      ensures Honest(x, HasResult())
      ensures x.forceFallback && !x.parentCancellation ==> !ReturnedBy(old(now) + timeout + GRACE)
      ensures x.parentCancellation ==> ParentDone() && x.err.Some?
      ensures x.parentCancellation && x.handlerReturnedErr ==> handler.Some? && x.err == handler.value.err
      ensures x.parentCancellation && timeout > 0 ==>
        parent.value.at < old(now) + timeout || EndsFirst(old(now) + timeout)
    {
      var start := now;
      if timeout <= 0 {
        x := RunUntimed(start);
        return;
      }
      var deadline := start + timeout;
      var earliest := if ReturnedBy(deadline) then handler.value.completedAt else deadline;
      if parent.Some? && parent.value.at < earliest {
        earliest := parent.value.at;
      }
      Wake(earliest);
      var takeResult: bool := *;
      if HasResult() && (takeResult || !(now >= deadline || ParentDone())) {
        var parentErr := ParentError(deadline);
        if parentErr.Some? {
          var canceledAt := now;
          return AfterCancellation(parentErr.value, handler.value, start, canceledAt);
        }
        return Classify(timeout, handler.value, start);
      }
      var parentErr := ParentError(deadline);
      if parentErr.Some? {
        var canceledAt := now;
        x := AwaitParent(parentErr.value, start, canceledAt);
        return;
      }
      x := AwaitDeadline(start);
    }

    method RunUntimed(start: int) returns (x: Execution)
      requires timeout <= 0 && (handler.Some? || parent.Some?)
      modifies this
      ensures parent.None? ==> x == Completed(handler.value, start)
      ensures !x.parentCancellation ==> !x.forceFallback
      ensures x.parentCancellation && !x.forceFallback ==>
        && handler.Some? && parent.Some? && x.handlerElapsed == Elapsed(start, handler.value.completedAt)
        && x.err == (if handler.value.err.Some? then handler.value.err else Some(parent.value.err))
      ensures x.err.None? ==> handler.Some? && handler.value.err.None?
      ensures 0 <= x.joinElapsed <= GRACE
      ensures Honest(x, HasResult())
      ensures x.parentCancellation ==> ParentDone() && x.err.Some?
      ensures x.parentCancellation && x.handlerReturnedErr ==> handler.Some? && x.err == handler.value.err
    {
      var earliest := if parent.Some? then parent.value.at else handler.value.completedAt;
      if ReturnedBy(earliest) {
        earliest := handler.value.completedAt;
      }
      Wake(earliest);
      var takeResult: bool := *;
      if HasResult() && (takeResult || !ParentDone()) {
        if !ParentDone() {
          return Completed(handler.value, start);
        }
        Wake(now);
        var canceledAt := now;
        return AfterCancellation(parent.value.err, handler.value, start, canceledAt);
      }
      Wake(now);
      var canceledAt := now;
      x := AwaitParent(parent.value.err, start, canceledAt);
    }
  }

  // ---------------------------------------------------------------- the failure circuit

  /** Some `limit` outcomes in a row are failures. */
  ghost predicate HasRun(history: seq<bool>, limit: int) {
    exists i: nat :: FailuresFrom(history, i, limit)
  }

  ghost predicate FailuresFrom(history: seq<bool>, i: nat, limit: int) {
    i + limit <= |history| && forall k :: i <= k < i + limit ==> history[k]
  }

  /** How many failures the history ends with. */
  function Trailing(history: seq<bool>): (n: nat)
    ensures n <= |history|
    ensures forall k :: |history| - n <= k < |history| ==> history[k]
    ensures n < |history| ==> !history[|history| - n - 1]
  {
    if history == [] || !history[|history| - 1] then 0 else Trailing(history[..|history| - 1]) + 1
  }

  /** A run of failures is new exactly when the history now ends with it. */
  lemma NewRun(history: seq<bool>, failed: bool, limit: int)
    requires limit > 0
    ensures HasRun(history + [failed], limit) <==> HasRun(history, limit) || (failed && Trailing(history) + 1 >= limit)
  {
    var more := history + [failed];
    assert more[..|history|] == history;
    var t := Trailing(history);
    assert t < |history| ==> !more[|history| - t - 1];
    if HasRun(history, limit) {
      var i: nat :| FailuresFrom(history, i, limit);
      assert FailuresFrom(more, i, limit);
    }
    if failed && Trailing(history) + 1 >= limit {
      assert FailuresFrom(more, |more| - limit, limit);
    }
    if HasRun(more, limit) {
      var i: nat :| FailuresFrom(more, i, limit);
      if i + limit < |more| {
        forall k | i <= k < i + limit ensures history[k] {
          assert more[k];
        }
        assert FailuresFrom(history, i, limit);
      } else {
        assert more[|history|];
      }
    }
  }

  class Circuit {
    const limit: int
    var consecutive: int
    var isOpen: bool
    ghost var history: seq<bool>  // true for a failure
    ghost var openings: nat

    constructor (limit: int)
      ensures Valid() && this.limit == limit && history == [] && openings == 0
    {
      this.limit := limit;
      consecutive, isOpen, history, openings := 0, false, [], 0;
    }

    ghost predicate Valid()
      reads this
    {
      && (isOpen <==> limit > 0 && HasRun(history, limit))
      && (limit > 0 && !isOpen ==> consecutive == Trailing(history) < limit)
      && openings == if isOpen then 1 else 0
    }

    /** Reports an opening exactly when this failure completes the first run of `limit` failures. */
    method RecordFailure() returns (opens: bool)
      requires Valid()
      modifies this
      ensures Valid() && history == old(history) + [true]
      ensures opens <==> limit > 0 && HasRun(history, limit) && !HasRun(old(history), limit)
      ensures openings == old(openings) + (if opens then 1 else 0) && openings <= 1
    {
      if limit > 0 {
        NewRun(history, true, limit);
      }
      assert (history + [true])[..|history|] == history;
      history := history + [true];
      if isOpen || limit <= 0 {
        return false;
      }
      consecutive := consecutive + 1;
      if consecutive < limit {
        return false;
      }
      isOpen := true;
      openings := openings + 1;
      opens := true;
    }

    method RecordSuccess()
      requires Valid()
      modifies this
      ensures Valid() && history == old(history) + [false] && openings == old(openings)
    {
      if limit > 0 {
        NewRun(history, false, limit);
      }
      history := history + [false];
      if !isOpen {
        consecutive := 0;
      }
    }
  }
}
