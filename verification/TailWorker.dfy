/**
 The ordered gateway worker (internal/discord/tail.go) as interleaved steps: gateway events arrive and
 are queued, the worker takes tasks and runs their handlers, handlers return on their own, and the
 tail context or a fatal error may come from anywhere at any time (member workers, metadata handlers,
 cleanup).  Statements are about every sequence of steps.
 */
module TailWorker {
  import opened Options
  import opened TailExecution

  /** `id` is its place among all queued tasks; `runs` says that it has a handler. */
  datatype Task = Task(id: nat, message: bool, runs: bool)

  datatype Phase =
    | Top                                     // about to look at the context
    | Waiting                                 // in the select
    | Taken(task: Task)                       // received, before the second look at the context
    | Running(task: Task)
    | Returned(task: Task, x: Execution)
    | Recording(task: Task, x: Execution)
    | Reporting(task: Task, x: Execution)
    | Stopping                                // about to cancel the context and signal a fatal error
    | Exited

  datatype Config = Config(capacity: nat, recorder: bool)

  datatype State = State(
    done: bool, fatal: bool, phase: Phase, queue: seq<Task>, queued: seq<Task>, active: set<nat>,
    started: seq<nat>, failed: set<nat>, failedLive: set<nat>, recorded: set<nat>)

  const START: State := State(false, false, Top, [], [], {}, [], {}, {}, {})

  datatype Action =
    | Cancel
    | Signal
    | Arrive(message: bool, runs: bool, send: bool)  // `send` picks the arm when both are ready
    | Look
    | Select(receive: bool)
    | Begin
    | HandlerReturns(id: nat)
    | Return(x: Execution)
    | Judge
    | Record(ok: bool)
    | Report(opens: bool)  // `opens` is what the failure circuit says
    | Stop

  // ---------------------------------------------------------------- errors

  predicate HasDeadline(e: Error) {
    match e
    case Deadline(_, _, _, _) => true
    case Unjoined(cause) => HasDeadline(cause)
    case _ => false
  }

  /** The first deadline error of the chain is detached. */
  predicate Detached(e: Error) {
    match e
    case Deadline(_, _, detached, _) => detached
    case Unjoined(cause) => Detached(cause)
    case _ => false
  }

  predicate HasPanic(e: Error) {
    match e
    case Panic => true
    case Deadline(_, cause, _, _) => HasPanic(cause)
    case Unjoined(cause) => HasPanic(cause)
    case _ => false
  }

  predicate ParentJoinTimedOut(x: Execution) {
    x.parentCancellation && x.forceFallback
  }

  /** With the context gone, only these failures are still handled. */
  predicate StillHandled(t: Task, x: Execution)
    requires x.err.Some?
  {
    || HasDeadline(x.err.value) || HasPanic(x.err.value) || ParentJoinTimedOut(x)
    || (x.parentCancellation && x.handlerReturnedErr && t.message)
  }

  // ---------------------------------------------------------------- steps

  predicate Enabled(c: Config, s: State, a: Action) {
    match a
    case Cancel => true
    case Signal => true
    case Arrive(_, _, _) => true
    case Look => s.phase == Top
    case Select(receive) => s.phase == Waiting && (if receive then s.queue != [] else s.done)
    case Begin => s.phase.Taken?
    case HandlerReturns(id) => id in s.active
    case Return(x) => s.phase.Running? && Honest(x, s.phase.task.id !in s.active)
    case Judge => s.phase.Returned?
    case Record(_) => s.phase.Recording?
    case Report(_) => s.phase.Reporting?
    case Stop => s.phase == Stopping
  }

  /** enqueueTailTask: the send arm when there is room, else a fatal error unless the context is gone. */
  function Arrived(c: Config, s: State, message: bool, runs: bool, send: bool): State {
    if s.done && (!send || |s.queue| >= c.capacity) then s
    else if |s.queue| < c.capacity then
      var t := Task(|s.queued|, message, runs);
      s.(queue := s.queue + [t], queued := s.queued + [t])
    else s.(fatal := true)
  }

  function Judged(c: Config, s: State, t: Task, x: Execution): State {
    if x.err.None? then s.(phase := Top)
    else
      var noted := s.(failed := if t.message then s.failed + {t.id} else s.failed,
                      failedLive := if t.message && !s.done then s.failedLive + {t.id} else s.failedLive);
      if s.done && !StillHandled(t, x) then noted.(phase := Exited)
      else
        noted.(done := s.done || Detached(x.err.value) || ParentJoinTimedOut(x),
               phase := if t.message || c.recorder then Recording(t, x) else Reporting(t, x))
  }

  function Reported(s: State, x: Execution, opens: bool): State {
    if ParentJoinTimedOut(x) then s.(fatal := true, phase := Exited)
    else if x.err.Some? && Detached(x.err.value) then s.(done := true, phase := Stopping)
    else if opens then s.(fatal := true, phase := Stopping)
    else s.(phase := Top)
  }

  function Step(c: Config, s: State, a: Action): State
    requires Enabled(c, s, a)
  {
    match a
    case Cancel => s.(done := true)
    case Signal => s.(fatal := true)
    case Arrive(message, runs, send) => Arrived(c, s, message, runs, send)
    case Look => s.(phase := if s.done then Exited else Waiting)
    case Select(receive) =>
      if receive then s.(phase := Taken(s.queue[0]), queue := s.queue[1..]) else s.(phase := Exited)
    case Begin =>
      var t := s.phase.task;
      if s.done then s.(phase := Exited)
      else if !t.runs then s.(phase := Top)
      else s.(phase := Running(t), active := s.active + {t.id}, started := s.started + [t.id])
    case HandlerReturns(id) => s.(active := s.active - {id})
    case Return(x) => s.(phase := Returned(s.phase.task, x))
    case Judge => Judged(c, s, s.phase.task, s.phase.x)
    case Record(ok) =>
      var t := s.phase.task;
      if ok && c.recorder then s.(recorded := s.recorded + {t.id}, phase := Reporting(t, s.phase.x))
      else s.(done := true, phase := Stopping)
    case Report(opens) => Reported(s, s.phase.x, opens)
    case Stop => s.(done := true, fatal := true, phase := Exited)
  }

  /** The steps lead from one state to the other. */
  ghost predicate Path(c: Config, s: State, actions: seq<Action>, end: State)
    decreases |actions|
  {
    if actions == [] then s == end
    else
      var n := |actions| - 1;
      exists mid :: Path(c, s, actions[..n], mid) && Enabled(c, mid, actions[n]) && Step(c, mid, actions[n]) == end
  }

  // ---------------------------------------------------------------- the invariant

  predicate HasTask(p: Phase) {
    p.Taken? || p.Running? || p.Returned? || p.Recording? || p.Reporting?
  }

  predicate HasExecution(p: Phase) {
    p.Returned? || p.Recording? || p.Reporting?
  }

  /** What is waiting is the end of what was queued; `taken` tasks have left the channel. */
  predicate Waits(queued: seq<Task>, queue: seq<Task>, taken: int) {
    && 0 <= taken <= |queued| && queue == queued[taken..]
    && (forall k :: 0 <= k < |queued| ==> queued[k].id == k)
  }

  function TakenCount(s: State): int {
    |s.queued| - |s.queue|
  }

  /** The channel is first in, first out. */
  predicate Fifo(s: State) {
    && Waits(s.queued, s.queue, TakenCount(s))
    && (HasTask(s.phase) ==> TakenCount(s) > 0 && s.phase.task == s.queued[TakenCount(s) - 1])
  }

  predicate Increasing(started: seq<nat>) {
    forall j, k :: 0 <= j < k < |started| ==> started[j] < started[k]
  }

  predicate AllBelow(started: seq<nat>, bound: int) {
    forall k :: 0 <= k < |started| ==> started[k] < bound
  }

  /** Every task with a handler among the first `bound` has started. */
  predicate AllStarted(queued: seq<Task>, started: seq<nat>, bound: int) {
    forall k :: 0 <= k < bound && k < |queued| && queued[k].runs ==> k in started
  }

  /** Handlers have started in queue order, and only the last taken task may still be without its start. */
  predicate Ordered(s: State)
    requires Fifo(s)
  {
    var taken := TakenCount(s);
    && Increasing(s.started) && AllBelow(s.started, if s.phase.Taken? then taken - 1 else taken)
    && AllStarted(s.queued, s.started, if s.phase.Taken? || s.phase.Exited? then taken - 1 else taken)
    && (HasTask(s.phase) && !s.phase.Taken? ==> s.started != [] && s.started[|s.started| - 1] == s.phase.task.id)
  }

  /** At most the last started handler is still running, and none while the worker looks for work. */
  predicate Alone(s: State) {
    && (forall id :: id in s.active ==> s.started != [] && id == s.started[|s.started| - 1])
    && (s.phase.Top? || s.phase.Waiting? || s.phase.Taken? ==> s.active == {})
    && (HasExecution(s.phase) ==> Honest(s.phase.x, s.active == {}))
  }

  predicate Recorded(s: State) {
    && (!s.phase.Stopping? && !s.phase.Exited? ==>
          forall id :: id in s.failed ==> id in s.recorded || (s.phase.Recording? && s.phase.task.id == id))
    && (forall id :: id in s.failedLive ==>
          id in s.recorded || s.fatal || s.phase.Stopping? || (s.phase.Recording? && s.phase.task.id == id))
    && (s.phase.Exited? ==> s.done || s.fatal)
  }

  predicate Inv(s: State) {
    Fifo(s) && Ordered(s) && Alone(s) && Recorded(s)
  }

  lemma Pushed(queued: seq<Task>, queue: seq<Task>, taken: int, t: Task)
    requires Waits(queued, queue, taken) && t.id == |queued|
    ensures Waits(queued + [t], queue + [t], taken)
  {
    assert (queued + [t])[taken..] == queued[taken..] + [t];
  }

  lemma Popped(queued: seq<Task>, queue: seq<Task>, taken: int)
    requires Waits(queued, queue, taken) && queue != []
    ensures Waits(queued, queue[1..], taken + 1) && queue[0] == queued[taken]
  {
    assert queued[taken..][1..] == queued[taken + 1..];
  }

  /** Steps that do not touch the channel. */
  lemma ChannelUntouched(c: Config, s: State, a: Action)
    requires Enabled(c, s, a) && !a.Arrive? && !a.Select?
    ensures var t := Step(c, s, a);
      && t.queued == s.queued && t.queue == s.queue
      && (HasTask(t.phase) ==> HasTask(s.phase) && t.phase.task == s.phase.task)
      && (t.phase.Taken? ==> s.phase.Taken?)
      && (a.Begin? || t.started == s.started)
  {
  }

  lemma ArrivalKeepsFifo(c: Config, s: State, message: bool, runs: bool, send: bool)
    requires Fifo(s)
    ensures Fifo(Arrived(c, s, message, runs, send))
  {
    Pushed(s.queued, s.queue, TakenCount(s), Task(|s.queued|, message, runs));
  }

  lemma StepKeepsFifo(c: Config, s: State, a: Action)
    requires Fifo(s) && Enabled(c, s, a)
    ensures Fifo(Step(c, s, a))
  {
    if a.Arrive? {
      ArrivalKeepsFifo(c, s, a.message, a.runs, a.send);
    } else if a.Select? {
      if a.receive {
        Popped(s.queued, s.queue, TakenCount(s));
      }
    } else {
      ChannelUntouched(c, s, a);
    }
  }

  lemma StartNext(queued: seq<Task>, started: seq<nat>, id: nat)
    requires Increasing(started) && AllBelow(started, id) && id < |queued| && AllStarted(queued, started, id)
    ensures Increasing(started + [id]) && AllBelow(started + [id], id + 1) && AllStarted(queued, started + [id], id + 1)
  {
    assert id in started + [id];
  }

  lemma StepKeepsOrdered(c: Config, s: State, a: Action)
    requires Fifo(s) && Ordered(s) && Enabled(c, s, a) && Fifo(Step(c, s, a))
    ensures Ordered(Step(c, s, a))
  {
    if a.Arrive? {
      ArrivalKeepsOrdered(c, s, a.message, a.runs, a.send);
    } else if a.Select? {
      SelectKeepsOrdered(c, s, a);
    } else {
      QuietKeepsOrdered(c, s, a);
    }
  }

  lemma QuietKeepsOrdered(c: Config, s: State, a: Action)
    requires Fifo(s) && Ordered(s) && Enabled(c, s, a) && Fifo(Step(c, s, a)) && !a.Arrive? && !a.Select?
    ensures Ordered(Step(c, s, a))
  {
    ChannelUntouched(c, s, a);
    if a.Begin? {
      BeginKeepsOrdered(c, s);
    }
  }

  lemma BeginKeepsOrdered(c: Config, s: State)
    requires Fifo(s) && Ordered(s) && s.phase.Taken? && Fifo(Step(c, s, Begin))
    ensures Ordered(Step(c, s, Begin))
  {
    if s.phase.task.runs {
      StartNext(s.queued, s.started, s.phase.task.id);
    }
  }

  lemma ArrivalKeepsOrdered(c: Config, s: State, message: bool, runs: bool, send: bool)
    requires Fifo(s) && Ordered(s) && Fifo(Arrived(c, s, message, runs, send))
    ensures Ordered(Arrived(c, s, message, runs, send))
  {
    var t := Arrived(c, s, message, runs, send);
    assert TakenCount(t) == TakenCount(s) && t.phase == s.phase && t.started == s.started;
    assert forall k :: 0 <= k < |s.queued| ==> t.queued[k] == s.queued[k];
  }

  lemma SelectKeepsOrdered(c: Config, s: State, a: Action)
    requires Fifo(s) && Ordered(s) && Enabled(c, s, a) && Fifo(Step(c, s, a)) && a.Select?
    ensures Ordered(Step(c, s, a))
  {
  }

  lemma StepKeepsAlone(c: Config, s: State, a: Action)
    requires Fifo(s) && Ordered(s) && Alone(s) && Enabled(c, s, a)
    ensures Alone(Step(c, s, a))
  {
    if a.Return? {
      assert s.active == {} <==> s.phase.task.id !in s.active;
    } else if !a.Begin? && !a.HandlerReturns? {
      HandlersUntouched(c, s, a);
    }
  }

  /** Steps that start and end no handler. */
  lemma HandlersUntouched(c: Config, s: State, a: Action)
    requires Enabled(c, s, a) && !a.Begin? && !a.HandlerReturns? && !a.Return?
    ensures var t := Step(c, s, a);
      && t.active == s.active && t.started == s.started
      && (HasExecution(t.phase) ==> HasExecution(s.phase) && t.phase.x == s.phase.x)
      && (t.phase.Top? || t.phase.Waiting? || t.phase.Taken? ==>
            s.phase.Top? || s.phase.Waiting? || s.phase.Taken? || (HasExecution(s.phase) && !s.phase.x.forceFallback)
            || (HasExecution(s.phase) && !Honest(s.phase.x, s.active == {})))
  {
  }

  lemma StepKeepsRecorded(c: Config, s: State, a: Action)
    requires Recorded(s) && Enabled(c, s, a)
    ensures Recorded(Step(c, s, a))
  {
  }

  lemma StepKeepsInv(c: Config, s: State, a: Action)
    requires Inv(s) && Enabled(c, s, a)
    ensures Inv(Step(c, s, a))
  {
    StepKeepsFifo(c, s, a);
    StepKeepsOrdered(c, s, a);
    StepKeepsAlone(c, s, a);
    StepKeepsRecorded(c, s, a);
  }

  lemma {:induction false} PathKeepsInv(c: Config, actions: seq<Action>, s: State)
    requires Path(c, START, actions, s)
    ensures Inv(s)
    decreases |actions|
  {
    if actions != [] {
      var n := |actions| - 1;
      var mid :| Path(c, START, actions[..n], mid) && Enabled(c, mid, actions[n]) && Step(c, mid, actions[n]) == s;
      PathKeepsInv(c, actions[..n], mid);
      StepKeepsInv(c, mid, actions[n]);
    }
  }

  // ---------------------------------------------------------------- what holds in every run

  /**
   When a handler starts, no other ordered handler is running, the handlers of all tasks queued before
   it have started and none queued after it has, and every message task that failed is recorded.
   */
  lemma HandlersTakeTurns(c: Config, actions: seq<Action>, s: State)
    requires Path(c, START, actions, s) && s.phase.Taken? && Step(c, s, Begin).phase.Running?
    ensures var id := s.phase.task.id;
      s.active == {} && AllStarted(s.queued, s.started, id) && AllBelow(s.started, id) && s.failed <= s.recorded
  {
    PathKeepsInv(c, actions, s);
  }

  /** At no time are two ordered handlers running, even after one was given up on. */
  lemma HandlersNeverOverlap(c: Config, actions: seq<Action>, s: State)
    requires Path(c, START, actions, s)
    ensures forall a, b :: a in s.active && b in s.active ==> a == b
  {
    PathKeepsInv(c, actions, s);
  }

  /** A message task that failed while the context was live is recorded, unless a fatal error ends the tail. */
  lemma LiveFailuresAreRecorded(c: Config, actions: seq<Action>, s: State)
    requires Path(c, START, actions, s)
    ensures s.phase.Top? || s.phase.Waiting? || s.phase.Exited? ==>
      forall id :: id in s.failedLive ==> id in s.recorded || s.fatal
    ensures s.phase.Exited? ==> s.done || s.fatal
  {
    PathKeepsInv(c, actions, s);
  }

  /** Nothing that has happened is taken back. */
  lemma StepOnlyAdds(c: Config, s: State, a: Action)
    requires Enabled(c, s, a)
    ensures var t := Step(c, s, a);
      && (s.done ==> t.done) && (s.fatal ==> t.fatal) && s.queued <= t.queued && s.started <= t.started
      && s.failed <= t.failed && s.failedLive <= t.failedLive && s.recorded <= t.recorded
  {
  }

  ghost predicate Refused(c: Config, s: State, a: Action) {
    a.Arrive? && Step(c, s, a).queued == s.queued
  }

  /** An event that is not queued finds the context done or a fatal error signalled, then and ever after. */
  lemma {:induction false} RefusedOnlyAtTheEnd(c: Config, s: State, a: Action, later: seq<Action>, end: State)
    requires Refused(c, s, a) && Path(c, Step(c, s, a), later, end)
    ensures end.done || end.fatal
    decreases |later|
  {
    if later == [] {
      var t := Task(|s.queued|, a.message, a.runs);
      assert |s.queued + [t]| > |s.queued|;
    } else {
      var n := |later| - 1;
      var mid :| Path(c, Step(c, s, a), later[..n], mid) && Enabled(c, mid, later[n]) && Step(c, mid, later[n]) == end;
      RefusedOnlyAtTheEnd(c, s, a, later[..n], mid);
      StepOnlyAdds(c, mid, later[n]);
    }
  }
}
