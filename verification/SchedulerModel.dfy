/**
  The scheduler as a system of atomic steps: submission, the orchestrator's hand-over to the worker pool,
  execution, failure, time-out, retry and the release of delayed tasks. A task is an object that may be waiting
  or running in several copies at once; the ledger counts what happened to each.
 */
module SchedulerModel {
  import opened Wrappers
  import opened EventReplay
  import opened Retry

  /** A task object: its status and what its metadata say about retries and time-outs. */
  datatype Work = Work(status: TaskStatus, retryCount: int, policy: Option<RetryPolicy>, timeLimit: Option<real>)

  /** A worker's current task. The time-out monitor sees it only while it is armed. */
  datatype Execution = Execution(task: TaskId, armed: bool)

  /** How many copies of each task were accepted, started, timed out, and dropped on the way. */
  datatype Ledger = Ledger(
    submitted: multiset<TaskId>, started: multiset<TaskId>, timedOut: multiset<TaskId>, lost: multiset<TaskId>)

  /** A copy the tracker was asked to hold back for so many seconds, for a retry or for a submission. */
  datatype Wait = Wait(task: TaskId, delay: real, retry: bool)

  datatype System = System(
    tasks: map<TaskId, Work>,
    capacity: Option<nat>, queued: set<TaskId>, delayed: multiset<TaskId>,
    held: Option<TaskId>, handoff: seq<TaskId>,
    poolStarted: bool, workers: set<WorkerId>, running: map<WorkerId, Execution>,
    completed: nat, failed: nat, ledger: Ledger, waits: seq<Wait>)

  /** Python's TimeoutError with its base classes. */
  const TIMEOUT_ERROR := Failure({"TimeoutError", "OSError", "Exception", "BaseException", "object"})

  datatype Step =
    | Submit(task: TaskId, delay: real)
    | Take(task: TaskId)
    | Deliver
    | Start(worker: WorkerId)
    | Finish(worker: WorkerId)
    | Crash(worker: WorkerId, error: Failure)
    | TimeOut(worker: WorkerId, elapsed: real)
    | Mature(task: TaskId)
    | StopPool

  predicate QueueIsFull(s: System) {
    s.capacity.Some? && |s.queued| >= s.capacity.value
  }

  function Lose(s: System, id: TaskId): System {
    s.(ledger := s.ledger.(lost := s.ledger.lost + multiset{id}))
  }

  /** The tracker's callback: a full queue drops the copy, and a copy already queued absorbs it. */
  function Arrive(s: System, id: TaskId): System {
    if QueueIsFull(s) || id in s.queued then Lose(s, id) else s.(queued := s.queued + {id})
  }

  function HoldBack(s: System, wait: Wait): System {
    s.(delayed := s.delayed + multiset{wait.task}, waits := s.waits + [wait])
  }

  /** One more retry on the count, and the task pending again. */
  function PrepareRetry(s: System, id: TaskId): System
    requires id in s.tasks
  {
    var work := s.tasks[id];
    s.(tasks := s.tasks[id := work.(retryCount := work.retryCount + 1, status := Pending)])
  }

  predicate RetriesNow(s: System, id: TaskId, error: Failure)
    requires id in s.tasks
  {
    ShouldRetry(s.tasks[id].policy, s.tasks[id].retryCount, error)
  }

  /** What follows a failure: another attempt, at once or after a delay, or nothing. */
  function HandleFailure(s: System, id: TaskId, error: Failure): System
    requires id in s.tasks
  {
    if !RetriesNow(s, id, error) then s
    else
      var reset := PrepareRetry(s, id);
      var delay := CalculateDelay(reset.tasks[id].policy.value, reset.tasks[id].retryCount);
      if delay <= 0.0 then Arrive(reset, id) else HoldBack(reset, Wait(id, delay, true))
  }

  function SetStatus(s: System, id: TaskId, status: TaskStatus): System
    requires id in s.tasks
  {
    s.(tasks := s.tasks[id := s.tasks[id].(status := status)])
  }

  function Idle(s: System): set<WorkerId> {
    if s.poolStarted then s.workers - s.running.Keys else {}
  }

  predicate Busy(s: System, w: WorkerId) {
    w in s.running && s.running[w].task in s.tasks
  }

  /** Whether a step can happen. */
  predicate Enabled(s: System, step: Step) {
    match step
    case Submit(id, delay) => id in s.tasks && (delay > 0.0 || !QueueIsFull(s))
    case Take(id) => id in s.queued && s.held.None? && Idle(s) != {}
    case Deliver => s.held.Some?
    case Start(w) => w in Idle(s) && s.handoff != [] && s.handoff[0] in s.tasks
    case Finish(w) => Busy(s, w)
    case Crash(w, _) => Busy(s, w)
    case TimeOut(w, elapsed) =>
      && Busy(s, w) && s.running[w].armed
      && s.tasks[s.running[w].task].timeLimit.Some? && elapsed > s.tasks[s.running[w].task].timeLimit.value
    case Mature(id) => id in s.delayed
    case StopPool => true
  }

  function Accept(s: System, id: TaskId, delay: real): System {
    var accepted := s.(ledger := s.ledger.(submitted := s.ledger.submitted + multiset{id}));
    if delay > 0.0 then HoldBack(accepted, Wait(id, delay, false)) else Arrive(accepted, id)
  }

  function HandOver(s: System, id: TaskId): System {
    var released := s.(held := None);
    if s.poolStarted then released.(handoff := s.handoff + [id]) else Lose(released, id)
  }

  function Begin(s: System, w: WorkerId): System
    requires s.handoff != [] && s.handoff[0] in s.tasks
  {
    var id := s.handoff[0];
    SetStatus(s.(handoff := s.handoff[1..], running := s.running[w := Execution(id, true)],
                 ledger := s.ledger.(started := s.ledger.started + multiset{id})), id, Running)
  }

  function Free(s: System, w: WorkerId): System {
    s.(running := s.running - {w})
  }

  /** Completion keeps a failed status; whoever reset it in the meantime lets the completion through. */
  function Complete(s: System, w: WorkerId): System
    requires Busy(s, w)
  {
    var id := s.running[w].task;
    var settled := if s.tasks[id].status == Failed then s else SetStatus(s, id, Completed);
    Free(settled.(completed := settled.completed + 1), w)
  }

  function FailWith(s: System, id: TaskId, error: Failure): System
    requires id in s.tasks
  {
    HandleFailure(SetStatus(s.(failed := s.failed + 1), id, Failed), id, error)
  }

  function Expire(s: System, w: WorkerId): System
    requires Busy(s, w)
  {
    var id := s.running[w].task;
    FailWith(s.(running := s.running[w := Execution(id, false)],
                ledger := s.ledger.(timedOut := s.ledger.timedOut + multiset{id})), id, TIMEOUT_ERROR)
  }

  /** One atomic step; one that is not enabled changes nothing. */
  function Next(s: System, step: Step): System {
    if !Enabled(s, step) then s
    else
      match step
      case Submit(id, delay) => Accept(s, id, delay)
      case Take(id) => s.(queued := s.queued - {id}, held := Some(id))
      case Deliver => HandOver(s, s.held.value)
      case Start(w) => Begin(s, w)
      case Finish(w) => Complete(s, w)
      case Crash(w, error) => Free(FailWith(s, s.running[w].task, error), w)
      case TimeOut(w, _) => Expire(s, w)
      case Mature(id) => Arrive(s.(delayed := s.delayed - multiset{id}), id)
      case StopPool => s.(poolStarted := false)
  }

  function RunSteps(s: System, steps: seq<Step>): System {
    if steps == [] then s else Next(RunSteps(s, steps[..|steps| - 1]), steps[|steps| - 1])
  }

  /** A started system in which nothing has happened yet. */
  predicate Untouched(s: System) {
    && s.queued == {} && s.delayed == multiset{} && s.held.None? && s.handoff == []
    && s.poolStarted && s.running == map[] && s.completed == 0 && s.failed == 0
    && s.ledger == Ledger(multiset{}, multiset{}, multiset{}, multiset{}) && s.waits == []
  }

  // ---------- counting copies ----------

  /** Copies on their way to a worker: queued, held by the orchestrator, delayed, or handed over. */
  function Waiting(s: System, id: TaskId): nat {
    (if id in s.queued then 1 else 0) + (if s.held == Some(id) then 1 else 0)
    + s.delayed[id] + multiset(s.handoff)[id]
  }

  function RunningOn(s: System, id: TaskId): set<WorkerId> {
    set w | w in s.running && s.running[w].task == id
  }

  function ArmedOn(s: System, id: TaskId): set<WorkerId> {
    set w | w in s.running && s.running[w].task == id && s.running[w].armed
  }

  function RetriesOf(s: System, id: TaskId): int {
    if id in s.tasks then s.tasks[id].retryCount else 0
  }
}
