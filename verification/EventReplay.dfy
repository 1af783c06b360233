/**
  The runtime state, the recorded events, and what replaying a log does to the state. Per task and per
  worker a log acts as one patch, and on each id list as a sequence of insertions and removals.
 */
module EventReplay {
  import opened Wrappers
  import opened Sequences
  import opened OrderedReplay

  type TaskId = string
  type WorkerId = string
  type Time = int

  datatype TaskStatus = Pending | Running | Completed | Failed

  datatype TaskExecution = TaskExecution(
    taskId: TaskId, title: string, taskType: string, status: TaskStatus, createdAt: Time,
    startedAt: Option<Time>, completedAt: Option<Time>, retryCount: int,
    metadata: map<string, string>, errorMessage: Option<string>)

  datatype WorkerSnapshot = WorkerSnapshot(
    workerId: WorkerId, state: string, currentTask: Option<TaskId>, heartbeat: Time,
    tasksProcessed: int, failures: int, startTime: Time)

  datatype QueueSnapshot = QueueSnapshot(
    queuedIds: seq<TaskId>, size: int, capacity: Option<int>, policyType: string)

  datatype SchedulerSnapshot = SchedulerSnapshot(
    started: bool, uptime: real, delayedIds: seq<TaskId>, activeTimeouts: map<TaskId, real>)

  datatype RuntimeState = RuntimeState(
    timestamp: Time, tasks: map<TaskId, TaskExecution>, workers: map<WorkerId, WorkerSnapshot>,
    queue: QueueSnapshot, scheduler: SchedulerSnapshot)

  /** The recorded events. `Unreplayed` stands for the kinds recovery ignores. */
  datatype Fact =
    | TaskSubmitted(task: TaskId, title: string, taskType: string, metadata: map<string, string>)
    | TaskQueued(task: TaskId)
    | TaskDequeued(task: TaskId)
    | TaskStarted(task: TaskId)
    | TaskCompleted(task: TaskId)
    | TaskFailed(task: TaskId, error: string)
    | TaskCancelled(task: TaskId)
    | TaskTimedOut(task: TaskId)
    | TaskRetried(task: TaskId, retryCount: int)
    | WorkerStarted(worker: WorkerId)
    | WorkerStopped(worker: WorkerId)
    | WorkerHeartbeat(worker: WorkerId, heartbeat: Time)
    | WorkerFailed(worker: WorkerId, workerError: string)
    | WorkerRecovered(worker: WorkerId)
    | SchedulerStarted
    | SchedulerStopped
    | RetryScheduled(task: TaskId, delay: real)
    | TimeoutTriggered(task: TaskId, timeout: real)
    | DelayedTaskReleased(task: TaskId)
    | Unreplayed

  datatype Event = Event(timestamp: Time, fact: Fact)

  // ---------- what one event does to a task ----------

  /** Replace a task's record, or adjust the fields named if the task is known. */
  datatype TaskPatch =
    | Replace(record: TaskExecution)
    | Adjust(
        status: Option<TaskStatus>, startedAt: Option<Time>, completedAt: Option<Time>,
        error: Option<string>, retries: Option<int>)

  const NO_TASK_CHANGE := Adjust(None, None, None, None, None)

  /** The task whose record an event touches. A dequeue touches none. */
  function TouchedTask(f: Fact): Option<TaskId> {
    match f
    case TaskSubmitted(t, _, _, _) => Some(t)
    case TaskQueued(t) => Some(t)
    case TaskStarted(t) => Some(t)
    case TaskCompleted(t) => Some(t)
    case TaskFailed(t, _) => Some(t)
    case TaskCancelled(t) => Some(t)
    case TaskTimedOut(t) => Some(t)
    case TaskRetried(t, _) => Some(t)
    case _ => None
  }

  function TaskChange(e: Event): TaskPatch {
    match e.fact
    case TaskSubmitted(t, title, kind, metadata) =>
      Replace(TaskExecution(t, title, kind, Pending, e.timestamp, None, None, 0, metadata, None))
    case TaskQueued(_) => Adjust(Some(Pending), None, None, None, None)
    case TaskStarted(_) => Adjust(Some(Running), Some(e.timestamp), None, None, None)
    case TaskCompleted(_) => Adjust(Some(Completed), None, Some(e.timestamp), None, None)
    case TaskFailed(_, error) => Adjust(Some(Failed), None, Some(e.timestamp), Some(error), None)
    case TaskCancelled(_) => Adjust(Some(Failed), None, Some(e.timestamp), Some("Task cancelled."), None)
    case TaskTimedOut(_) => Adjust(Some(Failed), None, Some(e.timestamp), Some("Task timed out."), None)
    case TaskRetried(_, count) => Adjust(Some(Pending), None, None, None, Some(count))
    case _ => NO_TASK_CHANGE
  }

  function Or<T>(change: Option<T>, current: T): T {
    if change.Some? then change.value else current
  }

  function Later<T>(change: Option<T>, current: Option<T>): Option<T> {
    if change.Some? then change else current
  }

  function AdjustRecord(p: TaskPatch, r: TaskExecution): TaskExecution
    requires p.Adjust?
  {
    r.(status := Or(p.status, r.status),
       startedAt := Later(p.startedAt, r.startedAt),
       completedAt := Later(p.completedAt, r.completedAt),
       errorMessage := Later(p.error, r.errorMessage),
       retryCount := Or(p.retries, r.retryCount))
  }

  function PatchTask(p: TaskPatch, current: Option<TaskExecution>): Option<TaskExecution> {
    if p.Replace? then Some(p.record)
    else if current.None? then None
    else Some(AdjustRecord(p, current.value))
  }

  // ---------- what one event does to a worker ----------

  /** A worker is restarted; otherwise fields change and failures are counted up. */
  datatype WorkerPatch =
    | Restart(record: WorkerSnapshot)
    | Update(state: Option<string>, heartbeat: Option<Time>, moreFailures: nat)

  const NO_WORKER_CHANGE := Update(None, None, 0)

  function TouchedWorker(f: Fact): Option<WorkerId> {
    match f
    case WorkerStarted(w) => Some(w)
    case WorkerStopped(w) => Some(w)
    case WorkerHeartbeat(w, _) => Some(w)
    case WorkerFailed(w, _) => Some(w)
    case WorkerRecovered(w) => Some(w)
    case _ => None
  }

  function WorkerChange(e: Event): WorkerPatch {
    match e.fact
    case WorkerStarted(w) => Restart(WorkerSnapshot(w, "idle", None, e.timestamp, 0, 0, e.timestamp))
    case WorkerStopped(_) => Update(Some("stopped"), None, 0)
    case WorkerHeartbeat(_, time) => Update(None, Some(time), 0)
    case WorkerFailed(_, _) => Update(Some("failed"), None, 1)
    case WorkerRecovered(_) => Update(Some("idle"), None, 0)
    case _ => NO_WORKER_CHANGE
  }

  function PatchWorker(p: WorkerPatch, current: Option<WorkerSnapshot>): Option<WorkerSnapshot> {
    if p.Restart? then Some(p.record)
    else if current.None? then None
    else
      var r := current.value;
      Some(r.(state := Or(p.state, r.state),
              heartbeat := Or(p.heartbeat, r.heartbeat),
              failures := r.failures + p.moreFailures))
  }

  // ---------- what one event does to the rest ----------

  /** Queued, dequeued and finished events act on the list of queued ids. */
  function QueueOp(f: Fact): ListOp<TaskId> {
    match f
    case TaskQueued(t) => Insert(t)
    case TaskDequeued(t) => Remove(t)
    case TaskCompleted(t) => Remove(t)
    case TaskFailed(t, _) => Remove(t)
    case TaskCancelled(t) => Remove(t)
    case TaskTimedOut(t) => Remove(t)
    case _ => Leave
  }

  function DelayOp(f: Fact): ListOp<TaskId> {
    match f
    case RetryScheduled(t, _) => Insert(t)
    case DelayedTaskReleased(t) => Remove(t)
    case _ => Leave
  }

  function Lookup<K, V>(m: map<K, V>, k: K): Option<V> {
    if k in m then Some(m[k]) else None
  }

  function Store<K, V>(m: map<K, V>, k: K, v: Option<V>): map<K, V> {
    if v.Some? then m[k := v.value] else m
  }

  function ApplyToTasks(tasks: map<TaskId, TaskExecution>, e: Event): map<TaskId, TaskExecution> {
    match TouchedTask(e.fact)
    case Some(t) => Store(tasks, t, PatchTask(TaskChange(e), Lookup(tasks, t)))
    case None => tasks
  }

  function ApplyToWorkers(workers: map<WorkerId, WorkerSnapshot>, e: Event): map<WorkerId, WorkerSnapshot> {
    match TouchedWorker(e.fact)
    case Some(w) => Store(workers, w, PatchWorker(WorkerChange(e), Lookup(workers, w)))
    case None => workers
  }

  /** The recorded size is refreshed by the events that act on the queue. */
  function ApplyToQueue(q: QueueSnapshot, f: Fact): QueueSnapshot {
    if QueueOp(f) == Leave then q
    else
      var ids := ApplyOp(q.queuedIds, QueueOp(f));
      q.(queuedIds := ids, size := |ids|)
  }

  function ApplyToScheduler(s: SchedulerSnapshot, f: Fact): SchedulerSnapshot {
    s.(started := if f.SchedulerStarted? then true else if f.SchedulerStopped? then false else s.started,
       delayedIds := ApplyOp(s.delayedIds, DelayOp(f)),
       activeTimeouts := if f.TimeoutTriggered? then s.activeTimeouts[f.task := f.timeout] else s.activeTimeouts)
  }

  function Apply(s: RuntimeState, e: Event): RuntimeState {
    s.(tasks := ApplyToTasks(s.tasks, e),
       workers := ApplyToWorkers(s.workers, e),
       queue := ApplyToQueue(s.queue, e.fact),
       scheduler := ApplyToScheduler(s.scheduler, e.fact))
  }

  function Fold(events: seq<Event>, s: RuntimeState): RuntimeState {
    if events == [] then s else Apply(Fold(events[..|events| - 1], s), events[|events| - 1])
  }

  lemma {:induction false} FoldConcat(a: seq<Event>, b: seq<Event>, s: RuntimeState)
    ensures Fold(a + b, s) == Fold(b, Fold(a, s))
  {
    if b == [] {
      assert a + b == a;
    } else {
      FoldConcat(a, b[..|b| - 1], s);
      assert (a + b)[..|a + b| - 1] == a + b[..|b| - 1];
    }
  }

  // ---------- what every replay keeps ----------

  predicate Over(s: TaskStatus) {
    s == Completed || s == Failed
  }

  /** Lists without duplicates, an exact size, tasks filed under their ids, and no finished task queued. */
  ghost predicate ValidState(s: RuntimeState) {
    && NoDup(s.queue.queuedIds) && NoDup(s.scheduler.delayedIds)
    && s.queue.size == |s.queue.queuedIds|
    && (forall t :: t in s.tasks ==> s.tasks[t].taskId == t)
    && (forall w :: w in s.workers ==> s.workers[w].workerId == w)
    && (forall t :: t in s.queue.queuedIds && t in s.tasks ==> !Over(s.tasks[t].status))
  }

  lemma ApplyKeepsTasks(s: RuntimeState, e: Event)
    requires ValidState(s)
    ensures forall t :: t in Apply(s, e).tasks ==> Apply(s, e).tasks[t].taskId == t
    ensures forall w :: w in Apply(s, e).workers ==> Apply(s, e).workers[w].workerId == w
  {
  }

  lemma ApplyKeepsQueue(s: RuntimeState, e: Event, t: TaskId)
    requires ValidState(s)
    requires t in Apply(s, e).queue.queuedIds && t in Apply(s, e).tasks
    ensures !Over(Apply(s, e).tasks[t].status)
  {
    ApplyOpIsSound(s.queue.queuedIds, QueueOp(e.fact), t);
  }

  lemma ApplyKeepsValid(s: RuntimeState, e: Event)
    requires ValidState(s)
    ensures ValidState(Apply(s, e))
  {
    ApplyKeepsTasks(s, e);
    forall t | t in Apply(s, e).queue.queuedIds && t in Apply(s, e).tasks
      ensures !Over(Apply(s, e).tasks[t].status)
    {
      ApplyKeepsQueue(s, e, t);
    }
    ApplyOpIsSound(s.queue.queuedIds, QueueOp(e.fact), "");
    ApplyOpIsSound(s.scheduler.delayedIds, DelayOp(e.fact), "");
  }

  /** Whatever the events, replaying them over a valid state gives a valid state. */
  lemma {:induction false} ReplayKeepsValid(events: seq<Event>, s: RuntimeState)
    requires ValidState(s)
    ensures ValidState(Fold(events, s))
  {
    if events != [] {
      ReplayKeepsValid(events[..|events| - 1], s);
      ApplyKeepsValid(Fold(events[..|events| - 1], s), events[|events| - 1]);
    }
  }
}
