/**
  What a replayed log says about each record, by the kinds of its events: every field is decided by the last
  event of the kinds that bear on it, whatever came before.
 */
module RecoveredRecords {
  import opened Wrappers
  import opened OrderedReplay
  import opened EventReplay

  // ---------- the last event that bears on something ----------

  /** The `i`-th event bears on it, and no later one does. */
  ghost predicate IsLast(events: seq<Event>, i: int, bears: Fact -> bool) {
    0 <= i < |events| && bears(events[i].fact) && forall j :: i < j < |events| ==> !bears(events[j].fact)
  }

  ghost predicate NoneBears(events: seq<Event>, bears: Fact -> bool) {
    forall j :: 0 <= j < |events| ==> !bears(events[j].fact)
  }

  /** Events that do not bear on what is viewed leave it alone. */
  ghost predicate OnlyThese<V(!new)>(view: RuntimeState -> V, bears: Fact -> bool) {
    forall s: RuntimeState, e: Event :: !bears(e.fact) ==> view(Apply(s, e)) == view(s)
  }

  lemma {:induction false} NoneDecides<V(!new)>(
    events: seq<Event>, s: RuntimeState, view: RuntimeState -> V, bears: Fact -> bool)
    requires OnlyThese(view, bears) && NoneBears(events, bears)
    ensures view(Fold(events, s)) == view(s)
  {
    hide Apply;
    if events != [] {
      NoneDecides(events[..|events| - 1], s, view, bears);
    }
  }

  lemma {:induction false} LastDecides<V(!new)>(
    events: seq<Event>, s: RuntimeState, i: int, view: RuntimeState -> V, bears: Fact -> bool)
    requires OnlyThese(view, bears) && IsLast(events, i, bears)
    ensures view(Fold(events, s)) == view(Apply(Fold(events[..i], s), events[i]))
  {
    hide Apply;
    var front := events[..|events| - 1];
    if i < |events| - 1 {
      LastDecides(front, s, i, view, bears);
      assert front[..i] == events[..i];
    }
  }

  ghost predicate Decided<V(!new)>(
    events: seq<Event>, s: RuntimeState, i: int, view: RuntimeState -> V, bears: Fact -> bool)
  {
    && (IsLast(events, i, bears) ==>
          0 <= i < |events| && bears(events[i].fact)
          && view(Fold(events, s)) == view(Apply(Fold(events[..i], s), events[i])))
    && (NoneBears(events, bears) ==> view(Fold(events, s)) == view(s))
  }

  lemma ViewIsDecided<V(!new)>(
    events: seq<Event>, s: RuntimeState, i: int, view: RuntimeState -> V, bears: Fact -> bool)
    requires OnlyThese(view, bears)
    ensures Decided(events, s, i, view, bears)
  {
    if IsLast(events, i, bears) {
      LastDecides(events, s, i, view, bears);
    }
    if NoneBears(events, bears) {
      NoneDecides(events, s, view, bears);
    }
  }

  // ---------- task records ----------

  predicate AboutTask(f: Fact, t: TaskId) {
    match f
    case TaskSubmitted(x, _, _, _) => x == t
    case TaskQueued(x) => x == t
    case TaskDequeued(x) => x == t
    case TaskStarted(x) => x == t
    case TaskCompleted(x) => x == t
    case TaskFailed(x, _) => x == t
    case TaskCancelled(x) => x == t
    case TaskTimedOut(x) => x == t
    case TaskRetried(x, _) => x == t
    case _ => false
  }

  predicate EndsTask(f: Fact) {
    f.TaskCompleted? || f.TaskFailed? || f.TaskCancelled? || f.TaskTimedOut?
  }

  /** A dequeue says nothing about the status. */
  function BearsOnStatus(t: TaskId): Fact -> bool {
    (f: Fact) => AboutTask(f, t) && !f.TaskDequeued?
  }

  function BearsOnStart(t: TaskId): Fact -> bool {
    (f: Fact) => AboutTask(f, t) && (f.TaskSubmitted? || f.TaskStarted?)
  }

  function BearsOnEnd(t: TaskId): Fact -> bool {
    (f: Fact) => AboutTask(f, t) && (f.TaskSubmitted? || EndsTask(f))
  }

  /** A completion leaves an earlier error message in place. */
  function BearsOnError(t: TaskId): Fact -> bool {
    (f: Fact) => AboutTask(f, t) && (f.TaskSubmitted? || (EndsTask(f) && !f.TaskCompleted?))
  }

  function BearsOnRetries(t: TaskId): Fact -> bool {
    (f: Fact) => AboutTask(f, t) && (f.TaskSubmitted? || f.TaskRetried?)
  }

  function Submits(t: TaskId): Fact -> bool {
    (f: Fact) => f.TaskSubmitted? && f.task == t
  }

  function TaskView<V>(t: TaskId, field: TaskExecution -> V): RuntimeState -> Option<V> {
    (s: RuntimeState) => if t in s.tasks then Some(field(s.tasks[t])) else None
  }

  lemma OneMoreBears(front: seq<Event>, e: Event, bears: Fact -> bool)
    ensures NoneBears(front + [e], bears) <==> NoneBears(front, bears) && !bears(e.fact)
  {
    if NoneBears(front + [e], bears) {
      assert (front + [e])[|front|] == e;
      assert forall j :: 0 <= j < |front| ==> front[j] == (front + [e])[j];
    }
  }

  lemma FoldSnoc(front: seq<Event>, e: Event, s: RuntimeState)
    ensures Fold(front + [e], s) == Apply(Fold(front, s), e)
  {
    assert (front + [e])[..|front|] == front;
  }

  /** A task is known afterwards exactly when it was before or the log submits it. */
  lemma {:induction false} KnownIff(events: seq<Event>, s: RuntimeState, t: TaskId)
    ensures t in Fold(events, s).tasks <==> t in s.tasks || !NoneBears(events, Submits(t))
  {
    if events != [] {
      var front, e := events[..|events| - 1], events[|events| - 1];
      KnownIff(front, s, t);
      OneMoreBears(front, e, Submits(t));
      FoldSnoc(front, e, s);
      assert events == front + [e];
      hide NoneBears, Fold;
    }
  }

  lemma FieldIsDecided<V(!new)>(
    events: seq<Event>, s: RuntimeState, t: TaskId, i: int, field: TaskExecution -> V, bears: Fact -> bool)
    requires OnlyThese(TaskView(t, field), bears) && t in Fold(events, s).tasks
    ensures IsLast(events, i, bears) ==>
      && 0 <= i < |events| && bears(events[i].fact)
      && var r := Apply(Fold(events[..i], s), events[i]);
         t in r.tasks && field(Fold(events, s).tasks[t]) == field(r.tasks[t])
    ensures NoneBears(events, bears) ==> t in s.tasks && field(Fold(events, s).tasks[t]) == field(s.tasks[t])
  {
    var view := TaskView(t, field);
    assert view(Fold(events, s)) == Some(field(Fold(events, s).tasks[t]));
    ViewIsDecided(events, s, i, view, bears);
    hide Fold, Apply, OnlyThese;
  }

  /** The last event about a task, dequeues aside, decides its status. */
  lemma StatusIsDecided(events: seq<Event>, s: RuntimeState, t: TaskId, i: int)
    requires t in Fold(events, s).tasks
    ensures IsLast(events, i, BearsOnStatus(t)) ==> (Fold(events, s).tasks[t].status ==
      match events[i].fact
      case TaskStarted(_) => Running
      case TaskCompleted(_) => Completed
      case TaskFailed(_, _) => Failed
      case TaskCancelled(_) => Failed
      case TaskTimedOut(_) => Failed
      case _ => Pending)
    ensures NoneBears(events, BearsOnStatus(t)) ==>
      t in s.tasks && Fold(events, s).tasks[t].status == s.tasks[t].status
  {
    var field := (r: TaskExecution) => r.status;
    hide ApplyToWorkers, ApplyToQueue, ApplyToScheduler, Fold, IsLast, NoneBears;
    assert OnlyThese(TaskView(t, field), BearsOnStatus(t));
    hide OnlyThese;
    FieldIsDecided(events, s, t, i, field, BearsOnStatus(t));
  }

  /** A task's start is that of its last start since it was submitted. */
  lemma StartIsDecided(events: seq<Event>, s: RuntimeState, t: TaskId, i: int)
    requires t in Fold(events, s).tasks
    ensures IsLast(events, i, BearsOnStart(t)) ==> (Fold(events, s).tasks[t].startedAt ==
      if events[i].fact.TaskSubmitted? then None else Some(events[i].timestamp))
    ensures NoneBears(events, BearsOnStart(t)) ==>
      t in s.tasks && Fold(events, s).tasks[t].startedAt == s.tasks[t].startedAt
  {
    var field := (r: TaskExecution) => r.startedAt;
    hide ApplyToWorkers, ApplyToQueue, ApplyToScheduler, Fold, IsLast, NoneBears;
    assert OnlyThese(TaskView(t, field), BearsOnStart(t));
    hide OnlyThese;
    FieldIsDecided(events, s, t, i, field, BearsOnStart(t));
  }

  /** A task's end is that of its last completion, failure, cancellation or time-out since it was submitted. */
  lemma EndIsDecided(events: seq<Event>, s: RuntimeState, t: TaskId, i: int)
    requires t in Fold(events, s).tasks
    ensures IsLast(events, i, BearsOnEnd(t)) ==> (Fold(events, s).tasks[t].completedAt ==
      if events[i].fact.TaskSubmitted? then None else Some(events[i].timestamp))
    ensures NoneBears(events, BearsOnEnd(t)) ==>
      t in s.tasks && Fold(events, s).tasks[t].completedAt == s.tasks[t].completedAt
  {
    var field := (r: TaskExecution) => r.completedAt;
    hide ApplyToWorkers, ApplyToQueue, ApplyToScheduler, Fold, IsLast, NoneBears;
    assert OnlyThese(TaskView(t, field), BearsOnEnd(t));
    hide OnlyThese;
    FieldIsDecided(events, s, t, i, field, BearsOnEnd(t));
  }

  /** The error message is that of the last failure, cancellation or time-out since the submission. */
  lemma ErrorIsDecided(events: seq<Event>, s: RuntimeState, t: TaskId, i: int)
    requires t in Fold(events, s).tasks
    ensures IsLast(events, i, BearsOnError(t)) ==> (Fold(events, s).tasks[t].errorMessage ==
      match events[i].fact
      case TaskFailed(_, error) => Some(error)
      case TaskCancelled(_) => Some("Task cancelled.")
      case TaskTimedOut(_) => Some("Task timed out.")
      case _ => None)
    ensures NoneBears(events, BearsOnError(t)) ==>
      t in s.tasks && Fold(events, s).tasks[t].errorMessage == s.tasks[t].errorMessage
  {
    var field := (r: TaskExecution) => r.errorMessage;
    hide ApplyToWorkers, ApplyToQueue, ApplyToScheduler, Fold, IsLast, NoneBears;
    assert OnlyThese(TaskView(t, field), BearsOnError(t));
    hide OnlyThese;
    FieldIsDecided(events, s, t, i, field, BearsOnError(t));
  }

  /** The retry count is the one the last retry since the submission reported. */
  lemma RetryCountIsDecided(events: seq<Event>, s: RuntimeState, t: TaskId, i: int)
    requires t in Fold(events, s).tasks
    ensures IsLast(events, i, BearsOnRetries(t)) ==> (Fold(events, s).tasks[t].retryCount ==
      match events[i].fact
      case TaskRetried(_, count) => count
      case _ => 0)
    ensures NoneBears(events, BearsOnRetries(t)) ==>
      t in s.tasks && Fold(events, s).tasks[t].retryCount == s.tasks[t].retryCount
  {
    var field := (r: TaskExecution) => r.retryCount;
    hide ApplyToWorkers, ApplyToQueue, ApplyToScheduler, Fold, IsLast, NoneBears;
    assert OnlyThese(TaskView(t, field), BearsOnRetries(t));
    hide OnlyThese;
    FieldIsDecided(events, s, t, i, field, BearsOnRetries(t));
  }

  datatype Identity = Identity(
    taskId: TaskId, title: string, taskType: string, createdAt: Time, metadata: map<string, string>)

  function IdentityOf(r: TaskExecution): Identity {
    Identity(r.taskId, r.title, r.taskType, r.createdAt, r.metadata)
  }

  /** Everything else about a task is what its last submission said. */
  lemma IdentityIsDecided(events: seq<Event>, s: RuntimeState, t: TaskId, i: int)
    requires t in Fold(events, s).tasks
    ensures IsLast(events, i, Submits(t)) ==>
      && events[i].fact.TaskSubmitted?
      && IdentityOf(Fold(events, s).tasks[t]) ==
           Identity(t, events[i].fact.title, events[i].fact.taskType, events[i].timestamp, events[i].fact.metadata)
    ensures NoneBears(events, Submits(t)) ==>
      t in s.tasks && IdentityOf(Fold(events, s).tasks[t]) == IdentityOf(s.tasks[t])
  {
    var field := (r: TaskExecution) => IdentityOf(r);
    hide ApplyToWorkers, ApplyToQueue, ApplyToScheduler, Fold, IsLast, NoneBears;
    assert OnlyThese(TaskView(t, field), Submits(t));
    hide OnlyThese;
    FieldIsDecided(events, s, t, i, field, Submits(t));
  }

  // ---------- worker records ----------

  predicate AboutWorker(f: Fact, w: WorkerId) {
    match f
    case WorkerStarted(x) => x == w
    case WorkerStopped(x) => x == w
    case WorkerHeartbeat(x, _) => x == w
    case WorkerFailed(x, _) => x == w
    case WorkerRecovered(x) => x == w
    case _ => false
  }

  function BearsOnWorkerState(w: WorkerId): Fact -> bool {
    (f: Fact) => AboutWorker(f, w) && !f.WorkerHeartbeat?
  }

  function BearsOnHeartbeat(w: WorkerId): Fact -> bool {
    (f: Fact) => AboutWorker(f, w) && (f.WorkerStarted? || f.WorkerHeartbeat?)
  }

  function Starts(w: WorkerId): Fact -> bool {
    (f: Fact) => AboutWorker(f, w) && f.WorkerStarted?
  }

  function WorkerView<V>(w: WorkerId, field: WorkerSnapshot -> V): RuntimeState -> Option<V> {
    (s: RuntimeState) => if w in s.workers then Some(field(s.workers[w])) else None
  }

  lemma WorkerFieldIsDecided<V(!new)>(
    events: seq<Event>, s: RuntimeState, w: WorkerId, i: int, field: WorkerSnapshot -> V, bears: Fact -> bool)
    requires OnlyThese(WorkerView(w, field), bears) && w in Fold(events, s).workers
    ensures IsLast(events, i, bears) ==>
      && 0 <= i < |events| && bears(events[i].fact)
      && var r := Apply(Fold(events[..i], s), events[i]);
         w in r.workers && field(Fold(events, s).workers[w]) == field(r.workers[w])
    ensures NoneBears(events, bears) ==> w in s.workers && field(Fold(events, s).workers[w]) == field(s.workers[w])
  {
    var view := WorkerView(w, field);
    assert view(Fold(events, s)) == Some(field(Fold(events, s).workers[w]));
    ViewIsDecided(events, s, i, view, bears);
    hide Fold, Apply, OnlyThese;
  }

  /** The last start, stop, failure or recovery decides a worker's state. */
  lemma WorkerStateIsDecided(events: seq<Event>, s: RuntimeState, w: WorkerId, i: int)
    requires w in Fold(events, s).workers
    ensures IsLast(events, i, BearsOnWorkerState(w)) ==> (Fold(events, s).workers[w].state ==
      match events[i].fact
      case WorkerStopped(_) => "stopped"
      case WorkerFailed(_, _) => "failed"
      case _ => "idle")
    ensures NoneBears(events, BearsOnWorkerState(w)) ==>
      w in s.workers && Fold(events, s).workers[w].state == s.workers[w].state
  {
    var field := (r: WorkerSnapshot) => r.state;
    hide ApplyToTasks, ApplyToQueue, ApplyToScheduler, Fold, IsLast, NoneBears;
    assert OnlyThese(WorkerView(w, field), BearsOnWorkerState(w));
    hide OnlyThese;
    WorkerFieldIsDecided(events, s, w, i, field, BearsOnWorkerState(w));
  }

  /** The last start or heartbeat decides when a worker was last heard of. */
  lemma HeartbeatIsDecided(events: seq<Event>, s: RuntimeState, w: WorkerId, i: int)
    requires w in Fold(events, s).workers
    ensures IsLast(events, i, BearsOnHeartbeat(w)) ==> (Fold(events, s).workers[w].heartbeat ==
      match events[i].fact
      case WorkerHeartbeat(_, time) => time
      case _ => events[i].timestamp)
    ensures NoneBears(events, BearsOnHeartbeat(w)) ==>
      w in s.workers && Fold(events, s).workers[w].heartbeat == s.workers[w].heartbeat
  {
    var field := (r: WorkerSnapshot) => r.heartbeat;
    hide ApplyToTasks, ApplyToQueue, ApplyToScheduler, Fold, IsLast, NoneBears;
    assert OnlyThese(WorkerView(w, field), BearsOnHeartbeat(w));
    hide OnlyThese;
    WorkerFieldIsDecided(events, s, w, i, field, BearsOnHeartbeat(w));
  }

  datatype Career = Career(workerId: WorkerId, currentTask: Option<TaskId>, tasksProcessed: int, startTime: Time)

  function CareerOf(r: WorkerSnapshot): Career {
    Career(r.workerId, r.currentTask, r.tasksProcessed, r.startTime)
  }

  /** A start makes a worker new; nothing else touches its task, its counts of tasks or its start. */
  lemma CareerIsDecided(events: seq<Event>, s: RuntimeState, w: WorkerId, i: int)
    requires w in Fold(events, s).workers
    ensures IsLast(events, i, Starts(w)) ==>
      CareerOf(Fold(events, s).workers[w]) == Career(w, None, 0, events[i].timestamp)
    ensures NoneBears(events, Starts(w)) ==>
      w in s.workers && CareerOf(Fold(events, s).workers[w]) == CareerOf(s.workers[w])
  {
    var field := (r: WorkerSnapshot) => CareerOf(r);
    hide ApplyToTasks, ApplyToQueue, ApplyToScheduler, Fold, IsLast, NoneBears;
    assert OnlyThese(WorkerView(w, field), Starts(w));
    hide OnlyThese;
    WorkerFieldIsDecided(events, s, w, i, field, Starts(w));
  }

  /** The failures since a worker's last start, on top of those before the log if it did not start in it. */
  function FailuresSince(events: seq<Event>, w: WorkerId, before: int): int {
    if events == [] then before
    else
      match events[|events| - 1].fact
      case WorkerStarted(x) => if x == w then 0 else FailuresSince(events[..|events| - 1], w, before)
      case WorkerFailed(x, _) => FailuresSince(events[..|events| - 1], w, before) + if x == w then 1 else 0
      case _ => FailuresSince(events[..|events| - 1], w, before)
  }

  lemma {:induction false} FailuresAreCounted(events: seq<Event>, s: RuntimeState, w: WorkerId)
    requires w in Fold(events, s).workers
    ensures Fold(events, s).workers[w].failures ==
      FailuresSince(events, w, if w in s.workers then s.workers[w].failures else 0)
  {
    if events != [] {
      var front, e := events[..|events| - 1], events[|events| - 1];
      if w in Fold(front, s).workers {
        FailuresAreCounted(front, s, w);
      } else {
        assert e.fact == WorkerStarted(w);
      }
    }
  }

  /** A worker is known afterwards exactly when it was before or started in the log. */
  lemma {:induction false} WorkerKnownIff(events: seq<Event>, s: RuntimeState, w: WorkerId)
    ensures w in Fold(events, s).workers <==> w in s.workers || !NoneBears(events, Starts(w))
  {
    if events != [] {
      var front, e := events[..|events| - 1], events[|events| - 1];
      WorkerKnownIff(front, s, w);
      OneMoreBears(front, e, Starts(w));
      assert events == front + [e];
      FoldSnoc(front, e, s);
      hide NoneBears, Fold;
    }
  }

  // ---------- lists, flag and timeouts ----------

  function BearsOnQueue(t: TaskId): Fact -> bool {
    (f: Fact) => AboutTask(f, t) && (f.TaskQueued? || f.TaskDequeued? || EndsTask(f))
  }

  function BearsOnDelay(t: TaskId): Fact -> bool {
    (f: Fact) => (f.RetryScheduled? || f.DelayedTaskReleased?) && f.task == t
  }

  function BearsOnTimeout(t: TaskId): Fact -> bool {
    (f: Fact) => f.TimeoutTriggered? && f.task == t
  }

  function BearsOnFlag(): Fact -> bool {
    (f: Fact) => f.SchedulerStarted? || f.SchedulerStopped?
  }

  lemma {:induction false} RemoveOther(ids: seq<TaskId>, x: TaskId, y: TaskId)
    requires x != y
    ensures y in RemoveFirst(ids, x) <==> y in ids
  {
    if ids != [] {
      RemoveOther(ids[1..], x, y);
      assert ids == [ids[0]] + ids[1..];
    }
  }

  lemma OtherOpKeeps(ids: seq<TaskId>, op: ListOp<TaskId>, t: TaskId)
    requires op != Insert(t) && op != Remove(t)
    ensures t in ApplyOp(ids, op) <==> t in ids
  {
    if op.Remove? {
      RemoveOther(ids, op.item, t);
    }
  }

  function QueuedView(t: TaskId): RuntimeState -> bool {
    (s: RuntimeState) => t in s.queue.queuedIds
  }

  function DelayedView(t: TaskId): RuntimeState -> bool {
    (s: RuntimeState) => t in s.scheduler.delayedIds
  }

  /** A task is queued exactly when the last event that queues, dequeues or ends it queues it. */
  lemma QueueingIsDecided(events: seq<Event>, s: RuntimeState, t: TaskId, i: int)
    requires ValidState(s)
    ensures IsLast(events, i, BearsOnQueue(t)) ==>
      (t in Fold(events, s).queue.queuedIds <==> events[i].fact.TaskQueued?)
    ensures NoneBears(events, BearsOnQueue(t)) ==>
      (t in Fold(events, s).queue.queuedIds <==> t in s.queue.queuedIds)
  {
    hide ApplyToTasks, ApplyToWorkers, ApplyToScheduler, Fold;
    forall r: RuntimeState, e: Event | !BearsOnQueue(t)(e.fact)
      ensures QueuedView(t)(Apply(r, e)) == QueuedView(t)(r)
    {
      OtherOpKeeps(r.queue.queuedIds, QueueOp(e.fact), t);
    }
    ViewIsDecided(events, s, i, QueuedView(t), BearsOnQueue(t));
    if IsLast(events, i, BearsOnQueue(t)) {
      ReplayKeepsValid(events[..i], s);
      ApplyOpIsSound(Fold(events[..i], s).queue.queuedIds, QueueOp(events[i].fact), t);
    }
  }

  /** A task is delayed exactly when the last event that schedules or releases it schedules it. */
  lemma DelayIsDecided(events: seq<Event>, s: RuntimeState, t: TaskId, i: int)
    requires ValidState(s)
    ensures IsLast(events, i, BearsOnDelay(t)) ==>
      (t in Fold(events, s).scheduler.delayedIds <==> events[i].fact.RetryScheduled?)
    ensures NoneBears(events, BearsOnDelay(t)) ==>
      (t in Fold(events, s).scheduler.delayedIds <==> t in s.scheduler.delayedIds)
  {
    hide ApplyToTasks, ApplyToWorkers, ApplyToQueue, Fold;
    forall r: RuntimeState, e: Event | !BearsOnDelay(t)(e.fact)
      ensures DelayedView(t)(Apply(r, e)) == DelayedView(t)(r)
    {
      OtherOpKeeps(r.scheduler.delayedIds, DelayOp(e.fact), t);
    }
    ViewIsDecided(events, s, i, DelayedView(t), BearsOnDelay(t));
    if IsLast(events, i, BearsOnDelay(t)) {
      ReplayKeepsValid(events[..i], s);
      ApplyOpIsSound(Fold(events[..i], s).scheduler.delayedIds, DelayOp(events[i].fact), t);
    }
  }

  function TimeoutView(t: TaskId): RuntimeState -> Option<real> {
    (s: RuntimeState) => Lookup(s.scheduler.activeTimeouts, t)
  }

  function FlagView(): RuntimeState -> bool {
    (s: RuntimeState) => s.scheduler.started
  }

  /** The scheduler counts as started after a start not followed by a stop, and the last time-out report stands. */
  lemma SchedulerIsDecided(events: seq<Event>, s: RuntimeState, t: TaskId, i: int)
    ensures IsLast(events, i, BearsOnFlag()) ==>
      (Fold(events, s).scheduler.started <==> events[i].fact.SchedulerStarted?)
    ensures NoneBears(events, BearsOnFlag()) ==> Fold(events, s).scheduler.started == s.scheduler.started
    ensures IsLast(events, i, BearsOnTimeout(t)) ==>
      && events[i].fact.TimeoutTriggered?
      && Lookup(Fold(events, s).scheduler.activeTimeouts, t) == Some(events[i].fact.timeout)
    ensures NoneBears(events, BearsOnTimeout(t)) ==>
      Lookup(Fold(events, s).scheduler.activeTimeouts, t) == Lookup(s.scheduler.activeTimeouts, t)
  {
    ViewIsDecided(events, s, i, FlagView(), BearsOnFlag());
    ViewIsDecided(events, s, i, TimeoutView(t), BearsOnTimeout(t));
    hide Fold;
  }

  /** No event touches the queue's capacity or policy, the uptime or the timestamp. */
  lemma {:induction false} RestIsKept(events: seq<Event>, s: RuntimeState)
    ensures var r := Fold(events, s);
      && r.timestamp == s.timestamp && r.scheduler.uptime == s.scheduler.uptime
      && r.queue.capacity == s.queue.capacity && r.queue.policyType == s.queue.policyType
  {
    if events != [] {
      RestIsKept(events[..|events| - 1], s);
    }
  }
}
