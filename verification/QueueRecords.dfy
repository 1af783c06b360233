/**
  What recovery makes of the events a task queue records: how the record of a task stands after a dequeue and
  after a cancellation, and what the queue's counters count.
 */
module QueueRecords {
  import opened Wrappers
  import opened EventReplay
  import opened QueueModel
  import opened QueueRefinement
  import opened QueueRuns
  import opened RecoveredRecords

  // ---------- one call ----------

  /** A refused call and a peek leave no event, and an accepted one leaves an event of its own time. */
  lemma StepRecords(q: QueueState, op: Op, now: Time, base: RuntimeState, x: TaskId)
    requires HeapShape(q.policy) && x in Fold(q.log, base).tasks
    ensures var (next, reply) := QueueStep(q, op, now);
      var r := Fold(q.log, base).tasks[x];
      && x in Fold(next.log, base).tasks
      && Fold(next.log, base).tasks[x] == if reply == Done && op.Enqueue? && op.task.id == x then r.(status := Pending)
           else if reply.Got? && op == Cancel(x) then
             r.(status := Failed, completedAt := Some(now), errorMessage := Some("Task cancelled."))
           else r
  {
    LogGrows(q, op, now);
    var (next, reply) := QueueStep(q, op, now);
    hide *;
    if next.log != q.log {
      var e := next.log[|q.log|];
      assert next.log == q.log + [e];
      RecordAfter(q.log, e, base, x);
    }
  }

  lemma RecordAfter(log: seq<Event>, e: Event, base: RuntimeState, x: TaskId)
    requires x in Fold(log, base).tasks && (e.fact.TaskQueued? || e.fact.TaskDequeued? || e.fact.TaskCancelled?)
    ensures var r := Fold(log, base).tasks[x];
      && x in Fold(log + [e], base).tasks
      && Fold(log + [e], base).tasks[x] ==
           if e.fact == TaskQueued(x) then r.(status := Pending)
           else if e.fact == TaskCancelled(x) then
             r.(status := Failed, completedAt := Some(e.timestamp), errorMessage := Some("Task cancelled."))
           else r
  {
    FoldSnoc(log, e, base);
    hide Fold, ApplyToWorkers, ApplyToQueue, ApplyToScheduler;
  }

  lemma LogGrows(q: QueueState, op: Op, now: Time)
    requires HeapShape(q.policy)
    ensures var (next, reply) := QueueStep(q, op, now);
      if reply == Done && op.Enqueue? then next.log == q.log + [Event(now, TaskQueued(op.task.id))]
      else if reply.Got? && op.Cancel? then next.log == q.log + [Event(now, TaskCancelled(op.id))]
      else next.log == q.log || exists x :: next.log == q.log + [Event(now, TaskDequeued(x))]
  {
    hide PolicyNext, PolicyPeek, PolicyAdd, PolicyRemove, Full, HeapShape;
  }

  /** A task dequeued is recovered with the record it had; one cancelled, as failed at that time. */
  lemma DequeueAndCancelDiffer(q: QueueState, id: TaskId, now: Time, base: RuntimeState)
    requires ValidQueue(q) && HeapShape(q.policy) && id in q.storage && id in Fold(q.log, base).tasks
    ensures var r := Fold(q.log, base).tasks[id];
      var cancelled, dequeued := QueueStep(q, Cancel(id), now), QueueStep(q, Dequeue, now);
      && cancelled.1.Got? && dequeued.1.Got?
      && id in Fold(cancelled.0.log, base).tasks && id in Fold(dequeued.0.log, base).tasks
      && Fold(cancelled.0.log, base).tasks[id] ==
           r.(status := Failed, completedAt := Some(now), errorMessage := Some("Task cancelled."))
      && Fold(dequeued.0.log, base).tasks[id] == r
  {
    DequeueServesMostUrgent(q, now, id);
    StepRecords(q, Cancel(id), now, base, id);
    StepRecords(q, Dequeue, now, base, id);
    hide Fold, PolicyNext, ValidQueue;
  }

  // ---------- whole runs ----------

  /** The status the last accepted enqueue or cancellation of the task leaves. */
  ghost function StatusAfter(q: QueueState, calls: seq<Call>, x: TaskId, before: TaskStatus): TaskStatus
    requires HeapShape(q.policy)
  {
    if calls == [] then before
    else
      var front, last := calls[..|calls| - 1], calls[|calls| - 1];
      var reply := QueueStep(After(q, front), last.op, last.now).1;
      if reply == Done && last.op.Enqueue? && last.op.task.id == x then Pending
      else if reply.Got? && last.op == Cancel(x) then Failed
      else StatusAfter(q, front, x, before)
  }

  /** Recovery tells a dequeued task from a cancelled one: the first stays pending, the second is failed. */
  lemma {:induction false} RecoveredStatus(q: QueueState, calls: seq<Call>, base: RuntimeState, x: TaskId)
    requires Empty(q) && HeapShape(q.policy) && x in base.tasks
    ensures var r := Fold(After(q, calls).log, base);
      x in r.tasks && r.tasks[x].status == StatusAfter(q, calls, x, base.tasks[x].status)
  {
    if calls != [] {
      var front, last := calls[..|calls| - 1], calls[|calls| - 1];
      RecoveredStatus(q, front, base, x);
      StepRecords(After(q, front), last.op, last.now, base, x);
      hide Fold, QueueStep, Empty;
    }
  }

  // ---------- the counters ----------

  predicate IsEnqueue(op: Op) {
    op.Enqueue?
  }

  predicate IsDequeue(op: Op) {
    op.Dequeue?
  }

  predicate IsCancel(op: Op) {
    op.Cancel?
  }

  /** How many calls of a kind were accepted. */
  ghost function Accepted(q: QueueState, calls: seq<Call>, kind: Op -> bool): nat
    requires HeapShape(q.policy)
  {
    if calls == [] then 0
    else
      var front, last := calls[..|calls| - 1], calls[|calls| - 1];
      var reply := QueueStep(After(q, front), last.op, last.now).1;
      Accepted(q, front, kind) + if kind(last.op) && (reply == Done || reply.Got?) then 1 else 0
  }

  lemma StepCounts(q: QueueState, op: Op, now: Time)
    requires HeapShape(q.policy)
    ensures var (next, reply) := QueueStep(q, op, now); var one := if reply == Done || reply.Got? then 1 else 0;
      && next.enqueued == q.enqueued + (if op.Enqueue? then one else 0)
      && next.dequeued == q.dequeued + (if op.Dequeue? then one else 0)
      && next.cancelled == q.cancelled + if op.Cancel? then one else 0
  {
    hide PolicyNext, PolicyPeek, PolicyAdd, PolicyRemove, Full, HeapShape;
  }

  /** Each counter counts the accepted calls of its own kind. */
  lemma {:induction false} CountersCountReplies(q: QueueState, calls: seq<Call>)
    requires Empty(q) && HeapShape(q.policy)
    ensures var r := After(q, calls);
      && r.enqueued == Accepted(q, calls, IsEnqueue)
      && r.dequeued == Accepted(q, calls, IsDequeue)
      && r.cancelled == Accepted(q, calls, IsCancel)
  {
    if calls != [] {
      var front, last := calls[..|calls| - 1], calls[|calls| - 1];
      CountersCountReplies(q, front);
      StepCounts(After(q, front), last.op, last.now);
      hide QueueStep, Empty;
    }
  }
}
