/**
  What any run leaves in the books of the task queue: the size of the heap, the pops it cost, the bound on the
  stored tasks, and the list of queued ids that replaying the recorded events rebuilds.
 */
module QueueLedger {
  import opened Sequences
  import opened EntryHeap
  import opened OrderedReplay
  import opened EventReplay
  import opened ReplayOverlap
  import opened QueueModel
  import opened QueueRefinement
  import opened QueueRuns

  // ---------- heap size ----------

  ghost function Names(heap: set<Entry<TaskId>>): set<TaskId> {
    set e | e in heap :: e.item
  }

  lemma {:induction false} OneNamePerEntry(heap: set<Entry<TaskId>>)
    requires OneEntryPerId(heap)
    ensures |Names(heap)| == |heap|
  {
    if heap != {} {
      var e :| e in heap;
      OneNamePerEntry(heap - {e});
      assert Names(heap) == Names(heap - {e}) + {e.item};
      assert e.item !in Names(heap - {e});
    }
  }

  /** The heap holds one entry for each stored task and one for each tombstone, and nothing else. */
  lemma HeapIsStoredPlusTombstones(q: QueueState)
    requires ValidQueue(q) && q.policy.Heap?
    ensures |q.policy.heap| == |q.storage| + |q.policy.removed|
  {
    var heap, removed := q.policy.heap, q.policy.removed;
    OneNamePerEntry(heap);
    forall id ensures id in Names(heap) <==> id in q.storage.Keys + removed {
      assert id in Names(heap) <==> HasEntry(heap, id);
    }
    assert Names(heap) == q.storage.Keys + removed;
    assert q.storage.Keys !! removed;
    assert |q.storage.Keys| == |q.storage|;
  }

  // ---------- pops ----------

  /** How many entries one call to `next` takes off the heap. */
  ghost function NextPops(p: PolicyState): nat
    requires p.Heap? && HeapShape(p)
    decreases |p.heap|
  {
    if p.heap == {} then 0
    else
      var e := Least(p.heap);
      if e.item in p.removed then 1 + NextPops(Swept(p, e)) else 1
  }

  /** How many entries one call to `peek` takes off the heap. */
  ghost function PeekPops(p: PolicyState): nat
    requires p.Heap? && HeapShape(p)
    decreases |p.heap|
  {
    if p.heap == {} then 0
    else
      var e := Least(p.heap);
      if e.item in p.removed then 1 + PeekPops(Swept(p, e)) else 0
  }

  lemma {:induction false} PopsShrinkHeap(p: PolicyState)
    requires p.Heap? && HeapShape(p)
    ensures PolicyNext(p).1.Heap? && PolicyPeek(p).1.Heap?
    ensures PolicyNext(p).1.counter == p.counter && PolicyPeek(p).1.counter == p.counter
    ensures |PolicyNext(p).1.heap| == |p.heap| - NextPops(p)
    ensures |PolicyPeek(p).1.heap| == |p.heap| - PeekPops(p)
    decreases |p.heap|
  {
    if p.heap != {} {
      var e := Least(p.heap);
      if e.item in p.removed {
        PopsShrinkHeap(Swept(p, e));
      }
    }
  }

  ghost function PopsOf(q: QueueState, op: Op): nat
    requires HeapShape(q.policy)
  {
    if q.policy.Order? then 0
    else if op.Dequeue? then NextPops(q.policy)
    else if op.Peek? then PeekPops(q.policy)
    else 0
  }

  ghost function TotalPops(q: QueueState, calls: seq<Call>): nat
    requires HeapShape(q.policy)
  {
    if calls == [] then 0
    else
      var front := calls[..|calls| - 1];
      TotalPops(q, front) + PopsOf(After(q, front), calls[|calls| - 1].op)
  }

  lemma StepCountsPops(q: QueueState, c: Call)
    requires HeapShape(q.policy) && q.policy.Heap? && q.policy.counter == q.enqueued
    ensures var next := QueueStep(q, c.op, c.now).0;
      && next.policy.Heap? && next.policy.counter == next.enqueued
      && PopsOf(q, c.op) + |next.policy.heap| - |q.policy.heap| == next.enqueued - q.enqueued
  {
    hide HeapShape, PolicyAdd, PolicyNext, PolicyPeek, NextPops, PeekPops, Full, KeyOf;
    match c.op {
      case Enqueue(t) => EntryIsNew(q.policy, t);
      case Dequeue => PopsShrinkHeap(q.policy);
      case Peek => PopsShrinkHeap(q.policy);
      case Cancel(id) =>
    }
  }

  lemma EntryIsNew(p: PolicyState, t: Task)
    requires HeapShape(p) && p.Heap?
    ensures var r := PolicyAdd(p, t); r.Heap? && r.counter == p.counter + 1 && |r.heap| == |p.heap| + 1
  {
    assert Entry(KeyOf(p.kind, t), p.counter, t.id) !in p.heap;
  }

  /** The amortised bound: whatever the run, every pop is paid for by one enqueue. */
  lemma {:induction false} PopsArePaidFor(q: QueueState, calls: seq<Call>)
    requires Empty(q) && HeapShape(q.policy) && q.policy.Heap?
    ensures var r := After(q, calls);
      && r.policy.Heap? && r.policy.counter == r.enqueued
      && TotalPops(q, calls) + |r.policy.heap| == r.enqueued
  {
    if calls != [] {
      var front := calls[..|calls| - 1];
      PopsArePaidFor(q, front);
      StepCountsPops(After(q, front), calls[|calls| - 1]);
    }
  }

  // ---------- capacity ----------

  /** Whatever the run, the queue never holds more tasks than its capacity. */
  lemma {:induction false} CapacityHolds(q: QueueState, calls: seq<Call>)
    requires HeapShape(q.policy) && (q.capacity.Some? ==> |q.storage| <= q.capacity.value)
    ensures After(q, calls).capacity == q.capacity
    ensures q.capacity.Some? ==> |After(q, calls).storage| <= q.capacity.value
  {
    if calls != [] {
      var front, last := calls[..|calls| - 1], calls[|calls| - 1];
      CapacityHolds(q, front);
      StepKeepsCapacity(After(q, front), last);
    }
  }

  lemma StoreSize(storage: map<TaskId, Task>, t: Task)
    ensures |storage[t.id := t]| == |storage| + if t.id in storage then 0 else 1
  {
    SizeAfter(storage, t.id, t);
    if t.id in storage {
      assert storage[t.id := t].Keys == storage.Keys;
      assert |storage[t.id := t].Keys| == |storage[t.id := t]| && |storage.Keys| == |storage|;
    }
  }

  lemma StepKeepsCapacity(q: QueueState, c: Call)
    requires HeapShape(q.policy) && (q.capacity.Some? ==> |q.storage| <= q.capacity.value)
    ensures var next := QueueStep(q, c.op, c.now).0;
      next.capacity == q.capacity && (q.capacity.Some? ==> |next.storage| <= q.capacity.value)
  {
    hide HeapShape, PolicyAdd, PolicyNext, PolicyPeek, PolicyRemove;
    match c.op {
      case Enqueue(t) =>
        StoreSize(q.storage, t);
      case Dequeue =>
        var next := PolicyNext(q.policy).0;
        if next.Some? && next.value in q.storage {
          SizeAfter(q.storage, next.value, q.storage[next.value]);
        }
      case Peek =>
      case Cancel(id) =>
        if id in q.storage {
          SizeAfter(q.storage, id, q.storage[id]);
        }
    }
  }

  // ---------- counters ----------

  /** Accepted enqueues that put a task over a stored one of the same id. */
  ghost function Overwrites(q: QueueState, calls: seq<Call>): nat
    requires HeapShape(q.policy)
  {
    if calls == [] then 0
    else
      var front, op := calls[..|calls| - 1], calls[|calls| - 1].op;
      Overwrites(q, front)
      + if op.Enqueue? && !Full(After(q, front)) && op.task.id in After(q, front).storage then 1 else 0
  }

  ghost function Balance(q: QueueState): int {
    q.enqueued - q.dequeued - q.cancelled - |q.storage|
  }

  lemma StepBalances(q: QueueState, c: Call)
    requires HeapShape(q.policy)
    ensures Balance(QueueStep(q, c.op, c.now).0) == Balance(q)
      + if c.op.Enqueue? && !Full(q) && c.op.task.id in q.storage then 1 else 0
  {
    hide HeapShape, PolicyAdd, PolicyNext, PolicyPeek, PolicyRemove, Full;
    match c.op {
      case Enqueue(t) =>
        StoreSize(q.storage, t);
      case Dequeue =>
        var next := PolicyNext(q.policy).0;
        if next.Some? && next.value in q.storage {
          SizeAfter(q.storage, next.value, q.storage[next.value]);
        }
      case Peek =>
      case Cancel(id) =>
        if id in q.storage {
          SizeAfter(q.storage, id, q.storage[id]);
        }
    }
  }

  /** Whatever the run, every task enqueued was dequeued, cancelled or overwritten, or is still stored. */
  lemma {:induction false} EnqueuesAreAccounted(q: QueueState, calls: seq<Call>)
    requires Empty(q) && HeapShape(q.policy)
    ensures var r := After(q, calls);
      r.enqueued == r.dequeued + r.cancelled + |r.storage| + Overwrites(q, calls)
  {
    if calls != [] {
      var front := calls[..|calls| - 1];
      EnqueuesAreAccounted(q, front);
      StepBalances(After(q, front), calls[|calls| - 1]);
    }
  }

  // ---------- the recorded events rebuild the queue ----------

  ghost function ReplayedIds(log: seq<Event>): seq<TaskId> {
    Replay(QueueOps(log), [])
  }

  lemma ReplaySnoc(log: seq<Event>, e: Event)
    ensures ReplayedIds(log + [e]) == ApplyOp(ReplayedIds(log), QueueOp(e.fact))
  {
    assert QueueOps(log + [e])[..|log|] == QueueOps(log);
  }

  /** The ids replayed are exactly the ids stored. */
  ghost predicate Rebuilt(q: QueueState) {
    NoDup(ReplayedIds(q.log)) && forall id :: id in ReplayedIds(q.log) <==> id in q.storage
  }

  lemma RebuiltGrows(q: QueueState, next: QueueState, e: Event)
    requires Rebuilt(q) && next.log == q.log + [e]
    requires forall id :: id in next.storage <==>
      QueueOp(e.fact) == Insert(id) || (id in q.storage && QueueOp(e.fact) != Remove(id))
    ensures Rebuilt(next)
  {
    ReplaySnoc(q.log, e);
    ApplyOpIsSound(ReplayedIds(q.log), QueueOp(e.fact), "");
    forall id {
      ApplyOpIsSound(ReplayedIds(q.log), QueueOp(e.fact), id);
    }
    hide ReplayedIds, ApplyOp, QueueOp;
  }

  lemma StepStaysRebuilt(q: QueueState, c: Call)
    requires HeapShape(q.policy) && OwnIds(q.storage) && Rebuilt(q)
    ensures var next := QueueStep(q, c.op, c.now).0; OwnIds(next.storage) && Rebuilt(next)
  {
    hide HeapShape, PolicyAdd, PolicyNext, PolicyPeek, PolicyRemove, ReplayedIds;
    var next := QueueStep(q, c.op, c.now).0;
    if next.log != q.log {
      var e := next.log[|next.log| - 1];
      assert next.log == q.log + [e];
      RebuiltGrows(q, next, e);
    }
  }

  /** Whatever the run, replaying its events into an empty list yields exactly the stored ids. */
  lemma {:induction false} ReplayRebuildsStorage(q: QueueState, calls: seq<Call>)
    requires Empty(q) && HeapShape(q.policy)
    ensures OwnIds(After(q, calls).storage) && Rebuilt(After(q, calls))
  {
    if calls != [] {
      ReplayRebuildsStorage(q, calls[..|calls| - 1]);
      StepStaysRebuilt(After(q, calls[..|calls| - 1]), calls[|calls| - 1]);
    }
  }

  lemma FifoStepRebuilds(q: QueueState, c: Call, ids: seq<TaskId>)
    requires HeapShape(q.policy) && q.policy == Order(ids) && ids == ReplayedIds(q.log) && Clean(q, c.op)
    requires forall id :: id in ids <==> id in q.storage
    ensures var next := QueueStep(q, c.op, c.now).0; next.policy == Order(ReplayedIds(next.log))
  {
    hide HeapShape, ReplayedIds, Full;
    match c.op {
      case Enqueue(t) =>
        ReplaySnoc(q.log, Event(c.now, TaskQueued(t.id)));
      case Dequeue =>
        if ids != [] {
          assert ids[0] in ids;
          ReplaySnoc(q.log, Event(c.now, TaskDequeued(ids[0])));
        }
      case Peek =>
      case Cancel(id) =>
        ReplaySnoc(q.log, Event(c.now, TaskCancelled(id)));
    }
  }

  /** Under FIFO the replayed list is the policy's own order. */
  lemma {:induction false} ReplayRebuildsFifoOrder(q: QueueState, calls: seq<Call>)
    requires Empty(q) && q.policy.Order? && Disciplined(q, calls)
    ensures After(q, calls).policy == Order(ReplayedIds(After(q, calls).log))
  {
    if calls != [] {
      var front := calls[..|calls| - 1];
      DisciplinedFront(q, calls);
      ReplayRebuildsFifoOrder(q, front);
      EmptyIsValid(q);
      RunRefines(q, front);
      FifoStepRebuilds(After(q, front), calls[|calls| - 1], ReplayedIds(After(q, front).log));
    }
  }

  /** So recovery, folding the recorded events over any state with nothing queued, finds the stored tasks queued. */
  lemma RecoveryFindsStoredTasks(q: QueueState, calls: seq<Call>, base: RuntimeState)
    requires Empty(q) && HeapShape(q.policy) && base.queue.queuedIds == []
    ensures var (r, live) := (Fold(After(q, calls).log, base), After(q, calls));
      && (forall id :: id in r.queue.queuedIds <==> id in live.storage)
      && |r.queue.queuedIds| == |live.storage|
      && (q.policy.Order? && Disciplined(q, calls) ==> live.policy == Order(r.queue.queuedIds))
  {
    var live := After(q, calls);
    FoldReplaysLists(live.log, base);
    ReplayRebuildsStorage(q, calls);
    NoDupCardinality(ReplayedIds(live.log));
    assert Elems(ReplayedIds(live.log)) == live.storage.Keys;
    assert |live.storage.Keys| == |live.storage|;
    if q.policy.Order? && Disciplined(q, calls) {
      ReplayRebuildsFifoOrder(q, calls);
    }
  }

  // ---------- peek ----------

  /** Peek names the task the next dequeue returns, and leaves what the queue stands for alone. */
  lemma PeekPredictsDequeue(q: QueueState, now: Time, later: Time)
    requires ValidQueue(q)
    ensures HeapShape(q.policy)
    ensures var (next, seen) := QueueStep(q, Peek, now);
      && ValidQueue(next) && Abstract(next) == Abstract(q)
      && var reply := QueueStep(next, Dequeue, later).1;
         if seen == Nothing then reply == Raised(QueueEmpty) else seen == reply
  {
    PeekRefines(q, now);
    var next := QueueStep(q, Peek, now).0;
    DequeueRefines(next, later);
    hide ValidQueue, Abstract, QueueStep;
  }

  /** A cancelled task is never handed out afterwards unless its id is enqueued again. */
  lemma {:induction false} CancelledNeverServed(q: QueueState, id: TaskId, calls: seq<Call>)
    requires HeapShape(q.policy) && OwnIds(q.storage) && id !in q.storage
    requires forall c :: c in calls ==> !EnqueuesId(c, id)
    ensures OwnIds(After(q, calls).storage) && id !in After(q, calls).storage
    ensures forall i :: 0 <= i < |calls| && Replies(q, calls)[i].Got? ==> Replies(q, calls)[i].task.id != id
  {
    if calls != [] {
      var front, last := calls[..|calls| - 1], calls[|calls| - 1];
      assert calls == front + [last] && last in calls;
      CancelledNeverServed(q, id, front);
      StepKeepsAway(After(q, front), last, id);
    }
  }

  lemma StepKeepsAway(q: QueueState, c: Call, id: TaskId)
    requires HeapShape(q.policy) && OwnIds(q.storage) && id !in q.storage && !EnqueuesId(c, id)
    ensures var (next, reply) := QueueStep(q, c.op, c.now);
      OwnIds(next.storage) && id !in next.storage && (reply.Got? ==> reply.task.id != id)
  {
  }

  // ---------- the queue as its callers see it ----------

  lemma EnqueueMovesAsSet(q: QueueState, t: Task, now: Time)
    requires HeapShape(q.policy)
    ensures var (next, reply) := QueueStep(q, Enqueue(t), now);
      && (reply == Raised(QueueFull) <==> Full(q))
      && next.storage.Keys == q.storage.Keys + if Full(q) then {} else {t.id}
  {
    hide PolicyAdd, HeapShape, Full;
  }

  lemma DequeueMovesAsSet(q: QueueState, now: Time)
    requires HeapShape(q.policy) && OwnIds(q.storage)
    ensures var (next, reply) := QueueStep(q, Dequeue, now);
      if reply.Got? then reply.task.id in q.storage && next.storage.Keys == q.storage.Keys - {reply.task.id}
      else reply == Raised(QueueEmpty) && next.storage == q.storage
  {
    hide PolicyNext, HeapShape;
  }

  lemma NonEmptyServes(q: QueueState, now: Time)
    requires ValidQueue(q) && q.storage != map[]
    ensures HeapShape(q.policy) && QueueStep(q, Dequeue, now).1.Got?
  {
    ValidShape(q);
    var id :| id in q.storage;
    DequeueServesMostUrgent(q, now, id);
    hide QueueStep, ValidQueue;
  }

  /** Whatever the policy, the stored ids change as a set: all a scheduler needs to know of the queue. */
  lemma StorageMovesAsSet(q: QueueState, t: Task, now: Time)
    requires HeapShape(q.policy) && OwnIds(q.storage)
    ensures var (next, reply) := QueueStep(q, Enqueue(t), now);
      && (reply == Raised(QueueFull) <==> Full(q))
      && next.storage.Keys == q.storage.Keys + if Full(q) then {} else {t.id}
    ensures var (next, reply) := QueueStep(q, Dequeue, now);
      if reply.Got? then reply.task.id in q.storage && next.storage.Keys == q.storage.Keys - {reply.task.id}
      else reply == Raised(QueueEmpty) && next.storage == q.storage
    ensures ValidQueue(q) && q.storage != map[] ==> QueueStep(q, Dequeue, now).1.Got?
  {
    hide *;
    EnqueueMovesAsSet(q, t, now);
    DequeueMovesAsSet(q, now);
    if ValidQueue(q) && q.storage != map[] {
      NonEmptyServes(q, now);
    }
  }
}
