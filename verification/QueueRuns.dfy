/**
  Runs of the task queue: when its replies are those of a plain stable priority queue, what its counters
  and its heap say after any run, how many pops a run can cost, and what its recorded events rebuild.
 */
module QueueRuns {
  import opened Wrappers
  import opened EntryHeap
  import opened EventReplay
  import opened QueueModel
  import opened QueueRefinement

  datatype Call = Call(op: Op, now: Time)

  /** The queue after a run of calls. */
  ghost function After(q: QueueState, calls: seq<Call>): (r: QueueState)
    requires HeapShape(q.policy)
    ensures HeapShape(r.policy)
  {
    if calls == [] then q
    else
      var last := calls[|calls| - 1];
      QueueStep(After(q, calls[..|calls| - 1]), last.op, last.now).0
  }

  ghost function Replies(q: QueueState, calls: seq<Call>): (r: seq<Reply>)
    requires HeapShape(q.policy)
    ensures |r| == |calls|
  {
    if calls == [] then []
    else
      var front, last := calls[..|calls| - 1], calls[|calls| - 1];
      Replies(q, front) + [QueueStep(After(q, front), last.op, last.now).1]
  }

  function SpecAfter(s: PriorityQueue, calls: seq<Call>): PriorityQueue {
    if calls == [] then s else SpecStep(SpecAfter(s, calls[..|calls| - 1]), calls[|calls| - 1].op).0
  }

  function SpecReplies(s: PriorityQueue, calls: seq<Call>): seq<Reply> {
    if calls == [] then []
    else
      var front := calls[..|calls| - 1];
      SpecReplies(s, front) + [SpecStep(SpecAfter(s, front), calls[|calls| - 1].op).1]
  }

  /** A call enqueues no id that is stored or has a tombstoned entry left, unless the queue turns it away. */
  predicate Clean(q: QueueState, op: Op) {
    op.Enqueue? && !Full(q) ==> Untraced(q, op.task.id)
  }

  ghost predicate Disciplined(q: QueueState, calls: seq<Call>)
    requires HeapShape(q.policy)
  {
    forall i :: 0 <= i < |calls| ==> Clean(After(q, calls[..i]), calls[i].op)
  }

  lemma DisciplinedFront(q: QueueState, calls: seq<Call>)
    requires HeapShape(q.policy) && calls != [] && Disciplined(q, calls)
    ensures var front := calls[..|calls| - 1];
      Disciplined(q, front) && Clean(After(q, front), calls[|calls| - 1].op)
  {
    hide After, Clean, HeapShape;
    var n := |calls| - 1;
    assert Clean(After(q, calls[..n]), calls[n].op);
    forall i | 0 <= i < n ensures Clean(After(q, calls[..n][..i]), calls[..n][i].op) {
      assert calls[..n][..i] == calls[..i] && calls[..n][i] == calls[i];
      assert Clean(After(q, calls[..i]), calls[i].op);
    }
  }

  /** A disciplined run is answered, call by call, as the plain stable priority queue answers it. */
  lemma {:induction false} RunRefines(q: QueueState, calls: seq<Call>)
    requires ValidQueue(q) && HeapShape(q.policy) && Disciplined(q, calls)
    ensures ValidQueue(After(q, calls))
    ensures Abstract(After(q, calls)) == SpecAfter(Abstract(q), calls)
    ensures Replies(q, calls) == SpecReplies(Abstract(q), calls)
  {
    hide ValidQueue, Abstract, Clean, QueueStep, SpecStep, HeapShape, Disciplined;
    if calls != [] {
      var front, last := calls[..|calls| - 1], calls[|calls| - 1];
      DisciplinedFront(q, calls);
      RunRefines(q, front);
      OneCall(After(q, front), last);
    }
  }

  lemma OneCall(q: QueueState, call: Call)
    requires ValidQueue(q) && HeapShape(q.policy) && Clean(q, call.op)
    ensures var (next, reply) := QueueStep(q, call.op, call.now);
      ValidQueue(next) && (Abstract(next), reply) == SpecStep(Abstract(q), call.op)
  {
    hide ValidQueue, Abstract, QueueStep, SpecStep, HeapShape;
    StepRefines(q, call.op, call.now);
  }

  // ---------- the discipline is exact ----------

  /** An accepted enqueue behaves as an insertion exactly when the id has left no trace. */
  lemma EnqueueRefinesIff(q: QueueState, t: Task, now: Time)
    requires ValidQueue(q)
    ensures HeapShape(q.policy)
    ensures Refines(q, Enqueue(t), now) <==> Full(q) || Untraced(q, t.id)
  {
    ValidShape(q);
    if Full(q) || Untraced(q, t.id) {
      EnqueueRefines(q, t, now);
    } else {
      var next := QueueStep(q, Enqueue(t), now).0;
      if t.id in q.storage {
        assert next.storage.Keys == q.storage.Keys;
        assert |next.storage| == |next.storage.Keys| && |q.storage| == |q.storage.Keys|;
        assert !Accounted(next);
      } else {
        var e :| e in q.policy.heap && e.item == t.id;
        var twin := Entry(KeyOf(q.policy.kind, t), q.policy.counter, t.id);
        assert e in next.policy.heap && twin in next.policy.heap && e.number < twin.number;
      }
    }
  }

  /** A new queue. */
  ghost predicate Empty(q: QueueState) {
    && q.storage == map[] && q.log == []
    && q.enqueued == 0 && q.dequeued == 0 && q.cancelled == 0
    && (q.policy.Order? ==> q.policy.ids == [])
    && (q.policy.Heap? ==>
          q.policy.kind != Fifo && q.policy.heap == {} && q.policy.removed == {} && q.policy.counter == 0)
  }

  function NewQueue(capacity: Option<nat>, policy: PolicyState): QueueState {
    QueueState(capacity, map[], policy, 0, 0, 0, [])
  }

  lemma EmptyIsValid(q: QueueState)
    requires Empty(q)
    ensures ValidQueue(q) && Abstract(q) == PriorityQueue(KindOf(q.policy), q.capacity, [])
  {
    StorageSize(q.storage, q.policy);
  }

  predicate EnqueuesId(c: Call, id: TaskId) {
    c.op.Enqueue? && c.op.task.id == id
  }

  /** Everything the queue knows of an id stems from a call that enqueued it. */
  lemma {:induction false} TracesComeFromCalls(q: QueueState, calls: seq<Call>, id: TaskId)
    requires Empty(q) && HeapShape(q.policy)
    requires forall c :: c in calls ==> !EnqueuesId(c, id)
    ensures Untraced(After(q, calls), id)
    ensures After(q, calls).policy.Heap? ==> !HasEntry(After(q, calls).policy.heap, id)
  {
    if calls != [] {
      var front, last := calls[..|calls| - 1], calls[|calls| - 1];
      assert calls == front + [last];
      TracesComeFromCalls(q, front, id);
      StepLeavesUntraced(After(q, front), last, id);
    }
  }

  /** What next and peek leave is part of what was there. */
  lemma {:induction false} NextShrinks(p: PolicyState)
    requires p.Heap? && HeapShape(p)
    ensures var r := PolicyNext(p).1; r.Heap? && r.heap <= p.heap && r.removed <= p.removed
    ensures var r := PolicyPeek(p).1; r.Heap? && r.heap <= p.heap && r.removed <= p.removed
    decreases |p.heap|
  {
    if p.heap != {} {
      var e := Least(p.heap);
      if e.item in p.removed {
        NextShrinks(Swept(p, e));
      }
    }
  }

  lemma StepLeavesUntraced(q: QueueState, c: Call, id: TaskId)
    requires HeapShape(q.policy) && Untraced(q, id) && (q.policy.Heap? ==> !HasEntry(q.policy.heap, id))
    requires !EnqueuesId(c, id)
    ensures var next := QueueStep(q, c.op, c.now).0;
      Untraced(next, id) && (next.policy.Heap? ==> !HasEntry(next.policy.heap, id))
  {
    if q.policy.Heap? {
      NextShrinks(q.policy);
    }
  }

  /** Ids that are never used twice keep every run disciplined. */
  lemma DistinctIdsAreDisciplined(q: QueueState, calls: seq<Call>)
    requires Empty(q) && HeapShape(q.policy)
    requires forall i, j :: 0 <= i < j < |calls| && calls[j].op.Enqueue? ==> !EnqueuesId(calls[i], calls[j].op.task.id)
    ensures Disciplined(q, calls)
  {
    forall i | 0 <= i < |calls| ensures Clean(After(q, calls[..i]), calls[i].op) {
      if calls[i].op.Enqueue? {
        var id := calls[i].op.task.id;
        forall c | c in calls[..i] ensures !EnqueuesId(c, id) {
          var k :| 0 <= k < i && calls[k] == c;
        }
        TracesComeFromCalls(q, calls[..i], id);
      }
    }
  }

  // ---------- the discipline matters ----------

  lemma LeastOfMore(heap: set<Entry<TaskId>>, e: Entry<TaskId>, twin: Entry<TaskId>)
    requires Numbered(heap + {twin}) && IsLeast(heap, e) && e != twin && e.item == twin.item
    ensures Least(heap + {twin}).item == e.item
    ensures heap + {twin} - {Least(heap + {twin})} != {}
    ensures (forall x :: x in heap && x != e ==> Before(twin, x)) ==>
      Least(heap + {twin} - {Least(heap + {twin})}).item == e.item
  {
    var all := heap + {twin};
    var first := if Before(twin, e) then twin else e;
    var second := if Before(twin, e) then e else twin;
    assert e in all && twin in all && e.number != twin.number;
    assert second in all - {first};
    assert IsLeast(all, first);
    LeastIsUnique(all, first);
    if forall x :: x in heap && x != e ==> Before(twin, x) {
      assert IsLeast(all - {first}, second);
      LeastIsUnique(all - {first}, second);
    }
  }

  lemma TracedIsNotStored(q: QueueState, id: TaskId)
    requires ValidQueue(q) && q.policy.Heap? && id in q.policy.removed
    ensures id !in q.storage && HeapShape(q.policy)
    ensures Abstract(q).kind == q.policy.kind && Abstract(q).capacity == q.capacity && |Abstract(q).items| == |q.storage|
  {
    AbstractIs(q);
  }

  lemma FirstTwinIsNext(p: PolicyState, t: Task)
    requires p.Heap? && HeapShape(p) && p.heap != {} && Least(p.heap).item == t.id
    ensures PolicyNext(PolicyAdd(p, t)).0 == Some(t.id)
  {
    LeastOfMore(p.heap, Least(p.heap), Entry(KeyOf(p.kind, t), p.counter, t.id));
  }

  /**
    Enqueueing an id while its tombstoned entry heads the heap revives that entry: the task is served at once,
    where the plain queue serves first whatever is not less urgent than it.
   */
  lemma RevivedEntryJumpsQueue(q: QueueState, t: Task, now: Time)
    requires ValidQueue(q) && !Full(q) && q.policy.Heap? && q.policy.heap != {}
    requires Least(q.policy.heap).item == t.id && t.id in q.policy.removed
    ensures HeapShape(q.policy) && t.id !in q.storage
    ensures QueueStep(QueueStep(q, Enqueue(t), now).0, Dequeue, now).1 == Got(t)
    ensures var items := Abstract(q).items;
      items != [] && !KeyBefore(KeyOf(q.policy.kind, t), KeyOf(q.policy.kind, items[0])) ==>
        SpecStep(SpecStep(Abstract(q), Enqueue(t)).0, Dequeue).1 == Got(items[0])
  {
    TracedIsNotStored(q, t.id);
    FirstTwinIsNext(q.policy, t);
    hide ValidQueue, Abstract, HeapShape, PolicyAdd, PolicyNext, KeyOf, KeyBefore, Least, Numbered;
    assert q.storage[t.id := t][t.id] == t;
  }

  lemma SecondTwinIsNext(p: PolicyState, t: Task)
    requires p.Heap? && HeapShape(p) && p.heap != {} && Least(p.heap).item == t.id
    requires forall e :: e in p.heap && e != Least(p.heap) ==> KeyBefore(KeyOf(p.kind, t), e.key)
    ensures var r := PolicyNext(PolicyAdd(p, t)).1; PolicyNext(r).0 == Some(t.id)
  {
    var twin := Entry(KeyOf(p.kind, t), p.counter, t.id);
    var added := PolicyAdd(p, t);
    LeastOfMore(p.heap, Least(p.heap), twin);
    var first := Least(added.heap);
    assert PolicyNext(added) == (Some(t.id), added.(heap := added.heap - {first}));
    assert twin in added.heap && Least(p.heap) in added.heap;
    assert added.heap - {first} != {};
  }

  /** A queue whose policy names the same id twice in a row while another task is stored. */
  lemma SameIdTwice(q: QueueState, id: TaskId, other: TaskId, now: Time)
    requires HeapShape(q.policy) && id in q.storage && other in q.storage && other != id
    requires PolicyNext(q.policy).0 == Some(id) && PolicyNext(PolicyNext(q.policy).1).0 == Some(id)
    ensures var next := QueueStep(q, Dequeue, now).0;
      next.storage != map[] && QueueStep(next, Dequeue, now).1 == Raised(QueueEmpty)
  {
    hide HeapShape, PolicyNext;
    var next := QueueStep(q, Dequeue, now).0;
    assert next.storage == q.storage - {id} && other in next.storage && id !in next.storage;
  }

  /** The entry left over names no stored task; when it comes up, the queue calls itself empty. */
  lemma LeftoverEntryHidesTasks(q: QueueState, t: Task, now: Time)
    requires ValidQueue(q) && !Full(q) && q.policy.Heap? && q.policy.heap != {}
    requires Least(q.policy.heap).item == t.id && t.id in q.policy.removed && q.storage != map[]
    requires forall e :: e in q.policy.heap && e != Least(q.policy.heap) ==> KeyBefore(KeyOf(q.policy.kind, t), e.key)
    ensures HeapShape(q.policy)
    ensures var next := QueueStep(QueueStep(q, Enqueue(t), now).0, Dequeue, now).0;
      next.storage != map[] && QueueStep(next, Dequeue, now).1 == Raised(QueueEmpty)
  {
    TracedIsNotStored(q, t.id);
    FirstTwinIsNext(q.policy, t);
    SecondTwinIsNext(q.policy, t);
    var known :| known in q.storage;
    var filled := QueueStep(q, Enqueue(t), now).0;
    assert filled.policy == PolicyAdd(q.policy, t) && filled.storage == q.storage[t.id := t] by {
      hide ValidQueue, PolicyAdd, PolicyNext, HeapShape;
    }
    hide *;
    SameIdTwice(filled, t.id, known, now);
  }
}
