/**
  The lazily deleting queue refines a plain stable priority queue: every run of operations gets the
  replies the plain queue gives, as long as no id is enqueued of which the policy still has a trace.
 */
module QueueRefinement {
  import opened Wrappers
  import opened Sequences
  import opened EntryHeap
  import opened OrderedReplay
  import opened EventReplay
  import opened QueueModel

  // ---------- heap policies ----------

  lemma SameLive(p: PolicyState, r: PolicyState)
    requires p.Heap? && r.Heap? && HeapShape(p) && HeapShape(r) && Live(p) == Live(r)
    ensures ServiceOrder(p) == ServiceOrder(r)
  {
  }

  /** Dropping a tombstoned entry together with its tombstone. */
  ghost function Swept(p: PolicyState, e: Entry<TaskId>): PolicyState
    requires p.Heap?
  {
    p.(heap := p.heap - {e}, removed := p.removed - {e.item})
  }

  lemma SweepKeepsOrdered(storage: map<TaskId, Task>, p: PolicyState, e: Entry<TaskId>)
    requires p.Heap? && Ordered(storage, p) && e in p.heap && e.item in p.removed
    ensures Ordered(storage, Swept(p, e)) && Live(Swept(p, e)) == Live(p)
  {
    var r := Swept(p, e);
    forall id | id in r.removed ensures HasEntry(r.heap, id) {
      var x :| x in p.heap && x.item == id;
      assert x in r.heap;
    }
    forall id ensures id in storage <==> HasEntry(r.heap, id) && id !in r.removed {
      if id in storage {
        var x :| x in p.heap && x.item == id;
        assert x in r.heap;
      }
      if HasEntry(r.heap, id) && id !in r.removed {
        var x :| x in r.heap && x.item == id;
        assert x in p.heap && x != e;
      }
    }
  }

  lemma LeastIsLeastLive(p: PolicyState)
    requires p.Heap? && HeapShape(p) && p.heap != {} && Least(p.heap).item !in p.removed
    ensures Least(p.heap) in Live(p) && Least(Live(p)) == Least(p.heap)
  {
    assert Least(p.heap) in Live(p);
    LeastIsUnique(Live(p), Least(p.heap));
  }

  lemma TakeKeepsOrdered(storage: map<TaskId, Task>, p: PolicyState, e: Entry<TaskId>)
    requires p.Heap? && Ordered(storage, p) && e in Live(p)
    ensures Ordered(storage - {e.item}, p.(heap := p.heap - {e}))
    ensures Live(p.(heap := p.heap - {e})) == Live(p) - {e} && e.item in storage
  {
    var r := p.(heap := p.heap - {e});
    assert HasEntry(p.heap, e.item);
    forall id | id in r.removed ensures HasEntry(r.heap, id) {
      var x :| x in p.heap && x.item == id;
      assert x in r.heap;
    }
    forall id ensures id in storage - {e.item} <==> HasEntry(r.heap, id) && id !in r.removed {
      if id in storage - {e.item} {
        var x :| x in p.heap && x.item == id;
        assert x in r.heap;
      }
      if HasEntry(r.heap, id) && id !in r.removed {
        var x :| x in r.heap && x.item == id;
        assert x in p.heap && x != e;
      }
    }
  }

  /** `next` skips the tombstones and takes the least live entry. */
  lemma {:induction false} NextTakesLeast(storage: map<TaskId, Task>, p: PolicyState)
    requires p.Heap? && Ordered(storage, p)
    ensures var (id, r) := PolicyNext(p);
      && r.Heap? && r.kind == p.kind
      && (Live(p) == {} ==> id == None && Ordered(storage, r) && Live(r) == {})
      && (Live(p) != {} ==>
            var e := Least(Live(p));
            id == Some(e.item) && e.item in storage && Ordered(storage - {e.item}, r) && Live(r) == Live(p) - {e})
    decreases |p.heap|
  {
    if p.heap != {} {
      var e := Least(p.heap);
      if e.item in p.removed {
        SweepKeepsOrdered(storage, p, e);
        NextTakesLeast(storage, Swept(p, e));
      } else {
        LeastIsLeastLive(p);
        TakeKeepsOrdered(storage, p, e);
      }
    }
  }

  /** `peek` may drop tombstones but keeps every live entry, and names the one `next` will take. */
  lemma {:induction false} PeekShowsLeast(storage: map<TaskId, Task>, p: PolicyState)
    requires p.Heap? && Ordered(storage, p)
    ensures var (id, r) := PolicyPeek(p);
      && r.Heap? && r.kind == p.kind && Ordered(storage, r) && Live(r) == Live(p)
      && id == PolicyNext(p).0
    decreases |p.heap|
  {
    if p.heap != {} {
      var e := Least(p.heap);
      if e.item in p.removed {
        SweepKeepsOrdered(storage, p, e);
        PeekShowsLeast(storage, Swept(p, e));
      }
    }
  }

  lemma AddKeepsOrdered(storage: map<TaskId, Task>, p: PolicyState, t: Task)
    requires p.Heap? && Ordered(storage, p) && t.id !in storage && t.id !in p.removed
    ensures var e := Entry(KeyOf(p.kind, t), p.counter, t.id);
      && Ordered(storage[t.id := t], PolicyAdd(p, t))
      && Live(PolicyAdd(p, t)) == Live(p) + {e}
  {
    var e := Entry(KeyOf(p.kind, t), p.counter, t.id);
    var r := PolicyAdd(p, t);
    assert !HasEntry(p.heap, t.id);
    forall x | x in p.heap ensures x.item != t.id {
      assert HasEntry(p.heap, x.item);
    }
    forall id | id in r.removed ensures HasEntry(r.heap, id) {
      var x :| x in p.heap && x.item == id;
      assert x in r.heap;
    }
    forall id ensures id in storage[t.id := t] <==> HasEntry(r.heap, id) && id !in r.removed {
      if id in storage {
        var x :| x in p.heap && x.item == id;
        assert x in r.heap;
      }
      if id == t.id {
        assert e in r.heap;
      }
      if HasEntry(r.heap, id) && id !in r.removed {
        var x :| x in r.heap && x.item == id;
        assert x in p.heap || x == e;
        assert x in p.heap ==> HasEntry(p.heap, id);
      }
    }
  }

  lemma RemoveKeepsOrdered(storage: map<TaskId, Task>, p: PolicyState, e: Entry<TaskId>)
    requires p.Heap? && Ordered(storage, p) && e in Live(p)
    ensures Ordered(storage - {e.item}, PolicyRemove(p, e.item))
    ensures Live(PolicyRemove(p, e.item)) == Live(p) - {e}
  {
    assert HasEntry(p.heap, e.item);
  }

  // ---------- service order ----------

  ghost predicate KeysMatch(storage: map<TaskId, Task>, kind: PolicyKind, s: seq<Entry<TaskId>>) {
    forall x :: x in s ==> x.item in storage && x.key == KeyOf(kind, storage[x.item])
  }

  lemma {:induction false} InsertMatches(
    storage: map<TaskId, Task>, kind: PolicyKind, s: seq<Entry<TaskId>>, e: Entry<TaskId>, t: Task)
    requires KeysMatch(storage, kind, s) && e.item == t.id && e.key == KeyOf(kind, t)
    requires forall x :: x in s ==> x.item != t.id
    ensures var ids := Items(InsertByKey(s, e));
      && (forall id :: id in ids ==> id in storage[t.id := t])
      && TasksOf(storage[t.id := t], ids) == InsertStable(kind, TasksOf(storage, Items(s)), t)
  {
    var next := storage[t.id := t];
    if s == [] {
      assert Items([e]) == [t.id];
    } else {
      assert s[0] in s;
      var items := TasksOf(storage, Items(s));
      assert items[0] == storage[s[0].item] && items[1..] == TasksOf(storage, Items(s[1..]));
      if KeyBefore(e.key, s[0].key) {
        assert Items([e] + s) == [t.id] + Items(s);
        assert TasksOf(next, [t.id] + Items(s)) == [t] + items;
      } else {
        InsertMatches(storage, kind, s[1..], e, t);
        var rest := InsertByKey(s[1..], e);
        assert Items([s[0]] + rest) == [s[0].item] + Items(rest);
        assert TasksOf(next, [s[0].item] + Items(rest)) == [items[0]] + TasksOf(next, Items(rest));
      }
    }
  }

  /** Ids with one removed, and the tasks behind them. */
  lemma TasksOfSnoc(storage: map<TaskId, Task>, ids: seq<TaskId>, id: TaskId)
    requires id in storage && forall x :: x in ids ==> x in storage
    ensures TasksOf(storage, ids + [id]) == TasksOf(storage, ids) + [storage[id]]
  {
  }

  /** Ids with one removed, and the tasks behind them. */
  lemma {:induction false} RemoveMatches(storage: map<TaskId, Task>, ids: seq<TaskId>, id: TaskId)
    requires forall x :: x in ids ==> x in storage && storage[x].id == x
    ensures (forall x :: x in Select(ids, y => y != id) ==> x in storage - {id})
    ensures TasksOf(storage - {id}, Select(ids, y => y != id)) == Select(TasksOf(storage, ids), (t: Task) => t.id != id)
  {
    if ids != [] {
      var front, last := ids[..|ids| - 1], ids[|ids| - 1];
      assert ids == front + [last] && last in ids;
      RemoveMatches(storage, front, id);
      SelectSnoc(front, last, y => y != id);
      TasksOfSnoc(storage, front, last);
      SelectSnoc(TasksOf(storage, front), storage[last], (t: Task) => t.id != id);
      if last != id {
        TasksOfSnoc(storage - {id}, Select(front, y => y != id), last);
      }
    }
  }

  lemma ItemsSnoc(s: seq<Entry<TaskId>>, e: Entry<TaskId>)
    ensures Items(s + [e]) == Items(s) + [e.item]
  {
  }

  lemma {:induction false} ItemsOfSelect(s: seq<Entry<TaskId>>, e: Entry<TaskId>)
    requires forall x :: x in s && x.item == e.item ==> x == e
    ensures Items(Select(s, x => x != e)) == Select(Items(s), y => y != e.item)
  {
    if s != [] {
      var front, last := s[..|s| - 1], s[|s| - 1];
      assert s == front + [last] && last in s;
      ItemsOfSelect(front, e);
      ItemsSnoc(front, last);
      SelectSnoc(front, last, x => x != e);
      SelectSnoc(Items(front), last.item, y => y != e.item);
      ItemsSnoc(Select(front, x => x != e), last);
    }
  }

  lemma {:induction false} FindsStored(storage: map<TaskId, Task>, ids: seq<TaskId>, id: TaskId)
    requires forall x :: x in ids ==> x in storage && storage[x].id == x
    ensures QueueModel.Holds(TasksOf(storage, ids), id) <==> id in ids
    ensures id in ids ==> FindTask(TasksOf(storage, ids), id) == storage[id]
  {
    var items := TasksOf(storage, ids);
    if id in ids {
      var i :| 0 <= i < |ids| && ids[i] == id;
      assert items[i] in items && items[i].id == id;
      var found := FindTask(items, id);
      var j :| 0 <= j < |items| && items[j] == found;
      assert ids[j] in ids;
    }
    if QueueModel.Holds(items, id) {
      var t :| t in items && t.id == id;
      var j :| 0 <= j < |items| && items[j] == t;
      assert ids[j] in ids;
    }
  }

  lemma StorageSize(storage: map<TaskId, Task>, p: PolicyState)
    requires Ordered(storage, p)
    ensures HeapShape(p) && |ServiceOrder(p)| == |storage|
  {
    OrderIsStored(storage, p);
    NoDupCardinality(ServiceOrder(p));
    assert Elems(ServiceOrder(p)) == storage.Keys;
    assert |storage.Keys| == |storage|;
  }

  lemma SizeAfter(storage: map<TaskId, Task>, id: TaskId, t: Task)
    ensures id !in storage ==> |storage[id := t]| == |storage| + 1
    ensures id in storage ==> |storage - {id}| == |storage| - 1
  {
    if id in storage {
      assert (storage - {id}).Keys == storage.Keys - {id};
      assert |(storage - {id}).Keys| == |storage - {id}| && |storage.Keys| == |storage|;
    } else {
      assert storage[id := t].Keys == storage.Keys + {id};
      assert |storage[id := t].Keys| == |storage[id := t]| && |storage.Keys| == |storage|;
    }
  }

  // ---------- the service order after each policy operation ----------

  /** The tasks a policy orders, in service order. */
  ghost function Served(storage: map<TaskId, Task>, p: PolicyState): seq<Task>
    requires Ordered(storage, p)
  {
    OrderIsStored(storage, p);
    TasksOf(storage, ServiceOrder(p))
  }

  lemma {:induction false} FifoInserts(items: seq<Task>, t: Task)
    ensures InsertStable(Fifo, items, t) == items + [t]
  {
    if items != [] {
      FifoInserts(items[1..], t);
      assert items == [items[0]] + items[1..];
    }
  }

  lemma AddServes(storage: map<TaskId, Task>, p: PolicyState, t: Task)
    requires Ordered(storage, p) && t.id !in storage && (p.Heap? ==> t.id !in p.removed)
    ensures HeapShape(p) && Ordered(storage[t.id := t], PolicyAdd(p, t))
    ensures Served(storage[t.id := t], PolicyAdd(p, t)) == InsertStable(KindOf(p), Served(storage, p), t)
  {
    if p.Order? {
      NoDupAppend(p.ids, t.id);
      FifoInserts(TasksOf(storage, p.ids), t);
      assert TasksOf(storage[t.id := t], p.ids + [t.id]) == TasksOf(storage, p.ids) + [t];
    } else {
      var e := Entry(KeyOf(p.kind, t), p.counter, t.id);
      AddKeepsOrdered(storage, p, t);
      SortedInsert(Live(p), e);
      forall x | x in Sorted(Live(p)) ensures x.item in storage {
        assert HasEntry(p.heap, x.item);
      }
      InsertMatches(storage, p.kind, Sorted(Live(p)), e, t);
    }
  }

  lemma NextOrderFifo(storage: map<TaskId, Task>, p: PolicyState)
    requires p.Order? && Ordered(storage, p) && p.ids != []
    ensures Ordered(storage - {p.ids[0]}, Order(p.ids[1..]))
  {
    var rest := storage - {p.ids[0]};
    forall id ensures id in p.ids[1..] <==> id in rest {
      assert id in p.ids <==> id == p.ids[0] || id in p.ids[1..];
    }
  }

  lemma ItemsCons(e: Entry<TaskId>, s: seq<Entry<TaskId>>)
    ensures Items([e] + s) == [e.item] + Items(s)
  {
    forall i | 0 <= i < |s| + 1 ensures Items([e] + s)[i] == ([e.item] + Items(s))[i] {
      if i > 0 {
        assert ([e] + s)[i] == s[i - 1];
      }
    }
  }

  lemma ServesLeast(live: set<Entry<TaskId>>)
    requires Numbered(live)
    ensures live == {} ==> Items(Sorted(live)) == []
    ensures live != {} ==> Items(Sorted(live)) == [Least(live).item] + Items(Sorted(live - {Least(live)}))
  {
    if live != {} {
      var e := Least(live);
      assert Sorted(live) == [e] + Sorted(live - {e});
      hide *;
      ItemsCons(e, Sorted(live - {e}));
    }
  }

  lemma HeapOrderIs(p: PolicyState, live: set<Entry<TaskId>>)
    requires p.Heap? && HeapShape(p) && Live(p) == live
    ensures Numbered(live) && ServiceOrder(p) == Items(Sorted(live))
  {
  }

  lemma NextOrderHeap(storage: map<TaskId, Task>, p: PolicyState)
    requires p.Heap? && Ordered(storage, p)
    ensures var (id, r) := PolicyNext(p); var ids := ServiceOrder(p);
      && KindOf(r) == KindOf(p)
      && (ids == [] ==> id == None && Ordered(storage, r) && ServiceOrder(r) == [])
      && (ids != [] ==> id == Some(ids[0]) && Ordered(storage - {ids[0]}, r) && ServiceOrder(r) == ids[1..])
  {
    NextTakesLeast(storage, p);
    var live, r := Live(p), PolicyNext(p).1;
    assert HeapShape(r);
    HeapOrderIs(p, live);
    ServesLeast(live);
    HeapOrderIs(r, Live(r));
    hide PolicyNext, Ordered, HeapShape, ServiceOrder, Live, Items, Sorted, Numbered, IsLeast;
  }

  /** `next` takes the first id of the service order. */
  lemma NextOrder(storage: map<TaskId, Task>, p: PolicyState)
    requires Ordered(storage, p)
    ensures HeapShape(p)
    ensures var (id, r) := PolicyNext(p); var ids := ServiceOrder(p);
      && KindOf(r) == KindOf(p)
      && (ids == [] ==> id == None && Ordered(storage, r) && ServiceOrder(r) == [])
      && (ids != [] ==> id == Some(ids[0]) && Ordered(storage - {ids[0]}, r) && ServiceOrder(r) == ids[1..])
  {
    OrderIsStored(storage, p);
    if p.Heap? {
      NextOrderHeap(storage, p);
    } else if p.ids != [] {
      NextOrderFifo(storage, p);
    }
  }

  lemma TasksOfTail(storage: map<TaskId, Task>, ids: seq<TaskId>)
    requires NoDup(ids) && ids != [] && forall id :: id in ids ==> id in storage
    ensures TasksOf(storage, ids)[0] == storage[ids[0]]
    ensures forall id :: id in ids[1..] ==> id in storage - {ids[0]}
    ensures TasksOf(storage - {ids[0]}, ids[1..]) == TasksOf(storage, ids)[1..]
  {
  }

  /** What taking the next id means for the tasks served. */
  ghost predicate Takes(storage: map<TaskId, Task>, p: PolicyState, id: Option<TaskId>, r: PolicyState)
    requires Ordered(storage, p)
  {
    var served := Served(storage, p);
    && KindOf(r) == KindOf(p)
    && (served == [] ==> id == None && Ordered(storage, r) && Served(storage, r) == [])
    && (served != [] ==>
          && id == Some(served[0].id) && served[0].id in storage && storage[served[0].id] == served[0]
          && Ordered(storage - {served[0].id}, r) && Served(storage - {served[0].id}, r) == served[1..])
  }

  lemma NextServes(storage: map<TaskId, Task>, p: PolicyState)
    requires Ordered(storage, p) && OwnIds(storage)
    ensures HeapShape(p) && Takes(storage, p, PolicyNext(p).0, PolicyNext(p).1)
  {
    OrderIsStored(storage, p);
    NextOrder(storage, p);
    var ids := ServiceOrder(p);
    var r := PolicyNext(p).1;
    if ids != [] {
      assert ids[0] in ids && storage[ids[0]].id == ids[0];
      TasksOfTail(storage, ids);
      OrderIsStored(storage - {ids[0]}, r);
    } else {
      OrderIsStored(storage, r);
    }
    hide Ordered, OwnIds, HeapShape, PolicyNext, ServiceOrder, TasksOf, NoDup, KindOf;
  }

  lemma PeekServes(storage: map<TaskId, Task>, p: PolicyState)
    requires Ordered(storage, p)
    ensures HeapShape(p)
    ensures var (id, r) := PolicyPeek(p);
      KindOf(r) == KindOf(p) && Ordered(storage, r) && Served(storage, r) == Served(storage, p) && id == PolicyNext(p).0
  {
    if p.Heap? {
      PeekShowsLeast(storage, p);
      SameLive(p, PolicyPeek(p).1);
    }
  }

  lemma RemoveOrderFifo(storage: map<TaskId, Task>, p: PolicyState, id: TaskId)
    requires p.Order? && Ordered(storage, p) && id in storage
    ensures PolicyRemove(p, id) == Order(Select(p.ids, y => y != id))
    ensures Ordered(storage - {id}, PolicyRemove(p, id))
  {
    assert id in p.ids;
    RemoveFirstIsSelect(p.ids, id, y => y != id);
    SelectNoDup(p.ids, y => y != id);
  }

  lemma RemoveOrderHeap(storage: map<TaskId, Task>, p: PolicyState, id: TaskId)
    requires p.Heap? && Ordered(storage, p) && id in storage
    ensures Ordered(storage - {id}, PolicyRemove(p, id))
    ensures ServiceOrder(PolicyRemove(p, id)) == Select(ServiceOrder(p), y => y != id)
  {
    var e :| e in p.heap && e.item == id;
    assert e in Live(p);
    RemoveKeepsOrdered(storage, p, e);
    SortedRemove(Live(p), e);
    forall x | x in Sorted(Live(p)) && x.item == id ensures x == e {
      assert x in p.heap;
    }
    ItemsOfSelect(Sorted(Live(p)), e);
  }

  lemma RemoveServes(storage: map<TaskId, Task>, p: PolicyState, id: TaskId)
    requires Ordered(storage, p) && OwnIds(storage) && id in storage
    ensures Ordered(storage - {id}, PolicyRemove(p, id)) && KindOf(PolicyRemove(p, id)) == KindOf(p)
    ensures Served(storage - {id}, PolicyRemove(p, id)) == Select(Served(storage, p), (t: Task) => t.id != id)
  {
    OrderIsStored(storage, p);
    if p.Order? {
      RemoveOrderFifo(storage, p, id);
    } else {
      RemoveOrderHeap(storage, p, id);
    }
    hide Ordered, Live;
    RemoveMatches(storage, ServiceOrder(p), id);
  }

  // ---------- one operation ----------

  /** What a step must do to refine the plain queue. */
  ghost predicate Refines(q: QueueState, op: Op, now: Time)
    requires ValidQueue(q) && HeapShape(q.policy)
  {
    var (next, reply) := QueueStep(q, op, now);
    var (spec, expected) := SpecStep(Abstract(q), op);
    ValidQueue(next) && Abstract(next) == spec && reply == expected
  }

  lemma AbstractIs(q: QueueState)
    requires ValidQueue(q)
    ensures HeapShape(q.policy) && OwnIds(q.storage) && Ordered(q.storage, q.policy)
    ensures Abstract(q) == PriorityQueue(KindOf(q.policy), q.capacity, Served(q.storage, q.policy))
    ensures |Abstract(q).items| == |q.storage|
  {
    OrderIsStored(q.storage, q.policy);
    StorageSize(q.storage, q.policy);
  }

  lemma AbstractFinds(q: QueueState, id: TaskId)
    requires ValidQueue(q)
    ensures QueueModel.Holds(Abstract(q).items, id) <==> id in q.storage
    ensures id in q.storage ==> FindTask(Abstract(q).items, id) == q.storage[id]
  {
    OrderIsStored(q.storage, q.policy);
    FindsStored(q.storage, ServiceOrder(q.policy), id);
  }

  lemma AddKeepsKind(p: PolicyState, t: Task)
    requires HeapShape(p)
    ensures KindOf(PolicyAdd(p, t)) == KindOf(p)
  {
  }

  lemma ValidShape(q: QueueState)
    requires ValidQueue(q)
    ensures HeapShape(q.policy) && OwnIds(q.storage) && Ordered(q.storage, q.policy)
  {
    OrderIsStored(q.storage, q.policy);
  }

  lemma StoreKeepsOwn(storage: map<TaskId, Task>, t: Task)
    requires OwnIds(storage)
    ensures OwnIds(storage[t.id := t])
  {
  }

  lemma DropKeepsOwn(storage: map<TaskId, Task>, id: TaskId)
    requires OwnIds(storage)
    ensures OwnIds(storage - {id})
  {
  }

  lemma GainKeepsValid(q: QueueState, next: QueueState, t: Task)
    requires ValidQueue(q) && !Full(q) && t.id !in q.storage
    requires next.storage == q.storage[t.id := t] && Ordered(next.storage, next.policy)
    requires next.capacity == q.capacity && next.enqueued == q.enqueued + 1
    requires next.dequeued == q.dequeued && next.cancelled == q.cancelled
    ensures ValidQueue(next)
  {
    hide OwnIds, Ordered, HeapShape;
    SizeAfter(q.storage, t.id, t);
    ValidShape(q);
    StoreKeepsOwn(q.storage, t);
  }

  lemma EnqueueKeepsValid(q: QueueState, t: Task, now: Time)
    requires ValidQueue(q) && (!Full(q) ==> Untraced(q, t.id))
    ensures HeapShape(q.policy) && ValidQueue(QueueStep(q, Enqueue(t), now).0)
  {
    hide ValidQueue, Ordered, HeapShape, OwnIds, PolicyAdd, Served, KindOf, InsertStable, Full;
    ValidShape(q);
    if !Full(q) {
      AddServes(q.storage, q.policy, t);
      GainKeepsValid(q, QueueStep(q, Enqueue(t), now).0, t);
    }
  }

  lemma EnqueueRefines(q: QueueState, t: Task, now: Time)
    requires ValidQueue(q) && (!Full(q) ==> Untraced(q, t.id))
    ensures HeapShape(q.policy) && Refines(q, Enqueue(t), now)
  {
    EnqueueKeepsValid(q, t, now);
    AbstractIs(q);
    AbstractIs(QueueStep(q, Enqueue(t), now).0);
    if !Full(q) {
      AddServes(q.storage, q.policy, t);
      AddKeepsKind(q.policy, t);
    }
    hide ValidQueue, Ordered, HeapShape, OwnIds, PolicyAdd, Served, Abstract, KindOf, InsertStable, Untraced;
  }

  /** One task less, counted once as dequeued or cancelled. */
  lemma LossKeepsValid(q: QueueState, next: QueueState, id: TaskId)
    requires ValidQueue(q) && id in q.storage
    requires next.storage == q.storage - {id} && Ordered(next.storage, next.policy)
    requires next.capacity == q.capacity && next.enqueued == q.enqueued
    requires next.dequeued + next.cancelled == q.dequeued + q.cancelled + 1
    ensures ValidQueue(next)
  {
    hide OwnIds, Ordered, HeapShape;
    SizeAfter(q.storage, id, q.storage[id]);
    ValidShape(q);
    DropKeepsOwn(q.storage, id);
  }

  lemma DequeueKeepsValid(q: QueueState, now: Time)
    requires ValidQueue(q)
    ensures HeapShape(q.policy) && ValidQueue(QueueStep(q, Dequeue, now).0)
  {
    hide Ordered, HeapShape, OwnIds, PolicyNext, Served, KindOf;
    ValidShape(q);
    NextServes(q.storage, q.policy);
    var served := Served(q.storage, q.policy);
    var next := QueueStep(q, Dequeue, now).0;
    if served != [] {
      hide ValidQueue;
      LossKeepsValid(q, next, served[0].id);
    }
  }

  lemma DequeueRefines(q: QueueState, now: Time)
    requires ValidQueue(q)
    ensures HeapShape(q.policy) && Refines(q, Dequeue, now)
  {
    hide ValidQueue, Ordered, HeapShape, OwnIds, PolicyNext, Served, Abstract, KindOf;
    AbstractIs(q);
    DequeueKeepsValid(q, now);
    AbstractIs(QueueStep(q, Dequeue, now).0);
    NextServes(q.storage, q.policy);
  }

  lemma PeekRefines(q: QueueState, now: Time)
    requires ValidQueue(q)
    ensures HeapShape(q.policy) && Refines(q, Peek, now)
  {
    hide Ordered, HeapShape, OwnIds, PolicyNext, PolicyPeek, Served, Abstract, KindOf;
    AbstractIs(q);
    NextServes(q.storage, q.policy);
    PeekServes(q.storage, q.policy);
    var next := QueueStep(q, Peek, now).0;
    assert ValidQueue(next);
    AbstractIs(next);
    hide ValidQueue;
  }

  lemma CancelKeepsValid(q: QueueState, id: TaskId, now: Time)
    requires ValidQueue(q)
    ensures HeapShape(q.policy) && ValidQueue(QueueStep(q, Cancel(id), now).0)
  {
    hide ValidQueue, Ordered, HeapShape, OwnIds, PolicyRemove, Served, KindOf;
    ValidShape(q);
    if id in q.storage {
      RemoveServes(q.storage, q.policy, id);
      LossKeepsValid(q, QueueStep(q, Cancel(id), now).0, id);
    }
  }

  lemma CancelRefines(q: QueueState, id: TaskId, now: Time)
    requires ValidQueue(q)
    ensures HeapShape(q.policy) && Refines(q, Cancel(id), now)
  {
    hide ValidQueue, Ordered, HeapShape, OwnIds, PolicyRemove, Served, Abstract, KindOf, QueueModel.Holds, FindTask;
    AbstractIs(q);
    AbstractFinds(q, id);
    CancelKeepsValid(q, id, now);
    AbstractIs(QueueStep(q, Cancel(id), now).0);
    if id in q.storage {
      RemoveServes(q.storage, q.policy, id);
    }
  }

  /**
    Every operation of the lazily deleting queue answers and changes as the plain stable priority queue
    does, provided an enqueued id has left no trace.
   */
  lemma StepRefines(q: QueueState, op: Op, now: Time)
    requires ValidQueue(q) && (op.Enqueue? && !Full(q) ==> Untraced(q, op.task.id))
    ensures HeapShape(q.policy) && Refines(q, op, now)
  {
    hide ValidQueue, Refines;
    match op {
      case Enqueue(t) => EnqueueRefines(q, t, now);
      case Dequeue => DequeueRefines(q, now);
      case Peek => PeekRefines(q, now);
      case Cancel(id) => CancelRefines(q, id, now);
    }
  }

  // ---------- what comes first ----------

  /** A missing priority counts as zero. */
  function PriorityOf(t: Task): int {
    if t.priority.Some? then t.priority.value else 0
  }

  /** A deadline that is no number and does not parse counts as none. */
  function DeadlineOf(t: Task): Option<real> {
    match t.deadline
    case Seconds(at) => Some(at)
    case Text(parsed) => parsed
    case _ => None
  }

  predicate AtLeastAsUrgent(kind: PolicyKind, t: Task, u: Task) {
    match kind
    case Fifo => true
    case ByPriority => PriorityOf(t) >= PriorityOf(u)
    case ByDeadline => DeadlineOf(u).None? || (DeadlineOf(t).Some? && DeadlineOf(t).value <= DeadlineOf(u).value)
  }

  lemma KeysOrderUrgency(kind: PolicyKind, t: Task, u: Task)
    ensures !KeyBefore(KeyOf(kind, u), KeyOf(kind, t)) <==> AtLeastAsUrgent(kind, t, u)
  {
  }

  lemma LeastIsMostUrgent(storage: map<TaskId, Task>, p: PolicyState, id: TaskId)
    requires p.Heap? && Ordered(storage, p) && id in storage
    ensures HeapShape(p) && Live(p) != {} && Least(Live(p)).item in storage
    ensures AtLeastAsUrgent(p.kind, storage[Least(Live(p)).item], storage[id])
  {
    hide KeyOf, AtLeastAsUrgent;
    var e :| e in p.heap && e.item == id;
    assert e in Live(p);
    var first := Least(Live(p));
    assert first in p.heap && (first == e || Before(first, e));
    assert HasEntry(p.heap, first.item);
    KeysOrderUrgency(p.kind, storage[first.item], storage[id]);
  }

  /** A dequeue hands out a task that no stored task is more urgent than, whatever was cancelled before. */
  lemma DequeueServesMostUrgent(q: QueueState, now: Time, id: TaskId)
    requires ValidQueue(q) && HeapShape(q.policy) && id in q.storage
    ensures var reply := QueueStep(q, Dequeue, now).1;
      reply.Got? && AtLeastAsUrgent(KindOf(q.policy), reply.task, q.storage[id])
  {
    ValidShape(q);
    if q.policy.Heap? {
      LeastIsMostUrgent(q.storage, q.policy, id);
      NextTakesLeast(q.storage, q.policy);
      hide PolicyNext, AtLeastAsUrgent, Live, Ordered, ValidQueue, HeapShape;
    } else {
      assert id in q.policy.ids && q.policy.ids[0] in q.policy.ids;
    }
  }
}
