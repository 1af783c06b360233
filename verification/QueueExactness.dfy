/**
  The discipline on ids is exact in what callers see: after an accepted enqueue of an id that left a trace, some
  disciplined sequence of later calls is answered otherwise than by the plain stable priority queue.
 */
module QueueExactness {
  import opened Wrappers
  import opened Sequences
  import opened EntryHeap
  import opened EventReplay
  import opened QueueModel
  import opened QueueRefinement
  import opened QueueRuns
  import opened QueueLedger

  // ---------- heaps in which an id may have several live entries ----------

  /** At most one entry for each tombstone. */
  ghost predicate Tidy(p: PolicyState) {
    && p.Heap? && HeapShape(p)
    && forall a, b :: a in p.heap && b in p.heap && a.item == b.item && a.item in p.removed ==> a == b
  }

  lemma SweepKeepsTidy(p: PolicyState, e: Entry<TaskId>)
    requires Tidy(p) && e in p.heap && e.item in p.removed
    ensures Tidy(Swept(p, e)) && Live(Swept(p, e)) == Live(p)
  {
  }

  lemma TakeKeepsTidy(p: PolicyState, e: Entry<TaskId>)
    requires Tidy(p) && e in Live(p)
    ensures Tidy(p.(heap := p.heap - {e})) && Live(p.(heap := p.heap - {e})) == Live(p) - {e}
  {
  }

  /** `next` takes the least live entry of any tidy heap. */
  lemma {:induction false} NextIsLeastLive(p: PolicyState)
    requires Tidy(p)
    ensures var (id, r) := PolicyNext(p);
      && Tidy(r) && r.kind == p.kind && r.heap <= p.heap
      && (Live(p) == {} ==> id == None && Live(r) == {})
      && (Live(p) != {} ==> id == Some(Least(Live(p)).item) && Live(r) == Live(p) - {Least(Live(p))})
    decreases |p.heap|
  {
    if p.heap != {} {
      var e := Least(p.heap);
      if e.item in p.removed {
        SweepKeepsTidy(p, e);
        NextIsLeastLive(Swept(p, e));
      } else {
        LeastIsLeastLive(p);
        TakeKeepsTidy(p, e);
      }
    }
  }

  // ---------- draining ----------

  function Dequeues(n: nat, now: Time): (r: seq<Call>)
    ensures |r| == n && forall c :: c in r ==> c == Call(Dequeue, now)
  {
    if n == 0 then [] else Dequeues(n - 1, now) + [Call(Dequeue, now)]
  }

  const NO_TASKS := PriorityQueue(Fifo, None, [])

  lemma CallsSnoc(q: QueueState, s: PriorityQueue, calls: seq<Call>, c: Call)
    requires HeapShape(q.policy)
    ensures After(q, calls + [c]) == QueueStep(After(q, calls), c.op, c.now).0
    ensures Replies(q, calls + [c]) == Replies(q, calls) + [QueueStep(After(q, calls), c.op, c.now).1]
    ensures SpecAfter(s, calls + [c]) == SpecStep(SpecAfter(s, calls), c.op).0
    ensures SpecReplies(s, calls + [c]) == SpecReplies(s, calls) + [SpecStep(SpecAfter(s, calls), c.op).1]
  {
    assert (calls + [c])[..|calls + [c]| - 1] == calls;
  }

  predicate AllGot(replies: seq<Reply>) {
    forall reply :: reply in replies ==> reply.Got?
  }

  /** The plain queue answers as many dequeues as it holds tasks. */
  lemma {:induction false} SpecDrains(s: PriorityQueue, n: nat, now: Time)
    requires n <= |s.items|
    ensures SpecAfter(s, Dequeues(n, now)) == s.(items := s.items[n..])
    ensures AllGot(SpecReplies(s, Dequeues(n, now)))
  {
    if n > 0 {
      SpecDrains(s, n - 1, now);
      var calls := Dequeues(n - 1, now);
      assert (calls + [Call(Dequeue, now)])[..n - 1] == calls;
      assert s.items[n - 1..][1..] == s.items[n..];
    }
  }

  lemma GotShrinks(q: QueueState, now: Time)
    requires HeapShape(q.policy) && QueueStep(q, Dequeue, now).1.Got?
    ensures var next := QueueStep(q, Dequeue, now).0;
      |q.storage| > 0 && |next.storage| == |q.storage| - 1 && next.capacity == q.capacity
  {
    hide PolicyNext, HeapShape;
    var id := PolicyNext(q.policy).0.value;
    SizeAfter(q.storage, id, q.storage[id]);
  }

  lemma AllGotFront(q: QueueState, n: nat, now: Time)
    requires HeapShape(q.policy) && n > 0 && AllGot(Replies(q, Dequeues(n, now)))
    ensures AllGot(Replies(q, Dequeues(n - 1, now)))
    ensures QueueStep(After(q, Dequeues(n - 1, now)), Dequeue, now).1.Got?
    ensures After(q, Dequeues(n, now)) == QueueStep(After(q, Dequeues(n - 1, now)), Dequeue, now).0
  {
    hide QueueStep, HeapShape, Replies, After;
    var front := Dequeues(n - 1, now);
    CallsSnoc(q, NO_TASKS, front, Call(Dequeue, now));
    assert QueueStep(After(q, front), Dequeue, now).1 in Replies(q, Dequeues(n, now));
    assert forall reply :: reply in Replies(q, front) ==> reply in Replies(q, Dequeues(n, now));
  }

  /** As long as it answers, the lazy queue loses one stored task a dequeue. */
  lemma {:induction false} Drains(q: QueueState, n: nat, now: Time)
    requires HeapShape(q.policy) && AllGot(Replies(q, Dequeues(n, now)))
    ensures var r := After(q, Dequeues(n, now));
      |q.storage| >= n && |r.storage| == |q.storage| - n && r.capacity == q.capacity
  {
    hide QueueStep, HeapShape, Replies, AllGot;
    if n > 0 {
      AllGotFront(q, n, now);
      Drains(q, n - 1, now);
      GotShrinks(After(q, Dequeues(n - 1, now)), now);
    }
  }

  lemma TidyStep(q: QueueState, now: Time)
    requires Tidy(q.policy) && QueueStep(q, Dequeue, now).1.Got?
    ensures var next := QueueStep(q, Dequeue, now).0;
      && Tidy(next.policy) && next.policy.kind == q.policy.kind && next.policy.heap <= q.policy.heap
      && |Live(q.policy)| > 0 && |Live(next.policy)| == |Live(q.policy)| - 1
  {
    NextIsLeastLive(q.policy);
    hide PolicyNext, Live, Tidy, HeapShape;
  }

  /** And one live entry. */
  lemma {:induction false} TidyDrains(q: QueueState, n: nat, now: Time)
    requires Tidy(q.policy) && AllGot(Replies(q, Dequeues(n, now)))
    ensures var r := After(q, Dequeues(n, now));
      && Tidy(r.policy) && r.policy.kind == q.policy.kind && r.policy.heap <= q.policy.heap
      && |Live(q.policy)| >= n && |Live(r.policy)| == |Live(q.policy)| - n
  {
    hide QueueStep, Tidy, Live, Replies, AllGot, HeapShape;
    TidyIsShaped(q.policy);
    if n > 0 {
      AllGotFront(q, n, now);
      TidyDrains(q, n - 1, now);
      TidyStep(After(q, Dequeues(n - 1, now)), now);
    }
  }

  lemma TidyIsShaped(p: PolicyState)
    requires Tidy(p)
    ensures HeapShape(p) && p.Heap?
  {
  }

  // ---------- a task that gets hidden ----------

  lemma LongerThanAll(s: set<TaskId>) returns (n: nat)
    ensures forall x :: x in s ==> |x| < n
  {
    if s == {} {
      n := 0;
    } else {
      var x :| x in s;
      var m := LongerThanAll(s - {x});
      n := if m > |x| then m else |x| + 1;
    }
  }

  lemma UnusedId(s: set<TaskId>) returns (id: TaskId)
    ensures id !in s
  {
    var n := LongerThanAll(s);
    id := seq(n, _ => 'a');
  }

  /** A task no more urgent than a given key. */
  lemma LaterTask(kind: PolicyKind, id: TaskId, key: Key) returns (t: Task)
    requires kind == ByDeadline || (kind == ByPriority && key.At?)
    ensures t.id == id && !KeyBefore(KeyOf(kind, t), key)
  {
    if kind == ByDeadline {
      t := Task(id, None, Missing);
    } else {
      t := Task(id, Some((-key.value).Floor), Missing);
    }
  }

  /** One live entry is left and nothing is stored: it hides whatever is enqueued behind it. */
  lemma LeftoverHides(q: QueueState, l: Entry<TaskId>, x: Task, now: Time)
    requires Tidy(q.policy) && Live(q.policy) == {l} && q.storage == map[] && !Full(q)
    requires !HasEntry(q.policy.heap, x.id) && x.id !in q.policy.removed
    requires !KeyBefore(KeyOf(q.policy.kind, x), l.key)
    ensures QueueStep(q, Enqueue(x), now).1 == Done
    ensures QueueStep(QueueStep(q, Enqueue(x), now).0, Dequeue, now).1 == Raised(QueueEmpty)
  {
    var e := Entry(KeyOf(q.policy.kind, x), q.policy.counter, x.id);
    var added := PolicyAdd(q.policy, x);
    assert l in q.policy.heap;
    assert Tidy(added) && Live(added) == {l, e};
    assert Before(l, e) && IsLeast({l, e}, l);
    NextIsLeastLive(added);
    LeastIsUnique({l, e}, l);
    assert l.item != x.id;
    hide PolicyNext, PolicyAdd, HeapShape, Live, Tidy, KeyOf;
  }

  // ---------- what an enqueue with a trace leaves ----------

  /** Under a priority policy every key is a number. */
  ghost predicate PlainKeys(p: PolicyState) {
    p.Heap? && p.kind == ByPriority ==> forall e :: e in p.heap ==> e.key.At?
  }

  lemma StepKeepsPlain(q: QueueState, c: Call)
    requires HeapShape(q.policy) && PlainKeys(q.policy)
    ensures PlainKeys(QueueStep(q, c.op, c.now).0.policy)
    ensures KindOf(QueueStep(q, c.op, c.now).0.policy) == KindOf(q.policy)
  {
    if q.policy.Heap? {
      NextShrinks(q.policy);
      NextKeepsKind(q.policy);
    }
    hide PolicyNext, PolicyPeek;
  }

  lemma {:induction false} NextKeepsKind(p: PolicyState)
    requires p.Heap? && HeapShape(p)
    ensures PolicyNext(p).1.Heap? && PolicyNext(p).1.kind == p.kind
    ensures PolicyPeek(p).1.Heap? && PolicyPeek(p).1.kind == p.kind
    decreases |p.heap|
  {
    if p.heap != {} && Least(p.heap).item in p.removed {
      NextKeepsKind(Swept(p, Least(p.heap)));
    }
  }

  lemma {:induction false} RunKeepsPlain(q: QueueState, calls: seq<Call>)
    requires HeapShape(q.policy) && PlainKeys(q.policy)
    ensures PlainKeys(After(q, calls).policy)
  {
    hide PlainKeys, QueueStep, HeapShape;
    if calls != [] {
      RunKeepsPlain(q, calls[..|calls| - 1]);
      StepKeepsPlain(After(q, calls[..|calls| - 1]), calls[|calls| - 1]);
    }
  }

  /** Both the tombstoned entry and the new one are live. */
  lemma RevivedIsLive(q: QueueState, t: Task)
    requires ValidQueue(q) && q.policy.Heap? && t.id in q.policy.removed
    ensures HeapShape(q.policy) && |Live(PolicyAdd(q.policy, t))| == |Live(q.policy)| + 2
  {
    ValidShape(q);
    var e :| e in q.policy.heap && e.item == t.id;
    OnlyEntry(q, e);
    LiveWithTwin(q.policy, t, e);
  }

  lemma LiveWithTwin(p: PolicyState, t: Task, e: Entry<TaskId>)
    requires p.Heap? && HeapShape(p) && e in p.heap && e.item == t.id && t.id in p.removed
    requires forall x :: x in p.heap && x.item == t.id ==> x == e
    ensures |Live(PolicyAdd(p, t))| == |Live(p)| + 2
  {
    var twin := Entry(KeyOf(p.kind, t), p.counter, t.id);
    var added := Live(PolicyAdd(p, t));
    assert twin !in p.heap;
    assert added == Live(p) + {e} + {twin};
    hide Live, PolicyAdd, HeapShape, KeyOf;
    assert e !in Live(p) by {
      NotLive(p, e);
    }
    assert twin !in Live(p) + {e} by {
      NotLive(p, twin);
    }
  }

  lemma NotLive(p: PolicyState, e: Entry<TaskId>)
    requires p.Heap? && e.item in p.removed
    ensures e !in Live(p)
  {
  }

  lemma OnlyEntry(q: QueueState, e: Entry<TaskId>)
    requires ValidQueue(q) && q.policy.Heap? && e in q.policy.heap
    ensures forall x :: x in q.policy.heap && x.item == e.item ==> x == e
  {
  }

  lemma LiveIsStored(q: QueueState)
    requires ValidQueue(q) && q.policy.Heap?
    ensures |Live(q.policy)| == |q.storage|
  {
    StorageSize(q.storage, q.policy);
  }

  lemma RevivedIsTidy(q: QueueState, t: Task)
    requires ValidQueue(q) && q.policy.Heap?
    ensures HeapShape(q.policy) && Tidy(PolicyAdd(q.policy, t))
  {
    ValidShape(q);
    var added := PolicyAdd(q.policy, t);
    forall a, b | a in added.heap && b in added.heap && a.item == b.item && a.item in added.removed ensures a == b {
      OnlyEntry(q, a);
    }
  }

  lemma InsertGrows(kind: PolicyKind, items: seq<Task>, t: Task)
    ensures |InsertStable(kind, items, t)| == |items| + 1
  {
  }

  // ---------- behaviour ----------

  /** Every disciplined sequence of calls is answered as the plain queue answers it. */
  ghost predicate BehavesAs(q: QueueState, s: PriorityQueue)
    requires HeapShape(q.policy)
  {
    forall calls :: Disciplined(q, calls) ==> Replies(q, calls) == SpecReplies(s, calls)
  }

  lemma DequeuesAreDisciplined(q: QueueState, n: nat, now: Time)
    requires HeapShape(q.policy)
    ensures Disciplined(q, Dequeues(n, now))
  {
    hide After;
    forall i | 0 <= i < n ensures Clean(After(q, Dequeues(n, now)[..i]), Dequeues(n, now)[i].op) {
      assert Dequeues(n, now)[i] in Dequeues(n, now);
    }
  }

  lemma DisciplinedSnoc(q: QueueState, calls: seq<Call>, c: Call)
    requires HeapShape(q.policy) && Disciplined(q, calls) && Clean(After(q, calls), c.op)
    ensures Disciplined(q, calls + [c])
  {
    hide After, Clean, HeapShape;
    var more := calls + [c];
    forall i | 0 <= i < |more| ensures Clean(After(q, more[..i]), more[i].op) {
      if i < |calls| {
        assert more[..i] == calls[..i] && more[i] == calls[i];
        assert Clean(After(q, calls[..i]), calls[i].op);
      } else {
        assert more[..i] == calls;
      }
    }
  }

  /** A queue that behaves as the plain one lasts as many dequeues as the plain one has tasks. */
  lemma BehavesMeansDrains(q: QueueState, s: PriorityQueue, now: Time)
    requires HeapShape(q.policy) && BehavesAs(q, s)
    ensures AllGot(Replies(q, Dequeues(|s.items|, now)))
  {
    DequeuesAreDisciplined(q, |s.items|, now);
    SpecDrains(s, |s.items|, now);
    hide Disciplined, Replies, SpecReplies, AllGot, SpecAfter;
  }

  lemma HiddenTask(q: QueueState, now: Time) returns (x: Task)
    requires Tidy(q.policy) && PlainKeys(q.policy) && |Live(q.policy)| == 1 && q.storage == map[] && !Full(q)
    ensures HeapShape(q.policy) && Clean(q, Enqueue(x)) && QueueStep(q, Enqueue(x), now).1 == Done
    ensures QueueStep(QueueStep(q, Enqueue(x), now).0, Dequeue, now).1 == Raised(QueueEmpty)
  {
    TidyIsShaped(q.policy);
    var l :| l in Live(q.policy);
    OnlyOne(Live(q.policy), l);
    var id := UnusedId(Names(q.policy.heap) + q.policy.removed);
    assert !HasEntry(q.policy.heap, id) && l in q.policy.heap;
    x := LaterTask(q.policy.kind, id, l.key);
    hide Tidy, Live, HeapShape, Full;
    LeftoverHides(q, l, x, now);
  }

  /** Two more calls tell the queues apart. */
  lemma Distinguished(q: QueueState, s: PriorityQueue, calls: seq<Call>, x: Task, now: Time)
    requires HeapShape(q.policy) && Disciplined(q, calls) && Clean(After(q, calls), Enqueue(x))
    requires QueueStep(QueueStep(After(q, calls), Enqueue(x), now).0, Dequeue, now).1 == Raised(QueueEmpty)
    requires SpecAfter(s, calls).items == []
    requires SpecAfter(s, calls).capacity.Some? ==> SpecAfter(s, calls).capacity.value > 0
    ensures !BehavesAs(q, s)
  {
    var add, take := Call(Enqueue(x), now), Call(Dequeue, now);
    var more := calls + [add];
    assert SpecStep(SpecStep(SpecAfter(s, calls), Enqueue(x)).0, Dequeue).1 == Got(x);
    hide Replies, SpecReplies, After, SpecAfter, Disciplined, QueueStep, SpecStep, HeapShape;
    CallsSnoc(q, s, calls, add);
    CallsSnoc(q, s, more, take);
    DisciplinedSnoc(q, calls, add);
    DisciplinedSnoc(q, more, take);
    var a, b := Replies(q, more + [take]), SpecReplies(s, more + [take]);
    assert a[|a| - 1] == Raised(QueueEmpty) && b[|b| - 1] == Got(x);
  }

  /** The leftover entry is found out by one more task. */
  lemma LeftoverIsSeen(q: QueueState, s: PriorityQueue, now: Time)
    requires Tidy(q.policy) && PlainKeys(q.policy) && HeapShape(q.policy)
    requires AllGot(Replies(q, Dequeues(|s.items|, now)))
    requires |q.storage| == |s.items| && |Live(q.policy)| == |s.items| + 1
    requires q.capacity == s.capacity && (s.capacity.Some? ==> s.capacity.value > 0)
    ensures !BehavesAs(q, s)
  {
    hide *;
    var n := |s.items|;
    var calls := Dequeues(n, now);
    TidyDrains(q, n, now);
    Drains(q, n, now);
    SpecDrains(s, n, now);
    RunKeepsPlain(q, calls);
    DequeuesAreDisciplined(q, n, now);
    assert s.items[n..] == [];
    NotFullWhenEmpty(After(q, calls));
    var x := HiddenTask(After(q, calls), now);
    Distinguished(q, s, calls, x, now);
  }

  lemma NotFullWhenEmpty(q: QueueState)
    requires |q.storage| == 0 && (q.capacity.Some? ==> q.capacity.value > 0)
    ensures !Full(q) && q.storage == map[]
  {
  }

  lemma OnlyOne<T>(s: set<T>, x: T)
    requires x in s && |s| == 1
    ensures s == {x}
  {
    SubsetCardinality({x}, s);
  }

  /** An id that is stored or tombstoned when it is enqueued again shows in some later reply. */
  lemma TraceIsSeen(q: QueueState, t: Task, now: Time)
    requires ValidQueue(q) && PlainKeys(q.policy) && !Full(q) && !Untraced(q, t.id)
    ensures HeapShape(q.policy)
    ensures !BehavesAs(QueueStep(q, Enqueue(t), now).0, SpecStep(Abstract(q), Enqueue(t)).0)
  {
    AbstractIs(q);
    var next, spec := QueueStep(q, Enqueue(t), now).0, SpecStep(Abstract(q), Enqueue(t)).0;
    InsertGrows(KindOf(q.policy), Abstract(q).items, t);
    StoreSize(q.storage, t);
    StepKeepsPlain(q, Call(Enqueue(t), now));
    assert |spec.items| == |q.storage| + 1;
    if BehavesAs(next, spec) {
      BehavesMeansDrains(next, spec, now);
      Drains(next, |spec.items|, now);
      RevivedIsTidy(q, t);
      RevivedIsLive(q, t);
      LiveIsStored(q);
      LeftoverIsSeen(next, spec, now);
    }
  }

  /**
    Reached by a disciplined run, the queue behaves as the plain one after an enqueue exactly when it refused
    the task or the id had left no trace.
   */
  lemma EnqueueBehavesIff(q0: QueueState, run: seq<Call>, t: Task, now: Time)
    requires Empty(q0) && HeapShape(q0.policy) && Disciplined(q0, run)
    ensures var q := After(q0, run);
      && ValidQueue(q)
      && (BehavesAs(QueueStep(q, Enqueue(t), now).0, SpecStep(Abstract(q), Enqueue(t)).0)
          <==> Full(q) || Untraced(q, t.id))
  {
    EmptyIsValid(q0);
    RunRefines(q0, run);
    RunKeepsPlain(q0, run);
    var q := After(q0, run);
    if Full(q) || Untraced(q, t.id) {
      EnqueueRefines(q, t, now);
      ValidBehaves(QueueStep(q, Enqueue(t), now).0);
    } else {
      TraceIsSeen(q, t, now);
    }
  }

  lemma ValidBehaves(q: QueueState)
    requires ValidQueue(q)
    ensures HeapShape(q.policy) && BehavesAs(q, Abstract(q))
  {
    ValidShape(q);
    forall calls | Disciplined(q, calls) ensures Replies(q, calls) == SpecReplies(Abstract(q), calls) {
      RunRefines(q, calls);
    }
  }

  // ---------- no queue behaves so without the discipline ----------

  ghost predicate Splits(q: QueueState, s: PriorityQueue, a: seq<Call>, b: seq<Call>)
    requires HeapShape(q.policy)
  {
    && After(q, a + b) == After(After(q, a), b) && Replies(q, a + b) == Replies(q, a) + Replies(After(q, a), b)
    && SpecAfter(s, a + b) == SpecAfter(SpecAfter(s, a), b)
    && SpecReplies(s, a + b) == SpecReplies(s, a) + SpecReplies(SpecAfter(s, a), b)
  }

  lemma SplitsSnoc(q: QueueState, s: PriorityQueue, a: seq<Call>, front: seq<Call>, c: Call)
    requires HeapShape(q.policy) && Splits(q, s, a, front)
    ensures Splits(q, s, a, front + [c])
  {
    hide After, Replies, SpecAfter, SpecReplies, QueueStep, SpecStep, HeapShape;
    CallsSnoc(q, s, a + front, c);
    CallsSnoc(After(q, a), SpecAfter(s, a), front, c);
    Regroup(a, front, [c]);
    Regroup(Replies(q, a), Replies(After(q, a), front), [QueueStep(After(q, a + front), c.op, c.now).1]);
    Regroup(SpecReplies(s, a), SpecReplies(SpecAfter(s, a), front), [SpecStep(SpecAfter(s, a + front), c.op).1]);
  }

  lemma SplitsNil(q: QueueState, s: PriorityQueue, a: seq<Call>)
    requires HeapShape(q.policy)
    ensures Splits(q, s, a, [])
  {
    assert a + [] == a && Replies(q, a) + [] == Replies(q, a) && SpecReplies(s, a) + [] == SpecReplies(s, a);
  }

  lemma {:induction false} CallsConcat(q: QueueState, s: PriorityQueue, a: seq<Call>, b: seq<Call>)
    requires HeapShape(q.policy)
    ensures Splits(q, s, a, b)
  {
    hide *;
    if b == [] {
      SplitsNil(q, s, a);
    } else {
      var front, c := b[..|b| - 1], b[|b| - 1];
      CallsConcat(q, s, a, front);
      SplitsSnoc(q, s, a, front, c);
      assert b == front + [c];
    }
  }

  lemma Regroup<T>(a: seq<T>, b: seq<T>, c: seq<T>)
    ensures (a + b) + c == a + (b + c)
  {
  }

  lemma TwoEnqueues(q: QueueState, s: PriorityQueue, c: Call)
    requires HeapShape(q.policy)
    ensures After(q, [c] + [c]) == QueueStep(QueueStep(q, c.op, c.now).0, c.op, c.now).0
    ensures SpecAfter(s, [c] + [c]) == SpecStep(SpecStep(s, c.op).0, c.op).0
  {
    CallsSnoc(q, s, [], c);
    CallsSnoc(q, s, [c], c);
    assert [] + [c] == [c];
    hide QueueStep, SpecStep;
  }

  lemma {:induction false} SpecRepliesLength(s: PriorityQueue, calls: seq<Call>)
    ensures |SpecReplies(s, calls)| == |calls|
  {
    if calls != [] {
      SpecRepliesLength(s, calls[..|calls| - 1]);
    }
  }

  lemma DifferentTails<T>(a: seq<T>, b: seq<T>, c: seq<T>, d: seq<T>)
    requires |a| == |c| && b != d
    ensures a + b != c + d
  {
    assert (a + b)[|a|..] == b && (c + d)[|c|..] == d;
  }

  /** A difference after some calls is a difference from the start. */
  lemma LaterDifference(q: QueueState, s: PriorityQueue, first: seq<Call>)
    requires HeapShape(q.policy) && !BehavesAs(After(q, first), SpecAfter(s, first))
    ensures exists calls :: Replies(q, calls) != SpecReplies(s, calls)
  {
    var calls :| Replies(After(q, first), calls) != SpecReplies(SpecAfter(s, first), calls);
    CallsConcat(q, s, first, calls);
    hide *;
    SpecRepliesLength(s, first);
    DifferentTails(Replies(q, first), Replies(After(q, first), calls),
      SpecReplies(s, first), SpecReplies(SpecAfter(s, first), calls));
    assert Replies(q, first + calls) != SpecReplies(s, first + calls);
  }

  /** Enqueueing an unused id twice makes any unbounded queue differ from the plain one in some reply. */
  lemma UndisciplinedCallsShow(q: QueueState, now: Time)
    requires ValidQueue(q) && PlainKeys(q.policy) && q.capacity == None
    ensures HeapShape(q.policy) && exists calls :: Replies(q, calls) != SpecReplies(Abstract(q), calls)
  {
    ValidShape(q);
    var id := UnusedId(q.storage.Keys + if q.policy.Heap? then q.policy.removed else {});
    var x := Task(id, None, Missing);
    assert !Full(q) && Untraced(q, id);
    EnqueueRefines(q, x, now);
    var next := QueueStep(q, Enqueue(x), now).0;
    assert id in next.storage && !Full(next) && !Untraced(next, id);
    assert ValidQueue(next) && Abstract(next) == SpecStep(Abstract(q), Enqueue(x)).0;
    hide QueueStep, SpecStep, ValidQueue, Abstract, HeapShape, PlainKeys, BehavesAs, Full, Untraced, After, SpecAfter;
    StepKeepsPlain(q, Call(Enqueue(x), now));
    TraceIsSeen(next, x, now);
    TwoEnqueues(q, Abstract(q), Call(Enqueue(x), now));
    LaterDifference(q, Abstract(q), [Call(Enqueue(x), now)] + [Call(Enqueue(x), now)]);
  }

  // ---------- a run that gets there ----------

  function Urgent(id: TaskId, priority: int): Task {
    Task(id, Some(priority), Missing)
  }

  /** Enqueue a and b, and cancel the more urgent a. */
  function StaleRun(a: TaskId, b: TaskId, now: Time): seq<Call> {
    [] + [Call(Enqueue(Urgent(a, 9)), now)] + [Call(Enqueue(Urgent(b, 5)), now)] + [Call(Cancel(a), now)]
  }

  const NEW_HEAP := Heap(ByPriority, {}, {}, 0)

  ghost function First(a: TaskId): Entry<TaskId> {
    Entry(At(-9.0), 0, a)
  }

  ghost function Second(b: TaskId): Entry<TaskId> {
    Entry(At(-5.0), 1, b)
  }

  lemma CancelStored(q: QueueState, id: TaskId, now: Time)
    requires HeapShape(q.policy) && q.policy.Heap? && id in q.storage
    ensures var next := QueueStep(q, Cancel(id), now).0;
      && next.capacity == q.capacity && next.storage == q.storage - {id}
      && next.policy == q.policy.(removed := q.policy.removed + {id})
  {
  }

  /** The stored tasks and the entries of the run, as the calls build them up. */
  function StaleTasks(a: TaskId, b: TaskId): map<TaskId, Task> {
    map[][a := Urgent(a, 9)][b := Urgent(b, 5)]
  }

  function StaleEntries(a: TaskId, b: TaskId): set<Entry<TaskId>> {
    {} + {Entry(At(-(9 as real)), 0, a)} + {Entry(At(-(5 as real)), 1, b)}
  }

  lemma TwoAdded(q: QueueState, t: Task, u: Task, now: Time)
    requires HeapShape(q.policy) && q.capacity == None && q.policy.Heap? && q.policy.removed == {}
    ensures var n := q.policy.counter; var kind := q.policy.kind;
      var next := QueueStep(QueueStep(q, Enqueue(t), now).0, Enqueue(u), now).0;
      && next.capacity == None && next.storage == q.storage[t.id := t][u.id := u]
      && next.policy == Heap(kind,
           q.policy.heap + {Entry(KeyOf(kind, t), n, t.id)} + {Entry(KeyOf(kind, u), n + 1, u.id)}, {}, n + 2)
  {
    hide HeapShape, KeyOf;
  }

  lemma TwoEnqueued(a: TaskId, b: TaskId, now: Time)
    ensures var q := QueueStep(
        QueueStep(NewQueue(None, NEW_HEAP), Enqueue(Urgent(a, 9)), now).0, Enqueue(Urgent(b, 5)), now).0;
      && q.capacity == None && q.storage == StaleTasks(a, b)
      && q.policy == Heap(ByPriority, StaleEntries(a, b), {}, 2)
  {
    assert HeapShape(NEW_HEAP);
    hide QueueStep, HeapShape;
    TwoAdded(NewQueue(None, NEW_HEAP), Urgent(a, 9), Urgent(b, 5), now);
  }

  lemma StaleCalls(q: QueueState, c1: Call, c2: Call, c3: Call)
    requires HeapShape(q.policy)
    ensures After(q, [] + [c1] + [c2] + [c3]) ==
      QueueStep(QueueStep(QueueStep(q, c1.op, c1.now).0, c2.op, c2.now).0, c3.op, c3.now).0
  {
    CallsSnoc(q, NO_TASKS, [], c1);
    CallsSnoc(q, NO_TASKS, [] + [c1], c2);
    CallsSnoc(q, NO_TASKS, [] + [c1] + [c2], c3);
    hide QueueStep, Replies, SpecAfter, SpecReplies;
  }

  lemma StaleParts(a: TaskId, b: TaskId)
    requires a != b
    ensures StaleEntries(a, b) == {First(a), Second(b)} && a in StaleTasks(a, b)
    ensures (StaleTasks(a, b) - {a}).Keys == {b} && (StaleTasks(a, b) - {a})[b] == Urgent(b, 5)
  {
  }

  lemma StaleState(a: TaskId, b: TaskId, now: Time)
    requires a != b
    ensures var q := After(NewQueue(None, NEW_HEAP), StaleRun(a, b, now));
      && q.capacity == None && q.storage.Keys == {b} && q.storage[b] == Urgent(b, 5)
      && q.policy == Heap(ByPriority, {First(a), Second(b)}, {} + {a}, 2)
  {
    var q0 := NewQueue(None, NEW_HEAP);
    assert HeapShape(q0.policy);
    StaleParts(a, b);
    hide QueueStep, HeapShape, After, StaleTasks, StaleEntries, First, Second;
    StaleCalls(q0, Call(Enqueue(Urgent(a, 9)), now), Call(Enqueue(Urgent(b, 5)), now), Call(Cancel(a), now));
    TwoEnqueued(a, b, now);
    CancelStored(QueueStep(QueueStep(q0, Enqueue(Urgent(a, 9)), now).0, Enqueue(Urgent(b, 5)), now).0, a, now);
  }

  lemma StaleIsValid(a: TaskId, b: TaskId, now: Time)
    requires a != b
    ensures ValidQueue(After(NewQueue(None, NEW_HEAP), StaleRun(a, b, now)))
  {
    var q0 := NewQueue(None, NEW_HEAP);
    DistinctIdsAreDisciplined(q0, StaleRun(a, b, now));
    EmptyIsValid(q0);
    RunRefines(q0, StaleRun(a, b, now));
  }

  lemma StaleHead(a: TaskId, b: TaskId, now: Time)
    requires a != b
    ensures Numbered({First(a), Second(b)}) && Least({First(a), Second(b)}) == First(a)
  {
    assert IsLeast({First(a), Second(b)}, First(a));
  }

  /**
    A cancelled task comes back less urgent than another and is served first all the same; had it come back
    more urgent, the entry left over would have made the queue call itself empty while b is stored.
   */
  lemma StaleEntryStrikes(a: TaskId, b: TaskId, now: Time)
    requires a != b
    ensures var q := After(NewQueue(None, NEW_HEAP), StaleRun(a, b, now)); var low, high := Urgent(a, 1), Urgent(a, 7);
      && ValidQueue(q)
      && QueueStep(QueueStep(q, Enqueue(low), now).0, Dequeue, now).1 == Got(low)
      && SpecStep(SpecStep(Abstract(q), Enqueue(low)).0, Dequeue).1 == Got(Urgent(b, 5))
      && var next := QueueStep(QueueStep(q, Enqueue(high), now).0, Dequeue, now).0;
         next.storage != map[] && QueueStep(next, Dequeue, now).1 == Raised(QueueEmpty)
  {
    var q := After(NewQueue(None, NEW_HEAP), StaleRun(a, b, now));
    StaleState(a, b, now);
    StaleIsValid(a, b, now);
    StaleHead(a, b, now);
    AbstractIs(q);
    assert |Abstract(q).items| == 1 by {
      assert |q.storage| == |q.storage.Keys|;
    }
    StoredIsServed(q, b);
    RevivedEntryJumpsQueue(q, Urgent(a, 1), now);
    LeftoverEntryHidesTasks(q, Urgent(a, 7), now);
    hide QueueStep, SpecStep, ValidQueue, Abstract, After;
  }

  lemma StoredIsServed(q: QueueState, id: TaskId)
    requires ValidQueue(q) && id in q.storage && |Abstract(q).items| == 1
    ensures Abstract(q).items == [q.storage[id]]
  {
    AbstractFinds(q, id);
    var items := Abstract(q).items;
    assert items == [items[0]];
    hide Abstract, ValidQueue;
  }
}
