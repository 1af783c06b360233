/**
  The task queue and its policies as functions on values: a storage index beside an ordering policy
  that deletes lazily. Under the right discipline the two behave as one stable priority queue.
 */
module QueueModel {
  import opened Wrappers
  import opened Sequences
  import opened EntryHeap
  import opened OrderedReplay
  import opened EventReplay

  datatype PolicyKind = Fifo | ByPriority | ByDeadline

  /** A deadline entry in a task's metadata: absent, a number, or a text that may parse as a date. */
  datatype Deadline = Missing | Seconds(seconds: real) | Text(parsed: Option<real>) | Unusable

  datatype Task = Task(id: TaskId, priority: Option<int>, deadline: Deadline)

  /** Larger priorities first, earlier deadlines first, no deadline last; under FIFO all alike. */
  function KeyOf(kind: PolicyKind, t: Task): Key {
    match kind
    case Fifo => At(0.0)
    case ByPriority => At(-((if t.priority.Some? then t.priority.value else 0) as real))
    case ByDeadline =>
      match t.deadline
      case Seconds(r) => At(r)
      case Text(Some(r)) => At(r)
      case _ => Never
  }

  // ---------- ordering policies ----------

  /** Either the FIFO order of ids, or a heap with the tombstones of lazily deleted ids. */
  datatype PolicyState =
    | Order(ids: seq<TaskId>)
    | Heap(kind: PolicyKind, heap: set<Entry<TaskId>>, removed: set<TaskId>, counter: nat)

  function KindOf(p: PolicyState): PolicyKind {
    if p.Order? then Fifo else p.kind
  }

  /** Entry numbers are distinct and were all handed out already. */
  ghost predicate HeapShape(p: PolicyState) {
    p.Heap? ==> p.kind != Fifo && Numbered(p.heap) && forall e :: e in p.heap ==> e.number < p.counter
  }

  ghost function PolicyAdd(p: PolicyState, t: Task): (r: PolicyState)
    requires HeapShape(p)
    ensures HeapShape(r)
  {
    match p
    case Order(ids) => Order(ids + [t.id])
    case Heap(kind, heap, removed, counter) =>
      Heap(kind, heap + {Entry(KeyOf(kind, t), counter, t.id)}, removed - {t.id}, counter + 1)
  }

  function PolicyRemove(p: PolicyState, id: TaskId): PolicyState {
    match p
    case Order(ids) => Order(ApplyOp(ids, Remove(id)))
    case Heap(_, _, removed, _) => p.(removed := removed + {id})
  }

  /** Takes the next id off, discarding tombstoned entries on the way. */
  ghost function PolicyNext(p: PolicyState): (r: (Option<TaskId>, PolicyState))
    requires HeapShape(p)
    ensures HeapShape(r.1)
    decreases if p.Heap? then |p.heap| else 0
  {
    match p
    case Order(ids) => if ids == [] then (None, p) else (Some(ids[0]), Order(ids[1..]))
    case Heap(_, heap, removed, _) =>
      if heap == {} then (None, p)
      else
        var e := Least(heap);
        var rest := p.(heap := heap - {e});
        if e.item in removed then PolicyNext(rest.(removed := removed - {e.item}))
        else (Some(e.item), rest)
  }

  /** Reports the next id, discarding tombstoned entries in front of it. */
  ghost function PolicyPeek(p: PolicyState): (r: (Option<TaskId>, PolicyState))
    requires HeapShape(p)
    ensures HeapShape(r.1)
    decreases if p.Heap? then |p.heap| else 0
  {
    match p
    case Order(ids) => (if ids == [] then None else Some(ids[0]), p)
    case Heap(_, heap, removed, _) =>
      if heap == {} then (None, p)
      else
        var e := Least(heap);
        if e.item in removed then PolicyPeek(p.(heap := heap - {e}, removed := removed - {e.item}))
        else (Some(e.item), p)
  }

  // ---------- the queue ----------

  datatype QueueError = QueueFull | QueueEmpty | TaskNotFound(id: TaskId)

  datatype QueueState = QueueState(
    capacity: Option<nat>, storage: map<TaskId, Task>, policy: PolicyState,
    enqueued: nat, dequeued: nat, cancelled: nat, log: seq<Event>)

  predicate Full(q: QueueState) {
    q.capacity.Some? && |q.storage| >= q.capacity.value
  }

  datatype Op = Enqueue(task: Task) | Dequeue | Peek | Cancel(id: TaskId)

  datatype Reply = Done | Got(task: Task) | Nothing | Raised(error: QueueError)

  /** One queue operation. `now` stamps the event it records. A failed dequeue has still moved the policy. */
  ghost function QueueStep(q: QueueState, op: Op, now: Time): (r: (QueueState, Reply))
    requires HeapShape(q.policy)
    ensures HeapShape(r.0.policy)
  {
    match op
    case Enqueue(t) =>
      if Full(q) then (q, Raised(QueueFull))
      else
        (q.(storage := q.storage[t.id := t], policy := PolicyAdd(q.policy, t),
            enqueued := q.enqueued + 1, log := q.log + [Event(now, TaskQueued(t.id))]), Done)
    case Dequeue =>
      var (next, policy) := PolicyNext(q.policy);
      if next.None? || next.value !in q.storage then (q.(policy := policy), Raised(QueueEmpty))
      else
        (q.(storage := q.storage - {next.value}, policy := policy,
            dequeued := q.dequeued + 1, log := q.log + [Event(now, TaskDequeued(next.value))]),
         Got(q.storage[next.value]))
    case Peek =>
      var (next, policy) := PolicyPeek(q.policy);
      (q.(policy := policy),
       if next.Some? && next.value in q.storage then Got(q.storage[next.value]) else Nothing)
    case Cancel(id) =>
      if id !in q.storage then (q, Raised(TaskNotFound(id)))
      else
        (q.(storage := q.storage - {id}, policy := PolicyRemove(q.policy, id),
            cancelled := q.cancelled + 1, log := q.log + [Event(now, TaskCancelled(id))]),
         Got(q.storage[id]))
  }

  // ---------- the queue it stands for ----------

  /** A stable priority queue: tasks in service order. */
  datatype PriorityQueue = PriorityQueue(kind: PolicyKind, capacity: Option<nat>, items: seq<Task>)

  /** Behind every task that does not come later by key. */
  function InsertStable(kind: PolicyKind, items: seq<Task>, t: Task): seq<Task> {
    if items == [] then [t]
    else if KeyBefore(KeyOf(kind, t), KeyOf(kind, items[0])) then [t] + items
    else [items[0]] + InsertStable(kind, items[1..], t)
  }

  predicate Holds(items: seq<Task>, id: TaskId) {
    exists t :: t in items && t.id == id
  }

  function FindTask(items: seq<Task>, id: TaskId): (t: Task)
    requires Holds(items, id)
    ensures t in items && t.id == id
  {
    if items[0].id == id then items[0] else FindTask(items[1..], id)
  }

  function SpecStep(s: PriorityQueue, op: Op): (PriorityQueue, Reply) {
    match op
    case Enqueue(t) =>
      if s.capacity.Some? && |s.items| >= s.capacity.value then (s, Raised(QueueFull))
      else (s.(items := InsertStable(s.kind, s.items, t)), Done)
    case Dequeue =>
      if s.items == [] then (s, Raised(QueueEmpty)) else (s.(items := s.items[1..]), Got(s.items[0]))
    case Peek => (s, if s.items == [] then Nothing else Got(s.items[0]))
    case Cancel(id) =>
      if Holds(s.items, id) then (s.(items := Select(s.items, (t: Task) => t.id != id)), Got(FindTask(s.items, id)))
      else (s, Raised(TaskNotFound(id)))
  }

  // ---------- the discipline ----------

  ghost predicate HasEntry(heap: set<Entry<TaskId>>, id: TaskId) {
    exists e :: e in heap && e.item == id
  }

  ghost predicate OneEntryPerId(heap: set<Entry<TaskId>>) {
    forall a, b :: a in heap && b in heap && a.item == b.item ==> a == b
  }

  /** The policy orders exactly the stored tasks, besides tombstoned entries, one entry an id. */
  ghost predicate Ordered(storage: map<TaskId, Task>, p: PolicyState) {
    match p
    case Order(ids) => NoDup(ids) && forall id :: id in ids <==> id in storage
    case Heap(kind, heap, removed, _) =>
      && HeapShape(p) && OneEntryPerId(heap)
      && (forall id :: id in removed ==> HasEntry(heap, id))
      && (forall id :: id in storage <==> HasEntry(heap, id) && id !in removed)
      && (forall e :: e in heap && e.item in storage ==> e.key == KeyOf(kind, storage[e.item]))
  }

  ghost predicate OwnIds(storage: map<TaskId, Task>) {
    forall id :: id in storage ==> storage[id].id == id
  }

  /** Every task enqueued was dequeued, was cancelled or is stored, and no more are stored than fit. */
  ghost predicate Accounted(q: QueueState) {
    && q.enqueued == q.dequeued + q.cancelled + |q.storage|
    && (q.capacity.Some? ==> |q.storage| <= q.capacity.value)
  }

  ghost predicate ValidQueue(q: QueueState) {
    OwnIds(q.storage) && Ordered(q.storage, q.policy) && Accounted(q)
  }

  /** The policy holds no trace of the id: it is not stored, and no tombstoned entry is left of it. */
  predicate Untraced(q: QueueState, id: TaskId) {
    id !in q.storage && (q.policy.Heap? ==> id !in q.policy.removed)
  }

  ghost function Live(p: PolicyState): set<Entry<TaskId>>
    requires p.Heap?
  {
    set e | e in p.heap && e.item !in p.removed
  }

  /** The stored ids in service order. */
  ghost function ServiceOrder(p: PolicyState): seq<TaskId>
    requires HeapShape(p)
  {
    match p
    case Order(ids) => ids
    case Heap(_, _, _, _) => Items(Sorted(Live(p)))
  }

  ghost function TasksOf(storage: map<TaskId, Task>, ids: seq<TaskId>): (r: seq<Task>)
    requires forall id :: id in ids ==> id in storage
    ensures |r| == |ids|
  {
    seq(|ids|, i requires 0 <= i < |ids| => storage[ids[i]])
  }

  lemma SortedNoDup(live: set<Entry<TaskId>>)
    requires Numbered(live) && OneEntryPerId(live)
    ensures NoDup(Items(Sorted(live)))
  {
    var order := Sorted(live);
    forall i, j | 0 <= i < j < |order| ensures order[i].item != order[j].item {
      SortedIsSorted(live, i, j);
      assert order[i] in order && order[j] in order;
    }
  }

  lemma SortedNames(live: set<Entry<TaskId>>, id: TaskId)
    requires Numbered(live)
    ensures id in Items(Sorted(live)) <==> HasEntry(live, id)
  {
    var order := Sorted(live);
    hide Sorted;
    if HasEntry(live, id) {
      var e :| e in live && e.item == id;
      assert e in order;
      var i :| 0 <= i < |order| && order[i] == e;
      assert Items(order)[i] == id;
    }
    if id in Items(order) {
      var i :| 0 <= i < |order| && Items(order)[i] == id;
      assert order[i] in order;
    }
  }

  lemma OrderIsStored(storage: map<TaskId, Task>, p: PolicyState)
    requires Ordered(storage, p)
    ensures HeapShape(p) && NoDup(ServiceOrder(p)) && forall id :: id in ServiceOrder(p) <==> id in storage
  {
    if p.Heap? {
      SortedNoDup(Live(p));
      forall id ensures id in ServiceOrder(p) <==> id in storage {
        SortedNames(Live(p), id);
        if HasEntry(p.heap, id) && id !in p.removed {
          var e :| e in p.heap && e.item == id;
          assert e in Live(p);
        }
      }
    }
  }

  /** What the queue stands for. */
  ghost function Abstract(q: QueueState): PriorityQueue
    requires ValidQueue(q)
  {
    OrderIsStored(q.storage, q.policy);
    PriorityQueue(KindOf(q.policy), q.capacity, TasksOf(q.storage, ServiceOrder(q.policy)))
  }
}
