/**
  The task queue and its ordering policies as objects. Every method is proved to move the object exactly as
  the step functions of QueueModel say, whatever state it finds.
 */
module TaskQueue {
  import opened Wrappers
  import opened EntryHeap
  import opened OrderedReplay
  import opened EventReplay
  import opened QueueModel

  /** First in, first out. */
  class FIFOPolicy {
    var order: seq<TaskId>

    constructor ()
      ensures order == []
    {
      order := [];
    }

    method Add(task: Task)
      modifies this
      ensures order == old(order) + [task.id]
    {
      order := order + [task.id];
    }

    /** Drops the first occurrence of the id, if there is one. */
    method Remove(id: TaskId)
      modifies this
      ensures Order(order) == PolicyRemove(Order(old(order)), id)
    {
      var i := 0;
      while i < |order| && order[i] != id
        invariant 0 <= i <= |order| && order == old(order)
        invariant id !in order[..i]
        invariant RemoveFirst(order, id) == order[..i] + RemoveFirst(order[i..], id)
      {
        assert order[i..][1..] == order[i + 1..];
        assert order[..i + 1] == order[..i] + [order[i]];
        i := i + 1;
      }
      if i < |order| {
        assert order[i..][1..] == order[i + 1..];
        order := order[..i] + order[i + 1..];
      } else {
        assert order == order[..i];
      }
    }

    method Next() returns (id: Option<TaskId>)
      modifies this
      ensures (id, Order(order)) == PolicyNext(Order(old(order)))
    {
      if order == [] {
        return None;
      }
      id := Some(order[0]);
      order := order[1..];
    }

    method Peek() returns (id: Option<TaskId>)
      ensures (id, Order(order)) == PolicyPeek(Order(order))
    {
      id := if order == [] then None else Some(order[0]);
    }
  }

  /** By priority or by deadline: a heap from which removed ids are deleted lazily. */
  class HeapPolicy {
    const kind: PolicyKind
    var heap: set<Entry<TaskId>>
    var removed: set<TaskId>
    var counter: nat

    ghost function State(): PolicyState
      reads this
    {
      Heap(kind, heap, removed, counter)
    }

    ghost predicate Valid()
      reads this
    {
      HeapShape(State())
    }

    constructor (kind: PolicyKind)
      requires kind != Fifo
      ensures Valid() && State() == Heap(kind, {}, {}, 0)
    {
      this.kind := kind;
      heap, removed, counter := {}, {}, 0;
    }

    method Add(task: Task)
      requires Valid()
      modifies this
      ensures Valid() && State() == PolicyAdd(old(State()), task)
    {
      removed := removed - {task.id};
      heap := heap + {Entry(KeyOf(kind, task), counter, task.id)};
      counter := counter + 1;
    }

    method Remove(id: TaskId)
      requires Valid()
      modifies this
      ensures Valid() && State() == PolicyRemove(old(State()), id)
    {
      removed := removed + {id};
    }

    method Next() returns (id: Option<TaskId>)
      requires Valid()
      modifies this
      ensures Valid() && (id, State()) == PolicyNext(old(State()))
    {
      while heap != {}
        invariant Valid() && PolicyNext(State()) == PolicyNext(old(State()))
        decreases |heap|
      {
        var e := LeastEntry(heap);
        heap := heap - {e};
        if e.item in removed {
          removed := removed - {e.item};
        } else {
          return Some(e.item);
        }
      }
      return None;
    }

    method Peek() returns (id: Option<TaskId>)
      requires Valid()
      modifies this
      ensures Valid() && (id, State()) == PolicyPeek(old(State()))
    {
      while heap != {}
        invariant Valid() && PolicyPeek(State()) == PolicyPeek(old(State()))
        decreases |heap|
      {
        var e := LeastEntry(heap);
        if e.item in removed {
          heap := heap - {e};
          removed := removed - {e.item};
        } else {
          return Some(e.item);
        }
      }
      return None;
    }
  }

  /** The policy a queue was given. */
  datatype Policy = ByArrival(fifo: FIFOPolicy) | ByKey(keyed: HeapPolicy) {
    ghost function State(): PolicyState
      reads if ByArrival? then {fifo as object} else {keyed}
    {
      if ByArrival? then Order(fifo.order) else keyed.State()
    }

    ghost function Repr(): set<object> {
      if ByArrival? then {fifo} else {keyed}
    }
  }

  class InMemoryTaskQueue {
    const maxSize: Option<nat>
    const policy: Policy
    var storage: map<TaskId, Task>
    var enqueueCount: nat
    var dequeueCount: nat
    var cancelCount: nat
    var recorded: seq<Event>

    ghost function State(): QueueState
      reads this, policy.Repr()
    {
      QueueState(maxSize, storage, policy.State(), enqueueCount, dequeueCount, cancelCount, recorded)
    }

    ghost predicate Valid()
      reads this, policy.Repr()
    {
      this !in policy.Repr() && HeapShape(policy.State())
    }

    /** A missing, zero or negative limit means no limit. */
    constructor (limit: Option<int>, policy: Policy)
      requires HeapShape(policy.State())
      ensures Valid() && this.policy == policy
      ensures State() == QueueState(maxSize, map[], policy.State(), 0, 0, 0, [])
      ensures maxSize == if limit.Some? && limit.value > 0 then Some(limit.value) else None
    {
      maxSize := if limit.Some? && limit.value > 0 then Some(limit.value) else None;
      this.policy := policy;
      storage := map[];
      enqueueCount, dequeueCount, cancelCount := 0, 0, 0;
      recorded := [];
    }

    method Enqueue(task: Task, now: Time) returns (reply: Reply)
      requires Valid()
      modifies this, policy.Repr()
      ensures Valid() && (State(), reply) == QueueStep(old(State()), Op.Enqueue(task), now)
    {
      if maxSize.Some? && |storage| >= maxSize.value {
        return Raised(QueueFull);
      }
      storage := storage[task.id := task];
      match policy {
        case ByArrival(fifo) => fifo.Add(task);
        case ByKey(keyed) => keyed.Add(task);
      }
      enqueueCount := enqueueCount + 1;
      recorded := recorded + [Event(now, TaskQueued(task.id))];
      return Done;
    }

    method Dequeue(now: Time) returns (reply: Reply)
      requires Valid()
      modifies this, policy.Repr()
      ensures Valid() && (State(), reply) == QueueStep(old(State()), Op.Dequeue, now)
    {
      var next: Option<TaskId>;
      match policy {
        case ByArrival(fifo) => next := fifo.Next();
        case ByKey(keyed) => next := keyed.Next();
      }
      if next.None? || next.value !in storage {
        return Raised(QueueEmpty);
      }
      var task := storage[next.value];
      storage := storage - {next.value};
      dequeueCount := dequeueCount + 1;
      recorded := recorded + [Event(now, TaskDequeued(next.value))];
      return Got(task);
    }

    method Peek() returns (reply: Reply)
      requires Valid()
      modifies policy.Repr()
      ensures Valid() && forall now :: (State(), reply) == QueueStep(old(State()), Op.Peek, now)
    {
      var next: Option<TaskId>;
      match policy {
        case ByArrival(fifo) => next := fifo.Peek();
        case ByKey(keyed) => next := keyed.Peek();
      }
      return if next.Some? && next.value in storage then Got(storage[next.value]) else Nothing;
    }

    method Cancel(id: TaskId, now: Time) returns (reply: Reply)
      requires Valid()
      modifies this, policy.Repr()
      ensures Valid() && (State(), reply) == QueueStep(old(State()), Op.Cancel(id), now)
    {
      if id !in storage {
        return Raised(TaskNotFound(id));
      }
      var task := storage[id];
      storage := storage - {id};
      match policy {
        case ByArrival(fifo) => fifo.Remove(id);
        case ByKey(keyed) => keyed.Remove(id);
      }
      cancelCount := cancelCount + 1;
      recorded := recorded + [Event(now, TaskCancelled(id))];
      return Got(task);
    }
  }
}
