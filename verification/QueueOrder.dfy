/**
  When the ids replayed from the queue's events stand in the FIFO policy's own order. Enqueueing a stored id again
  leaves a second entry in the order, and the two lists then differ until the surplus entries are used up.
 */
module QueueOrder {
  import opened Sequences
  import opened OrderedReplay
  import opened EventReplay
  import opened QueueModel
  import opened QueueRuns
  import opened QueueLedger

  /** The order has one entry for the id if it is stored, and none otherwise. */
  predicate Sole(ids: seq<TaskId>, stored: set<TaskId>, id: TaskId) {
    multiset(ids)[id] == if id in stored then 1 else 0
  }

  predicate SoleOther(ids: seq<TaskId>, stored: set<TaskId>, x: TaskId, id: TaskId) {
    Sole(ids, stored, id) && id != x
  }

  function SoleOf(s: seq<TaskId>, ids: seq<TaskId>, stored: set<TaskId>): seq<TaskId> {
    Select(s, id => Sole(ids, stored, id))
  }

  /** The same, without one id. */
  function SoleBut(s: seq<TaskId>, ids: seq<TaskId>, stored: set<TaskId>, x: TaskId): seq<TaskId> {
    Select(s, id => SoleOther(ids, stored, x, id))
  }

  /** Stored ids have entries, and the ids with sole entries stand in the same order in both lists. */
  ghost predicate Aligned(ids: seq<TaskId>, stored: set<TaskId>, replayed: seq<TaskId>) {
    && NoDup(replayed) && (forall id :: id in replayed <==> id in stored)
    && (forall id :: id in stored ==> id in ids)
    && SoleOf(ids, ids, stored) == SoleOf(replayed, ids, stored)
  }

  // ---------- one id at a time ----------

  lemma {:induction false} RemoveFirstKeepsOthers(s: seq<TaskId>, x: TaskId, keep: TaskId -> bool)
    requires !keep(x)
    ensures Select(RemoveFirst(s, x), keep) == Select(s, keep)
  {
    if s != [] {
      assert s == [s[0]] + s[1..];
      SelectCons(s[0], s[1..], keep);
      if s[0] != x {
        RemoveFirstKeepsOthers(s[1..], x, keep);
        SelectCons(s[0], RemoveFirst(s[1..], x), keep);
      }
    }
  }

  lemma {:induction false} RemoveFirstCounts(s: seq<TaskId>, x: TaskId)
    requires x in s
    ensures multiset(RemoveFirst(s, x)) == multiset(s) - multiset{x}
  {
    assert s == [s[0]] + s[1..];
    if s[0] != x {
      RemoveFirstCounts(s[1..], x);
    }
  }

  lemma AlignedBut(ids: seq<TaskId>, stored: set<TaskId>, replayed: seq<TaskId>, x: TaskId)
    requires Aligned(ids, stored, replayed)
    ensures SoleBut(ids, ids, stored, x) == SoleBut(replayed, ids, stored, x)
  {
    SelectTwice(ids, id => Sole(ids, stored, id), id => id != x, id => SoleOther(ids, stored, x, id));
    SelectTwice(replayed, id => Sole(ids, stored, id), id => id != x, id => SoleOther(ids, stored, x, id));
  }

  /** The other ids are sole as before. */
  ghost predicate OnlyAt(
    ids: seq<TaskId>, stored: set<TaskId>, x: TaskId, ids': seq<TaskId>, stored': set<TaskId>)
  {
    forall id :: id != x ==> (Sole(ids', stored', id) <==> Sole(ids, stored, id))
  }

  lemma SoleNow(
    s: seq<TaskId>, ids: seq<TaskId>, stored: set<TaskId>, x: TaskId, ids': seq<TaskId>, stored': set<TaskId>)
    requires OnlyAt(ids, stored, x, ids', stored') && (x !in s || !Sole(ids', stored', x))
    ensures SoleOf(s, ids', stored') == SoleBut(s, ids, stored, x)
  {
    SelectSame(s, id => Sole(ids', stored', id), id => SoleOther(ids, stored, x, id));
  }

  /** A change at one id that leaves it without a sole entry, or out of both lists, keeps the others aligned. */
  lemma ChangeKeepsAligned(
    ids: seq<TaskId>, stored: set<TaskId>, replayed: seq<TaskId>, x: TaskId,
    ids': seq<TaskId>, stored': set<TaskId>, replayed': seq<TaskId>)
    requires Aligned(ids, stored, replayed) && OnlyAt(ids, stored, x, ids', stored')
    requires ids' == ids + [x] || ids' == RemoveFirst(ids, x)
    requires replayed' == replayed || replayed' == replayed + [x] || replayed' == RemoveFirst(replayed, x)
    requires !Sole(ids', stored', x) || (x !in ids' && x !in replayed')
    requires NoDup(replayed') && forall id :: id in replayed' <==> id in stored'
    requires forall id :: id in stored' ==> id in ids'
    ensures Aligned(ids', stored', replayed')
  {
    var keep := id => SoleOther(ids, stored, x, id);
    AlignedBut(ids, stored, replayed, x);
    SoleNow(ids', ids, stored, x, ids', stored');
    SoleNow(replayed', ids, stored, x, ids', stored');
    SelectSnoc(ids, x, id => SoleOther(ids, stored, x, id));
    SelectSnoc(replayed, x, id => SoleOther(ids, stored, x, id));
    RemoveFirstKeepsOthers(ids, x, id => SoleOther(ids, stored, x, id));
    RemoveFirstKeepsOthers(replayed, x, id => SoleOther(ids, stored, x, id));
  }

  lemma EnqueueKeepsAligned(ids: seq<TaskId>, stored: set<TaskId>, replayed: seq<TaskId>, x: TaskId)
    requires Aligned(ids, stored, replayed)
    ensures Aligned(ids + [x], stored + {x}, ApplyOp(replayed, Insert(x)))
  {
    var ids', stored', replayed' := ids + [x], stored + {x}, ApplyOp(replayed, Insert(x));
    ApplyOpIsSound(replayed, Insert(x), x);
    forall id ensures id in replayed' <==> id in stored' {
      ApplyOpIsSound(replayed, Insert(x), id);
    }
    assert multiset(ids') == multiset(ids) + multiset{x};
    assert OnlyAt(ids, stored, x, ids', stored');
    if x !in ids {
      SelectSame(ids, id => Sole(ids', stored', id), id => Sole(ids, stored, id));
      SelectSame(replayed, id => Sole(ids', stored', id), id => Sole(ids, stored, id));
      SelectSnoc(ids, x, id => Sole(ids', stored', id));
      SelectSnoc(replayed, x, id => Sole(ids', stored', id));
    } else {
      ChangeKeepsAligned(ids, stored, replayed, x, ids', stored', replayed');
    }
  }

  lemma RemoveKeepsAligned(ids: seq<TaskId>, stored: set<TaskId>, replayed: seq<TaskId>, x: TaskId)
    requires Aligned(ids, stored, replayed) && x in stored
    ensures Aligned(RemoveFirst(ids, x), stored - {x}, ApplyOp(replayed, Remove(x)))
  {
    var ids', stored', replayed' := RemoveFirst(ids, x), stored - {x}, ApplyOp(replayed, Remove(x));
    ApplyOpIsSound(replayed, Remove(x), x);
    forall id ensures id in replayed' <==> id in stored' {
      ApplyOpIsSound(replayed, Remove(x), id);
    }
    RemoveFirstCounts(ids, x);
    assert forall id :: id in ids' <==> multiset(ids')[id] > 0;
    assert forall id :: id in ids <==> multiset(ids)[id] > 0;
    assert OnlyAt(ids, stored, x, ids', stored');
    ChangeKeepsAligned(ids, stored, replayed, x, ids', stored', replayed');
  }

  lemma StalePopKeepsAligned(ids: seq<TaskId>, stored: set<TaskId>, replayed: seq<TaskId>)
    requires Aligned(ids, stored, replayed) && ids != [] && ids[0] !in stored
    ensures Aligned(ids[1..], stored, replayed)
  {
    var x := ids[0];
    RemoveFirstCounts(ids, x);
    assert RemoveFirst(ids, x) == ids[1..];
    assert forall id :: id in ids[1..] <==> multiset(ids[1..])[id] > 0;
    assert forall id :: id in ids <==> multiset(ids)[id] > 0;
    assert OnlyAt(ids, stored, x, ids[1..], stored);
    ChangeKeepsAligned(ids, stored, replayed, x, ids[1..], stored, replayed);
  }

  // ---------- runs ----------

  ghost predicate FifoAligned(q: QueueState) {
    q.policy.Order? && Aligned(q.policy.ids, q.storage.Keys, ReplayedIds(q.log))
  }

  lemma EnqueueStep(q: QueueState, t: Task, now: Time)
    requires HeapShape(q.policy) && FifoAligned(q)
    ensures FifoAligned(QueueStep(q, Enqueue(t), now).0)
  {
    EnqueueKeepsAligned(q.policy.ids, q.storage.Keys, ReplayedIds(q.log), t.id);
    ReplaySnoc(q.log, Event(now, TaskQueued(t.id)));
    assert q.storage[t.id := t].Keys == q.storage.Keys + {t.id};
    hide HeapShape, ReplayedIds, Aligned, Full, ApplyOp;
  }

  /** A stored id leaves the order, the storage and the replayed list. */
  lemma LossKeepsAligned(q: QueueState, next: QueueState, id: TaskId, e: Event)
    requires FifoAligned(q) && id in q.storage && QueueOp(e.fact) == Remove(id)
    requires next.policy == Order(RemoveFirst(q.policy.ids, id))
    requires next.storage == q.storage - {id} && next.log == q.log + [e]
    ensures FifoAligned(next)
  {
    hide Aligned, ReplayedIds, QueueOp, ApplyOp, RemoveFirst;
    RemoveKeepsAligned(q.policy.ids, q.storage.Keys, ReplayedIds(q.log), id);
    ReplaySnoc(q.log, e);
    assert (q.storage - {id}).Keys == q.storage.Keys - {id};
  }

  lemma DequeueStep(q: QueueState, now: Time)
    requires HeapShape(q.policy) && FifoAligned(q)
    ensures FifoAligned(QueueStep(q, Dequeue, now).0)
  {
    var ids := q.policy.ids;
    var next := QueueStep(q, Dequeue, now).0;
    if ids != [] && ids[0] in q.storage {
      assert RemoveFirst(ids, ids[0]) == ids[1..];
      assert next.policy == Order(ids[1..]) && next.storage == q.storage - {ids[0]};
      assert next.log == q.log + [Event(now, TaskDequeued(ids[0]))];
      hide *;
      LossKeepsAligned(q, next, ids[0], Event(now, TaskDequeued(ids[0])));
    } else if ids != [] {
      StalePopKeepsAligned(ids, q.storage.Keys, ReplayedIds(q.log));
      hide Aligned, ReplayedIds;
    }
  }

  lemma CancelStep(q: QueueState, id: TaskId, now: Time)
    requires HeapShape(q.policy) && FifoAligned(q)
    ensures FifoAligned(QueueStep(q, Cancel(id), now).0)
  {
    if id in q.storage {
      StoredHasEntry(q.policy.ids, q.storage.Keys, ReplayedIds(q.log), id);
      var next := QueueStep(q, Cancel(id), now).0;
      hide HeapShape, ReplayedIds, Aligned, RemoveFirst;
      LossKeepsAligned(q, next, id, Event(now, TaskCancelled(id)));
    }
  }

  lemma StepKeepsAligned(q: QueueState, c: Call)
    requires HeapShape(q.policy) && FifoAligned(q)
    ensures FifoAligned(QueueStep(q, c.op, c.now).0)
  {
    match c.op {
      case Enqueue(t) => EnqueueStep(q, t, c.now);
      case Dequeue => DequeueStep(q, c.now);
      case Peek =>
      case Cancel(id) => CancelStep(q, id, c.now);
    }
    hide Aligned, ReplayedIds;
  }

  lemma StoredHasEntry(ids: seq<TaskId>, stored: set<TaskId>, replayed: seq<TaskId>, id: TaskId)
    requires Aligned(ids, stored, replayed) && id in stored
    ensures id in ids
  {
  }

  lemma {:induction false} RunKeepsAligned(q: QueueState, calls: seq<Call>)
    requires Empty(q) && q.policy.Order?
    ensures HeapShape(q.policy) && FifoAligned(After(q, calls))
  {
    hide QueueStep;
    if calls != [] {
      RunKeepsAligned(q, calls[..|calls| - 1]);
      StepKeepsAligned(After(q, calls[..|calls| - 1]), calls[|calls| - 1]);
    }
  }

  lemma SameSizeSame(a: multiset<TaskId>, b: multiset<TaskId>)
    requires a <= b && |a| == |b|
    ensures a == b
  {
    assert b == a + (b - a);
    assert |b - a| == 0;
  }

  lemma NoSurplusIsOrder(ids: seq<TaskId>, stored: set<TaskId>, replayed: seq<TaskId>)
    requires Aligned(ids, stored, replayed) && |ids| == |stored|
    ensures ids == replayed
  {
    assert forall id :: id in ids <==> multiset(ids)[id] > 0;
    assert |multiset(stored)| == |stored| && |multiset(ids)| == |ids|;
    SameSizeSame(multiset(stored), multiset(ids));
    assert forall id :: Sole(ids, stored, id);
    SelectAll(ids, id => Sole(ids, stored, id));
    SelectAll(replayed, id => Sole(ids, stored, id));
  }

  /**
    After any run from a new FIFO queue the replayed list is the policy's order exactly when the order holds no
    more entries than there are stored tasks.
   */
  lemma ReplayIsFifoOrderIff(q: QueueState, calls: seq<Call>)
    requires Empty(q) && q.policy.Order?
    ensures HeapShape(q.policy)
    ensures var live := After(q, calls);
      && live.policy.Order?
      && (live.policy.ids == ReplayedIds(live.log) <==> |live.policy.ids| == |live.storage|)
  {
    RunKeepsAligned(q, calls);
    var live := After(q, calls);
    var replayed := ReplayedIds(live.log);
    NoDupCardinality(replayed);
    assert Elems(replayed) == live.storage.Keys;
    assert |live.storage.Keys| == |live.storage|;
    if |live.policy.ids| == |live.storage| {
      NoSurplusIsOrder(live.policy.ids, live.storage.Keys, replayed);
    }
  }
}
