/**
  Recovery from a snapshot replays the events around the snapshot's timestamp a second time. This
  module says exactly what that changes compared with replaying everything from the start.
 */
module ReplayOverlap {
  import opened Wrappers
  import opened OrderedReplay
  import opened EventReplay

  // ---------- a log as one patch per task ----------

  /** First `p`, then `q`. */
  function ThenTask(p: TaskPatch, q: TaskPatch): TaskPatch {
    if q.Replace? then q
    else if p.Replace? then Replace(AdjustRecord(q, p.record))
    else Adjust(Later(q.status, p.status), Later(q.startedAt, p.startedAt), Later(q.completedAt, p.completedAt),
                Later(q.error, p.error), Later(q.retries, p.retries))
  }

  function TaskPatchAt(e: Event, t: TaskId): TaskPatch {
    if TouchedTask(e.fact) == Some(t) then TaskChange(e) else NO_TASK_CHANGE
  }

  function TaskPatchOf(events: seq<Event>, t: TaskId): TaskPatch {
    if events == [] then NO_TASK_CHANGE
    else ThenTask(TaskPatchOf(events[..|events| - 1], t), TaskPatchAt(events[|events| - 1], t))
  }

  lemma ApplyPatchesTask(s: RuntimeState, e: Event, t: TaskId)
    ensures Lookup(Apply(s, e).tasks, t) == PatchTask(TaskPatchAt(e, t), Lookup(s.tasks, t))
  {
  }

  lemma ThenTaskIsSequence(p: TaskPatch, q: TaskPatch, x: Option<TaskExecution>)
    ensures PatchTask(ThenTask(p, q), x) == PatchTask(q, PatchTask(p, x))
  {
  }

  lemma {:induction false} FoldPatchesTask(events: seq<Event>, s: RuntimeState, t: TaskId)
    ensures Lookup(Fold(events, s).tasks, t) == PatchTask(TaskPatchOf(events, t), Lookup(s.tasks, t))
  {
    if events != [] {
      var front, e := events[..|events| - 1], events[|events| - 1];
      FoldPatchesTask(front, s, t);
      hide Apply, PatchTask, ThenTask, TaskPatchAt;
      ApplyPatchesTask(Fold(front, s), e, t);
      ThenTaskIsSequence(TaskPatchOf(front, t), TaskPatchAt(e, t), Lookup(s.tasks, t));
    } else {
      assert PatchTask(NO_TASK_CHANGE, Lookup(s.tasks, t)) == Lookup(s.tasks, t);
    }
  }

  /** Assigning constants to fields twice is assigning them once. */
  lemma TaskPatchIsIdempotent(p: TaskPatch, current: Option<TaskExecution>)
    ensures PatchTask(p, PatchTask(p, current)) == PatchTask(p, current)
  {
  }

  // ---------- a log as one patch per worker ----------

  function ThenWorker(p: WorkerPatch, q: WorkerPatch): WorkerPatch {
    if q.Restart? then q
    else if p.Restart? then
      Restart(p.record.(
        state := Or(q.state, p.record.state), heartbeat := Or(q.heartbeat, p.record.heartbeat),
        failures := p.record.failures + q.moreFailures))
    else Update(Later(q.state, p.state), Later(q.heartbeat, p.heartbeat), p.moreFailures + q.moreFailures)
  }

  function WorkerPatchAt(e: Event, w: WorkerId): WorkerPatch {
    if TouchedWorker(e.fact) == Some(w) then WorkerChange(e) else NO_WORKER_CHANGE
  }

  function WorkerPatchOf(events: seq<Event>, w: WorkerId): WorkerPatch {
    if events == [] then NO_WORKER_CHANGE
    else ThenWorker(WorkerPatchOf(events[..|events| - 1], w), WorkerPatchAt(events[|events| - 1], w))
  }

  lemma ApplyPatchesWorker(s: RuntimeState, e: Event, w: WorkerId)
    ensures Lookup(Apply(s, e).workers, w) == PatchWorker(WorkerPatchAt(e, w), Lookup(s.workers, w))
  {
  }

  lemma ThenWorkerIsSequence(p: WorkerPatch, q: WorkerPatch, x: Option<WorkerSnapshot>)
    ensures PatchWorker(ThenWorker(p, q), x) == PatchWorker(q, PatchWorker(p, x))
  {
  }

  lemma {:induction false} FoldPatchesWorker(events: seq<Event>, s: RuntimeState, w: WorkerId)
    ensures Lookup(Fold(events, s).workers, w) == PatchWorker(WorkerPatchOf(events, w), Lookup(s.workers, w))
  {
    if events != [] {
      var front, e := events[..|events| - 1], events[|events| - 1];
      FoldPatchesWorker(front, s, w);
      hide Apply, PatchWorker, ThenWorker, WorkerPatchAt;
      ApplyPatchesWorker(Fold(front, s), e, w);
      ThenWorkerIsSequence(WorkerPatchOf(front, w), WorkerPatchAt(e, w), Lookup(s.workers, w));
    } else {
      assert PatchWorker(NO_WORKER_CHANGE, Lookup(s.workers, w)) == Lookup(s.workers, w);
    }
  }

  ghost predicate Starts(events: seq<Event>, w: WorkerId) {
    exists e :: e in events && e.fact == WorkerStarted(w)
  }

  ghost predicate Fails(events: seq<Event>, w: WorkerId) {
    exists e :: e in events && e.fact.WorkerFailed? && e.fact.worker == w
  }

  lemma ShapeSnoc(front: seq<Event>, e: Event, w: WorkerId)
    ensures Starts(front + [e], w) <==> Starts(front, w) || e.fact == WorkerStarted(w)
    ensures Fails(front + [e], w) <==> Fails(front, w) || (e.fact.WorkerFailed? && e.fact.worker == w)
  {
    assert e in front + [e];
    assert forall x :: x in front + [e] <==> x in front || x == e;
  }

  lemma OneEventShape(e: Event, w: WorkerId)
    ensures WorkerPatchAt(e, w).Restart? <==> e.fact == WorkerStarted(w)
    ensures !WorkerPatchAt(e, w).Restart? ==>
      (WorkerPatchAt(e, w).moreFailures > 0 <==> e.fact.WorkerFailed? && e.fact.worker == w)
  {
  }

  lemma {:induction false} WorkerPatchShape(events: seq<Event>, w: WorkerId)
    ensures WorkerPatchOf(events, w).Restart? <==> Starts(events, w)
    ensures !Starts(events, w) ==> (WorkerPatchOf(events, w).moreFailures > 0 <==> Fails(events, w))
  {
    if events != [] {
      var front, e := events[..|events| - 1], events[|events| - 1];
      WorkerPatchShape(front, w);
      assert events == front + [e];
      ShapeSnoc(front, e, w);
      OneEventShape(e, w);
      hide Starts, Fails, WorkerPatchAt;
    }
  }

  /** Two snapshots of a worker that differ at most in the failure count. */
  predicate SameButFailures(a: Option<WorkerSnapshot>, b: Option<WorkerSnapshot>) {
    if a.Some? && b.Some? then a.value.(failures := b.value.failures) == b.value else a == b
  }

  /** `overlap` applied twice and then `rest`, against `overlap` applied once and then `rest`. */
  lemma WorkerOverlap(overlap: WorkerPatch, rest: WorkerPatch, x: Option<WorkerSnapshot>)
    ensures var once := PatchWorker(overlap, x); var twice := PatchWorker(overlap, once);
      && SameButFailures(PatchWorker(rest, twice), PatchWorker(rest, once))
      && (PatchWorker(rest, twice) == PatchWorker(rest, once) <==>
            x.None? || overlap.Restart? || rest.Restart? || overlap.moreFailures == 0)
  {
  }

  // ---------- the lists, the timeouts and the flag ----------

  function QueueOps(events: seq<Event>): (r: seq<ListOp<TaskId>>)
    ensures |r| == |events|
  {
    seq(|events|, i requires 0 <= i < |events| => QueueOp(events[i].fact))
  }

  function DelayOps(events: seq<Event>): (r: seq<ListOp<TaskId>>)
    ensures |r| == |events|
  {
    seq(|events|, i requires 0 <= i < |events| => DelayOp(events[i].fact))
  }

  lemma {:induction false} FoldReplaysLists(events: seq<Event>, s: RuntimeState)
    ensures Fold(events, s).queue.queuedIds == Replay(QueueOps(events), s.queue.queuedIds)
    ensures Fold(events, s).scheduler.delayedIds == Replay(DelayOps(events), s.scheduler.delayedIds)
  {
    if events != [] {
      var front := events[..|events| - 1];
      FoldReplaysLists(front, s);
      assert QueueOps(events)[..|events| - 1] == QueueOps(front);
      assert DelayOps(events)[..|events| - 1] == DelayOps(front);
    }
  }

  /** The last value a log sets, if any. */
  function LastTimeout(events: seq<Event>, t: TaskId): Option<real> {
    if events == [] then None
    else
      var f := events[|events| - 1].fact;
      if f.TimeoutTriggered? && f.task == t then Some(f.timeout) else LastTimeout(events[..|events| - 1], t)
  }

  function LastFlag(events: seq<Event>): Option<bool> {
    if events == [] then None
    else
      var f := events[|events| - 1].fact;
      if f.SchedulerStarted? then Some(true)
      else if f.SchedulerStopped? then Some(false)
      else LastFlag(events[..|events| - 1])
  }

  lemma {:induction false} FoldSetsScheduler(events: seq<Event>, s: RuntimeState, t: TaskId)
    ensures Lookup(Fold(events, s).scheduler.activeTimeouts, t)
      == Later(LastTimeout(events, t), Lookup(s.scheduler.activeTimeouts, t))
    ensures Fold(events, s).scheduler.started == Or(LastFlag(events), s.scheduler.started)
  {
    if events != [] {
      FoldSetsScheduler(events[..|events| - 1], s, t);
    }
  }

  lemma {:induction false} FoldLeaves(events: seq<Event>, s: RuntimeState)
    ensures var r := Fold(events, s);
      && r.timestamp == s.timestamp && r.scheduler.uptime == s.scheduler.uptime
      && r.queue.capacity == s.queue.capacity && r.queue.policyType == s.queue.policyType
  {
    if events != [] {
      FoldLeaves(events[..|events| - 1], s);
    }
  }

  lemma SameLookups<K(!new), V>(a: map<K, V>, b: map<K, V>)
    requires forall k :: Lookup(a, k) == Lookup(b, k)
    ensures a == b
  {
    forall k ensures k in a <==> k in b {
      assert Lookup(a, k) == Lookup(b, k);
    }
    forall k | k in a ensures a[k] == b[k] {
      assert Lookup(a, k) == Lookup(b, k);
    }
  }

  // ---------- recovery against replay from the start ----------

  /** The snapshot: the state after the events before and inside the overlap. */
  ghost function Snapshot(before: seq<Event>, overlap: seq<Event>, base: RuntimeState): RuntimeState {
    Fold(before + overlap, base)
  }

  /** Snapshot recovery replays the overlap again, and then the rest. */
  ghost function Recovered(before: seq<Event>, overlap: seq<Event>, rest: seq<Event>, base: RuntimeState): RuntimeState {
    Fold(overlap + rest, Snapshot(before, overlap, base))
  }

  ghost function Genesis(before: seq<Event>, overlap: seq<Event>, rest: seq<Event>, base: RuntimeState): RuntimeState {
    Fold(before + overlap + rest, base)
  }

  /** Equal in all parts that absorb an overlap. */
  ghost predicate Agree(r: RuntimeState, g: RuntimeState) {
    && r.tasks == g.tasks
    && r.scheduler.activeTimeouts == g.scheduler.activeTimeouts && r.scheduler.started == g.scheduler.started
    && (forall t :: t in r.queue.queuedIds <==> t in g.queue.queuedIds)
    && (forall t :: t in r.scheduler.delayedIds <==> t in g.scheduler.delayedIds)
    && r.queue.size == g.queue.size
    && (forall w :: SameButFailures(Lookup(r.workers, w), Lookup(g.workers, w)))
  }

  lemma RecoverySplits(before: seq<Event>, overlap: seq<Event>, rest: seq<Event>, base: RuntimeState)
    ensures var x := Fold(before, base); var once := Fold(overlap, x);
      && Snapshot(before, overlap, base) == once
      && Recovered(before, overlap, rest, base) == Fold(rest, Fold(overlap, once))
      && Genesis(before, overlap, rest, base) == Fold(rest, once)
  {
    FoldConcat(before, overlap, base);
    FoldConcat(before + overlap, rest, base);
    FoldConcat(overlap, rest, Snapshot(before, overlap, base));
  }

  lemma TasksAbsorbOverlap(overlap: seq<Event>, rest: seq<Event>, x: RuntimeState)
    ensures Fold(rest, Fold(overlap, Fold(overlap, x))).tasks == Fold(rest, Fold(overlap, x)).tasks
    ensures Fold(rest, Fold(overlap, Fold(overlap, x))).scheduler.activeTimeouts
      == Fold(rest, Fold(overlap, x)).scheduler.activeTimeouts
    ensures Fold(rest, Fold(overlap, Fold(overlap, x))).scheduler.started == Fold(rest, Fold(overlap, x)).scheduler.started
  {
    var once := Fold(overlap, x);
    var twice := Fold(overlap, once);
    forall t ensures Lookup(Fold(rest, twice).tasks, t) == Lookup(Fold(rest, once).tasks, t) {
      FoldPatchesTask(overlap, x, t);
      FoldPatchesTask(overlap, once, t);
      FoldPatchesTask(rest, once, t);
      FoldPatchesTask(rest, twice, t);
      TaskPatchIsIdempotent(TaskPatchOf(overlap, t), Lookup(x.tasks, t));
    }
    SameLookups(Fold(rest, twice).tasks, Fold(rest, once).tasks);
    forall t
      ensures Lookup(Fold(rest, twice).scheduler.activeTimeouts, t) == Lookup(Fold(rest, once).scheduler.activeTimeouts, t)
      ensures Fold(rest, twice).scheduler.started == Fold(rest, once).scheduler.started
    {
      FoldSetsScheduler(overlap, x, t);
      FoldSetsScheduler(overlap, once, t);
      FoldSetsScheduler(rest, once, t);
      FoldSetsScheduler(rest, twice, t);
    }
    SameLookups(Fold(rest, twice).scheduler.activeTimeouts, Fold(rest, once).scheduler.activeTimeouts);
    FoldSetsScheduler(overlap, x, "");
    FoldSetsScheduler(overlap, once, "");
    FoldSetsScheduler(rest, once, "");
    FoldSetsScheduler(rest, twice, "");
  }

  /** The ids the overlap takes off a list stand behind the others in what the rest leaves alone. */
  ghost predicate OrderSurvives(overlap: seq<ListOp<TaskId>>, rest: seq<ListOp<TaskId>>, ids: seq<TaskId>) {
    RemovedLast(overlap, Kept(rest, ids))
  }

  lemma OpsConcat(a: seq<Event>, b: seq<Event>)
    ensures QueueOps(a + b) == QueueOps(a) + QueueOps(b) && DelayOps(a + b) == DelayOps(a) + DelayOps(b)
  {
  }

  /** Both id lists keep their members and lengths; their order survives exactly under `OrderSurvives`. */
  lemma ListsAbsorbOverlap(overlap: seq<Event>, rest: seq<Event>, x: RuntimeState)
    requires ValidState(x)
    ensures var once := Fold(overlap, x); var r := Fold(overlap + rest, once); var g := Fold(rest, once);
      && (forall t :: t in r.queue.queuedIds <==> t in g.queue.queuedIds)
      && (forall t :: t in r.scheduler.delayedIds <==> t in g.scheduler.delayedIds)
      && |r.queue.queuedIds| == |g.queue.queuedIds|
      && (r.queue.queuedIds == g.queue.queuedIds <==>
            OrderSurvives(QueueOps(overlap), QueueOps(rest), once.queue.queuedIds))
      && (r.scheduler.delayedIds == g.scheduler.delayedIds <==>
            OrderSurvives(DelayOps(overlap), DelayOps(rest), once.scheduler.delayedIds))
  {
    var once := Fold(overlap, x);
    FoldReplaysLists(overlap, x);
    FoldReplaysLists(overlap + rest, once);
    FoldReplaysLists(rest, once);
    OpsConcat(overlap, rest);
    hide Fold, QueueOps, DelayOps, Replay;
    OverlapThenRest(QueueOps(overlap), QueueOps(rest), x.queue.queuedIds);
    OverlapThenRest(DelayOps(overlap), DelayOps(rest), x.scheduler.delayedIds);
  }

  /** The worker's failures are counted twice unless it is unknown, restarts, or never fails in the overlap. */
  ghost predicate FailuresSurvive(
    overlap: seq<Event>, rest: seq<Event>, known: map<WorkerId, WorkerSnapshot>, w: WorkerId)
  {
    w !in known || Starts(overlap, w) || Starts(rest, w) || !Fails(overlap, w)
  }

  lemma LookupFinds<K, V>(m: map<K, V>, k: K)
    ensures Lookup(m, k).None? <==> k !in m
  {
  }

  lemma WorkersAbsorbOverlap(overlap: seq<Event>, rest: seq<Event>, x: RuntimeState, w: WorkerId)
    ensures var once := Fold(overlap, x); var r := Fold(rest, Fold(overlap, once)); var g := Fold(rest, once);
      && SameButFailures(Lookup(r.workers, w), Lookup(g.workers, w))
      && (Lookup(r.workers, w) == Lookup(g.workers, w) <==> FailuresSurvive(overlap, rest, x.workers, w))
  {
    hide Fold, PatchWorker, WorkerPatchOf, Starts, Fails, SameButFailures, Lookup;
    LookupFinds(x.workers, w);
    var once := Fold(overlap, x);
    FoldPatchesWorker(overlap, x, w);
    FoldPatchesWorker(overlap, once, w);
    FoldPatchesWorker(rest, once, w);
    FoldPatchesWorker(rest, Fold(overlap, once), w);
    WorkerOverlap(WorkerPatchOf(overlap, w), WorkerPatchOf(rest, w), Lookup(x.workers, w));
    WorkerPatchShape(overlap, w);
    WorkerPatchShape(rest, w);
  }

  /**
    Absorption: whatever the log and wherever the snapshot was taken, replaying an overlap gives the
    same tasks, timeouts and scheduler flag, the same queued and delayed ids, the same queue size, and
    the same workers except for their failure counts.
   */
  lemma RecoveryAbsorbsOverlap(before: seq<Event>, overlap: seq<Event>, rest: seq<Event>, base: RuntimeState)
    requires ValidState(base)
    ensures Agree(Recovered(before, overlap, rest, base), Genesis(before, overlap, rest, base))
  {
    var x := Fold(before, base);
    var once := Fold(overlap, x);
    RecoverySplits(before, overlap, rest, base);
    FoldConcat(overlap, rest, once);
    ReplayKeepsValid(before, base);
    ReplayKeepsValid(overlap, x);
    ReplayKeepsValid(overlap + rest, once);
    ReplayKeepsValid(rest, once);
    hide Fold, ValidState, FailuresSurvive, OrderSurvives, Recovered, Genesis, Snapshot;
    SizeIsExact(Fold(overlap + rest, once));
    SizeIsExact(Fold(rest, once));
    TasksAbsorbOverlap(overlap, rest, x);
    ListsAbsorbOverlap(overlap, rest, x);
    forall w {
      WorkersAbsorbOverlap(overlap, rest, x, w);
    }
  }

  lemma SizeIsExact(s: RuntimeState)
    requires ValidState(s)
    ensures s.queue.size == |s.queue.queuedIds|
  {
  }

  /**
    Exactness: snapshot recovery yields the very state of a replay from the start if and only if the
    order of both id lists survives and no known worker's failures are counted twice.
   */
  lemma RecoveryIsExactIff(before: seq<Event>, overlap: seq<Event>, rest: seq<Event>, base: RuntimeState)
    requires ValidState(base)
    ensures Recovered(before, overlap, rest, base) == Genesis(before, overlap, rest, base) <==>
      && OrderSurvives(QueueOps(overlap), QueueOps(rest), Snapshot(before, overlap, base).queue.queuedIds)
      && OrderSurvives(DelayOps(overlap), DelayOps(rest), Snapshot(before, overlap, base).scheduler.delayedIds)
      && (forall w :: FailuresSurvive(overlap, rest, Fold(before, base).workers, w))
  {
    var x := Fold(before, base);
    var once := Fold(overlap, x);
    RecoverySplits(before, overlap, rest, base);
    FoldConcat(overlap, rest, once);
    ReplayKeepsValid(before, base);
    RecoveryAbsorbsOverlap(before, overlap, rest, base);
    ListsAbsorbOverlap(overlap, rest, x);
    FoldLeaves(overlap + rest, once);
    FoldLeaves(rest, once);
    var r, g := Recovered(before, overlap, rest, base), Genesis(before, overlap, rest, base);
    hide Fold, ValidState, FailuresSurvive, OrderSurvives, Recovered, Genesis, Snapshot, SameButFailures;
    forall w ensures Lookup(r.workers, w) == Lookup(g.workers, w) <==> FailuresSurvive(overlap, rest, x.workers, w) {
      WorkersAbsorbOverlap(overlap, rest, x, w);
    }
    if forall w :: FailuresSurvive(overlap, rest, x.workers, w) {
      SameLookups(r.workers, g.workers);
    }
  }

  // ---------- what the overlap can disturb ----------

  /** a is queued, dequeued, and queued again before c. */
  function Requeue(a: TaskId, c: TaskId, time: Time): seq<Event> {
    [Event(time, TaskQueued(a)), Event(time, TaskDequeued(a)), Event(time, TaskQueued(a)), Event(time, TaskQueued(c))]
  }

  lemma RequeueTwice(a: TaskId, c: TaskId)
    requires a != c
    ensures var ops := [Insert(a), Remove(a), Insert(a), Insert(c)];
      Replay(ops, []) == [a, c] && Replay(ops, [a, c]) == [c, a]
  {
    var ops := [Insert(a), Remove(a), Insert(a), Insert(c)];
    assert ops[..3] == [Insert(a), Remove(a), Insert(a)];
    assert ops[..3][..2] == [Insert(a), Remove(a)];
    assert ops[..3][..2][..1] == [Insert(a)];
    assert ops[..3][..2][..1][..0] == [];
    forall s: seq<TaskId> ensures Replay(ops[..3][..2][..1][..0], s) == s {
    }
    assert Replay(ops[..3][..2][..1], []) == [a];
    assert Replay(ops[..3][..2], []) == [];
    assert Replay(ops[..3], []) == [a];
    assert Replay(ops[..3][..2][..1], [a, c]) == [a, c];
    assert Replay(ops[..3][..2], [a, c]) == [c];
    assert Replay(ops[..3], [a, c]) == [c, a];
  }

  /** A boundary that re-queues a before c is recovered with a behind c, from any state with nothing queued. */
  lemma OverlapCanReorder(a: TaskId, c: TaskId, time: Time, base: RuntimeState)
    requires a != c && base.queue.queuedIds == []
    ensures Genesis([], Requeue(a, c, time), [], base).queue.queuedIds == [a, c]
    ensures Recovered([], Requeue(a, c, time), [], base).queue.queuedIds == [c, a]
  {
    var log := Requeue(a, c, time);
    RequeueTwice(a, c);
    assert QueueOps(log) == [Insert(a), Remove(a), Insert(a), Insert(c)];
    assert [] + log == log && log + [] == log;
    FoldReplaysLists(log, base);
    FoldReplaysLists(log, Fold(log, base));
    hide Replay, Fold;
  }

  /** A failure in the overlap of a worker known before it is counted a second time. */
  lemma OverlapCanRecount(s: RuntimeState, w: WorkerId, time: Time, error: string)
    requires w in s.workers
    ensures var overlap := [Event(time, WorkerFailed(w, error))];
      && w in Fold(overlap, s).workers && w in Fold(overlap, Fold(overlap, s)).workers
      && Fold(overlap, Fold(overlap, s)).workers[w].failures == Fold(overlap, s).workers[w].failures + 1
  {
    var overlap := [Event(time, WorkerFailed(w, error))];
    assert overlap[..0] == [];
    assert Fold(overlap, s) == Apply(s, overlap[0]);
    assert Fold(overlap, Fold(overlap, s)) == Apply(Fold(overlap, s), overlap[0]);
  }
}
