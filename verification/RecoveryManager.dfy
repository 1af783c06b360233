/**
  The append-only event store and the manager that rebuilds the runtime state from the latest snapshot
  or from the start of the log.
 */
module RecoveryManagement {
  import opened Wrappers
  import opened Sequences
  import opened EventReplay
  import opened OrderedReplay
  import opened ReplayOverlap

  datatype RecoveryPolicy = FromLatestSnapshot | FromGenesis

  datatype RecoveryReport = RecoveryReport(
    success: bool, policy: RecoveryPolicy, snapshotLoaded: bool, snapshotTimestamp: Option<Time>,
    eventsReplayed: nat, tasksRecovered: nat, workersRecovered: nat)

  const DEFAULT_LIMIT: nat := 100
  const GENESIS_LIMIT: nat := 100000

  /** At most `limit` rows, starting behind the first `offset`. */
  function Window(rows: seq<Event>, limit: nat, offset: nat): seq<Event> {
    if |rows| <= offset then []
    else if |rows| <= offset + limit then rows[offset..]
    else rows[offset..offset + limit]
  }

  /** The inclusive timestamp filter, in row order. */
  function Since(rows: seq<Event>, start: Time): seq<Event> {
    Select(rows, (e: Event) => e.timestamp >= start)
  }

  class EventStore {
    var rows: seq<Event>

    constructor ()
      ensures rows == []
    {
      rows := [];
    }

    method Append(e: Event)
      modifies this
      ensures rows == old(rows) + [e]
    {
      rows := rows + [e];
    }

    method AppendBatch(events: seq<Event>)
      modifies this
      ensures rows == old(rows) + events
    {
      for i := 0 to |events|
        invariant rows == old(rows) + events[..i]
      {
        rows := rows + [events[i]];
      }
    }

    function Stream(limit: nat, offset: nat): seq<Event>
      reads this
    {
      Window(rows, limit, offset)
    }

    function StreamFrom(start: Time, limit: nat, offset: nat): seq<Event>
      reads this
    {
      Window(Since(rows, start), limit, offset)
    }
  }

  /** The empty state that recovery from genesis starts with. */
  function EmptyState(now: Time): RuntimeState {
    RuntimeState(now, map[], map[],
      QueueSnapshot([], 0, None, "FIFO"), SchedulerSnapshot(false, 0.0, [], map[]))
  }

  class RecoveryManager {
    var snapshot: Option<RuntimeState>
    var events: EventStore?

    /** Whether this policy starts from a stored snapshot. */
    predicate UsesSnapshot(policy: RecoveryPolicy)
      reads this
    {
      policy == FromLatestSnapshot && snapshot.Some?
    }

    function Base(policy: RecoveryPolicy, now: Time): RuntimeState
      reads this
    {
      if UsesSnapshot(policy) then snapshot.value else EmptyState(now)
    }

    function ToReplay(policy: RecoveryPolicy): seq<Event>
      reads this, events
    {
      if events == null then []
      else if UsesSnapshot(policy) then events.StreamFrom(snapshot.value.timestamp, DEFAULT_LIMIT, 0)
      else events.Stream(GENESIS_LIMIT, 0)
    }

    /** Rebuilds the state. The two readings of the clock are the parameters. */
    method Recover(policy: RecoveryPolicy, startedAt: Time, finishedAt: Time)
      returns (state: RuntimeState, report: RecoveryReport)
      ensures state == Fold(ToReplay(policy), Base(policy, startedAt)).(timestamp := finishedAt)
      ensures report == RecoveryReport(true, policy, UsesSnapshot(policy),
        if UsesSnapshot(policy) then Some(snapshot.value.timestamp) else None,
        |ToReplay(policy)|, |state.tasks|, |state.workers|)
    {
      var base, snapshotTimestamp := EmptyState(startedAt), None;
      var snapshotLoaded := false;
      if policy == FromLatestSnapshot && snapshot.Some? {
        base, snapshotLoaded, snapshotTimestamp := snapshot.value, true, Some(snapshot.value.timestamp);
      }
      var toReplay: seq<Event> := [];
      if events != null {
        if snapshotLoaded {
          toReplay := events.StreamFrom(snapshotTimestamp.value, DEFAULT_LIMIT, 0);
        } else {
          toReplay := events.Stream(GENESIS_LIMIT, 0);
        }
      }
      state := ReplayEvents(base, toReplay);
      state := state.(timestamp := finishedAt);
      report := RecoveryReport(
        true, policy, snapshotLoaded, snapshotTimestamp, |toReplay|, |state.tasks|, |state.workers|);
    }
  }

  /** Sets some fields of a known task. */
  method UpdateTask(tasks: map<TaskId, TaskExecution>, t: TaskId, change: TaskPatch)
    returns (r: map<TaskId, TaskExecution>)
    requires change.Adjust?
    ensures r == Store(tasks, t, PatchTask(change, Lookup(tasks, t)))
  {
    r := tasks;
    if t in tasks {
      r := tasks[t := AdjustRecord(change, tasks[t])];
    }
  }

  method RemoveQueued(ids: seq<TaskId>, t: TaskId) returns (r: seq<TaskId>)
    ensures r == ApplyOp(ids, Remove(t))
  {
    r := ids;
    if t in ids {
      r := RemoveFirst(ids, t);
    }
  }

  lemma FoldOneMore(events: seq<Event>, i: nat, base: RuntimeState)
    requires i < |events|
    ensures Fold(events[..i + 1], base) == Apply(Fold(events[..i], base), events[i])
  {
    assert events[..i + 1][..i] == events[..i];
  }

  /** The event kinds that touch the task records and the queue. */
  method ReplayTaskEvent(e: Event, before: map<TaskId, TaskExecution>, ids: seq<TaskId>, oldSize: int)
    returns (tasks: map<TaskId, TaskExecution>, queued: seq<TaskId>, size: int)
    ensures tasks == ApplyToTasks(before, e)
    ensures queued == ApplyOp(ids, QueueOp(e.fact))
    ensures size == if QueueOp(e.fact) == Leave then oldSize else |queued|
  {
    tasks, queued, size := before, ids, oldSize;
    match e.fact {
      case TaskSubmitted(t, title, kind, metadata) =>
        tasks := tasks[t := TaskExecution(t, title, kind, Pending, e.timestamp, None, None, 0, metadata, None)];
      case TaskQueued(t) =>
        if t !in queued {
          queued := queued + [t];
        }
        size := |queued|;
        tasks := UpdateTask(tasks, t, Adjust(Some(Pending), None, None, None, None));
      case TaskDequeued(t) =>
        queued := RemoveQueued(queued, t);
        size := |queued|;
      case TaskStarted(t) =>
        tasks := UpdateTask(tasks, t, Adjust(Some(Running), Some(e.timestamp), None, None, None));
      case TaskCompleted(t) =>
        tasks := UpdateTask(tasks, t, Adjust(Some(Completed), None, Some(e.timestamp), None, None));
        queued := RemoveQueued(queued, t);
        size := |queued|;
      case TaskFailed(t, error) =>
        tasks := UpdateTask(tasks, t, Adjust(Some(Failed), None, Some(e.timestamp), Some(error), None));
        queued := RemoveQueued(queued, t);
        size := |queued|;
      case TaskCancelled(t) =>
        tasks := UpdateTask(tasks, t, Adjust(Some(Failed), None, Some(e.timestamp), Some("Task cancelled."), None));
        queued := RemoveQueued(queued, t);
        size := |queued|;
      case TaskTimedOut(t) =>
        tasks := UpdateTask(tasks, t, Adjust(Some(Failed), None, Some(e.timestamp), Some("Task timed out."), None));
        queued := RemoveQueued(queued, t);
        size := |queued|;
      case TaskRetried(t, count) =>
        tasks := UpdateTask(tasks, t, Adjust(Some(Pending), None, None, None, Some(count)));
      case _ =>
    }
  }

  /** The event kinds that touch the worker records. */
  method ReplayWorkerEvent(e: Event, before: map<WorkerId, WorkerSnapshot>)
    returns (workers: map<WorkerId, WorkerSnapshot>)
    ensures workers == ApplyToWorkers(before, e)
  {
    workers := before;
    match e.fact {
      case WorkerStarted(w) =>
        workers := workers[w := WorkerSnapshot(w, "idle", None, e.timestamp, 0, 0, e.timestamp)];
      case WorkerStopped(w) =>
        if w in workers {
          workers := workers[w := workers[w].(state := "stopped")];
        }
      case WorkerHeartbeat(w, time) =>
        if w in workers {
          workers := workers[w := workers[w].(heartbeat := time)];
        }
      case WorkerFailed(w, _) =>
        if w in workers {
          workers := workers[w := workers[w].(state := "failed", failures := workers[w].failures + 1)];
        }
      case WorkerRecovered(w) =>
        if w in workers {
          workers := workers[w := workers[w].(state := "idle")];
        }
      case _ =>
    }
  }

  method ReplaySchedulerEvent(f: Fact, wasStarted: bool, delayed: seq<TaskId>, timeouts: map<TaskId, real>)
    returns (started: bool, delayed': seq<TaskId>, timeouts': map<TaskId, real>)
    ensures forall s: SchedulerSnapshot ::
      s.started == wasStarted && s.delayedIds == delayed && s.activeTimeouts == timeouts ==>
        ApplyToScheduler(s, f) == s.(started := started, delayedIds := delayed', activeTimeouts := timeouts')
  {
    started, delayed', timeouts' := wasStarted, delayed, timeouts;
    match f {
      case SchedulerStarted =>
        started := true;
      case SchedulerStopped =>
        started := false;
      case RetryScheduled(t, _) =>
        if t !in delayed {
          delayed' := delayed + [t];
        }
      case TimeoutTriggered(t, seconds) =>
        timeouts' := timeouts[t := seconds];
      case DelayedTaskReleased(t) =>
        delayed' := RemoveQueued(delayed, t);
      case _ =>
    }
  }

  /** The replay loop: every event acts on local copies of the state's parts. */
  method ReplayEvents(base: RuntimeState, toReplay: seq<Event>) returns (state: RuntimeState)
    ensures state == Fold(toReplay, base)
  {
    var tasks, workers := base.tasks, base.workers;
    var queued, size := base.queue.queuedIds, base.queue.size;
    var started, delayed, timeouts := base.scheduler.started, base.scheduler.delayedIds, base.scheduler.activeTimeouts;
    ghost var s := base;
    for i := 0 to |toReplay|
      invariant s == Fold(toReplay[..i], base) && s.timestamp == base.timestamp
      invariant tasks == s.tasks && workers == s.workers
      invariant base.queue.(queuedIds := queued, size := size) == s.queue
      invariant base.scheduler.(started := started, delayedIds := delayed, activeTimeouts := timeouts) == s.scheduler
    {
      var e := toReplay[i];
      FoldOneMore(toReplay, i, base);
      hide Fold, ApplyToTasks, ApplyToWorkers, ApplyToScheduler, QueueOp;
      s := Apply(s, e);
      tasks, queued, size := ReplayTaskEvent(e, tasks, queued, size);
      workers := ReplayWorkerEvent(e, workers);
      started, delayed, timeouts := ReplaySchedulerEvent(e.fact, started, delayed, timeouts);
    }
    assert toReplay[..|toReplay|] == toReplay;
    state := base.(
      tasks := tasks, workers := workers,
      queue := base.queue.(queuedIds := queued, size := size),
      scheduler := base.scheduler.(started := started, delayedIds := delayed, activeTimeouts := timeouts));
  }

  // ---------- which rows snapshot recovery replays ----------

  /** The rows matching the snapshot's timestamp are those from position `j` on. */
  ghost predicate SplitAt(log: seq<Event>, start: Time, j: nat) {
    j <= |log| && forall i :: 0 <= i < |log| ==> (log[i].timestamp >= start <==> i >= j)
  }

  lemma {:induction false} SinceIsSuffix(log: seq<Event>, start: Time, j: nat)
    requires SplitAt(log, start, j)
    ensures Since(log, start) == log[j..]
  {
    if log != [] {
      var front := log[..|log| - 1];
      if j == |log| {
        SinceIsSuffix(front, start, j - 1);
      } else {
        SinceIsSuffix(front, start, j);
        assert log[j..] == front[j..] + [log[|log| - 1]];
      }
    }
  }

  /** What recovery from a snapshot of the first `k` rows replays, the log splitting at `j <= k`. */
  ghost function SnapshotReplay(log: seq<Event>, k: nat, start: Time): RuntimeState
    requires k <= |log|
  {
    Fold(Window(Since(log, start), DEFAULT_LIMIT, 0), Fold(log[..k], EmptyState(start)))
  }

  /**
    Recovery replays the boundary rows again, as far as the limit reaches. When it reaches past the snapshot,
    this is a replay with overlap, and rows beyond the limit are lost.
   */
  lemma SnapshotReplayIsOverlap(log: seq<Event>, j: nat, k: nat, start: Time, end: nat)
    requires SplitAt(log, start, j) && j <= k <= |log|
    requires end == if j + DEFAULT_LIMIT < |log| then j + DEFAULT_LIMIT else |log|
    ensures SnapshotReplay(log, k, start) == Fold(log[j..end], Fold(log[..k], EmptyState(start)))
    ensures k <= end ==>
      && SnapshotReplay(log, k, start) == Recovered(log[..j], log[j..k], log[k..end], EmptyState(start))
      && Genesis(log[..j], log[j..k], log[k..end], EmptyState(start)) == Fold(log[..end], EmptyState(start))
  {
    hide Fold;
    SinceIsSuffix(log, start, j);
    assert Window(log[j..], DEFAULT_LIMIT, 0) == log[j..end];
    assert log[..j] + log[j..k] == log[..k];
    if k <= end {
      assert log[j..k] + log[k..end] == log[j..end];
      assert log[..k] + log[k..end] == log[..end];
    }
  }

  /** With at most a hundred matching rows, the snapshot's replay and the whole log's are the two compared. */
  lemma WithinLimit(log: seq<Event>, j: nat, k: nat, start: Time)
    requires SplitAt(log, start, j) && j <= k <= |log| && |log| - j <= DEFAULT_LIMIT
    ensures SnapshotReplay(log, k, start) == Recovered(log[..j], log[j..k], log[k..], EmptyState(start))
    ensures Genesis(log[..j], log[j..k], log[k..], EmptyState(start)) == Fold(log, EmptyState(start))
    ensures Snapshot(log[..j], log[j..k], EmptyState(start)) == Fold(log[..k], EmptyState(start))
  {
    hide Fold, SnapshotReplay, Recovered, Genesis, Since, SplitAt;
    SnapshotReplayIsOverlap(log, j, k, start, |log|);
    assert log[k..|log|] == log[k..];
    assert log[..|log|] == log;
    assert log[..j] + log[j..k] == log[..k];
  }

  /** With at most a hundred matching rows, snapshot recovery agrees with the whole log's replay. */
  lemma SnapshotRecoveryAgrees(log: seq<Event>, j: nat, k: nat, start: Time)
    requires SplitAt(log, start, j) && j <= k <= |log| && |log| - j <= DEFAULT_LIMIT
    ensures Agree(SnapshotReplay(log, k, start), Fold(log, EmptyState(start)))
    ensures SnapshotReplay(log, k, start) == Fold(log, EmptyState(start)) <==>
      && OrderSurvives(QueueOps(log[j..k]), QueueOps(log[k..]), Fold(log[..k], EmptyState(start)).queue.queuedIds)
      && OrderSurvives(DelayOps(log[j..k]), DelayOps(log[k..]), Fold(log[..k], EmptyState(start)).scheduler.delayedIds)
      && (forall w :: FailuresSurvive(log[j..k], log[k..], Fold(log[..j], EmptyState(start)).workers, w))
  {
    assert ValidState(EmptyState(start));
    hide *;
    WithinLimit(log, j, k, start);
    RecoveryAbsorbsOverlap(log[..j], log[j..k], log[k..], EmptyState(start));
    RecoveryIsExactIff(log[..j], log[j..k], log[k..], EmptyState(start));
  }

  // ---------- the limits are exact ----------

  /** The scheduler starts again and again, and stops at last. */
  function StartedUntilTheEnd(n: nat, start: Time): (r: seq<Event>)
    ensures |r| == n
  {
    seq(n, i => Event(start, if i < n - 1 then SchedulerStarted else SchedulerStopped))
  }

  lemma FlagAfter(n: nat, start: Time, m: nat)
    requires 0 < m <= n
    ensures Fold(StartedUntilTheEnd(n, start)[..m], EmptyState(start)).scheduler.started == (m < n)
  {
    var log := StartedUntilTheEnd(n, start);
    FoldOneMore(log, m - 1, EmptyState(start));
    assert log[m - 1].fact == if m < n then SchedulerStarted else SchedulerStopped;
    hide Fold;
  }

  /** Recovery agrees with the whole log's replay on every log with `n` matching rows. */
  ghost predicate AlwaysAgrees(n: nat) {
    forall log, j: nat, k: nat, start :: SplitAt(log, start, j) && j <= k <= |log| && |log| - j == n ==>
      Agree(SnapshotReplay(log, k, start), Fold(log, EmptyState(start)))
  }

  /** One row more, and recovery can miss it: the scheduler stopped, but is recovered as started. */
  lemma BeyondTheLimit(n: nat, start: Time)
    requires n > DEFAULT_LIMIT
    ensures var log := StartedUntilTheEnd(n, start);
      SplitAt(log, start, 0) && !Agree(SnapshotReplay(log, 0, start), Fold(log, EmptyState(start)))
  {
    var log := StartedUntilTheEnd(n, start);
    SnapshotReplayIsOverlap(log, 0, 0, start, DEFAULT_LIMIT);
    FlagAfter(n, start, DEFAULT_LIMIT);
    FlagAfter(n, start, n);
    assert log[0..DEFAULT_LIMIT] == log[..DEFAULT_LIMIT] && log[..n] == log;
    assert Fold(log[..0], EmptyState(start)) == EmptyState(start);
    hide Fold, SnapshotReplay, StartedUntilTheEnd;
  }

  /** The default limit is safe for exactly the logs with at most that many matching rows. */
  lemma AgreesIffWithinLimit(n: nat)
    ensures AlwaysAgrees(n) <==> n <= 100
  {
    hide Agree, SnapshotReplay, Fold;
    if n <= DEFAULT_LIMIT {
      forall log, j: nat, k: nat, start | SplitAt(log, start, j) && j <= k <= |log| && |log| - j == n
        ensures Agree(SnapshotReplay(log, k, start), Fold(log, EmptyState(start)))
      {
        SnapshotRecoveryAgrees(log, j, k, start);
      }
    } else {
      BeyondTheLimit(n, 0);
    }
  }

  /** Recovery from the start of the log agrees with its replay on every log of `n` rows. */
  ghost predicate AlwaysComplete(n: nat) {
    forall log, now :: |log| == n ==> Fold(Window(log, GENESIS_LIMIT, 0), EmptyState(now)) == Fold(log, EmptyState(now))
  }

  lemma CompleteIffWithinLimit(n: nat)
    ensures AlwaysComplete(n) <==> n <= 100000
  {
    if n > GENESIS_LIMIT {
      var log := StartedUntilTheEnd(n, 0);
      FlagAfter(n, 0, GENESIS_LIMIT);
      FlagAfter(n, 0, n);
      assert Window(log, GENESIS_LIMIT, 0) == log[..GENESIS_LIMIT] && log[..n] == log;
      hide Fold, StartedUntilTheEnd;
      assert Fold(Window(log, GENESIS_LIMIT, 0), EmptyState(0)) != Fold(log, EmptyState(0));
    } else {
      forall log: seq<Event> | |log| == n ensures Window(log, GENESIS_LIMIT, 0) == log {
        assert log[0..] == log;
      }
      hide Fold;
    }
  }

  // ---------- what the manager returns ----------

  /** With the first `k` rows in the snapshot, the replay `Recover` performs is the one spoken of here. */
  lemma RecoverIsSnapshotReplay(m: RecoveryManager, k: nat, now: Time)
    requires m.events != null && k <= |m.events.rows| && m.snapshot.Some?
    requires m.snapshot.value == Fold(m.events.rows[..k], EmptyState(m.snapshot.value.timestamp))
    ensures Fold(m.ToReplay(FromLatestSnapshot), m.Base(FromLatestSnapshot, now))
      == SnapshotReplay(m.events.rows, k, m.snapshot.value.timestamp)
  {
  }

  /** Asked to start from a snapshot of its own log with few enough later rows, recovery returns the log's state. */
  lemma RecoverAgrees(m: RecoveryManager, j: nat, k: nat, now: Time)
    requires m.events != null && j <= k <= |m.events.rows| && m.snapshot.Some?
    requires m.snapshot.value == Fold(m.events.rows[..k], EmptyState(m.snapshot.value.timestamp))
    requires SplitAt(m.events.rows, m.snapshot.value.timestamp, j) && |m.events.rows| - j <= DEFAULT_LIMIT
    ensures Agree(Fold(m.ToReplay(FromLatestSnapshot), m.Base(FromLatestSnapshot, now)),
      Fold(m.events.rows, EmptyState(m.snapshot.value.timestamp)))
  {
    hide Agree, Fold, SnapshotReplay;
    RecoverIsSnapshotReplay(m, k, now);
    SnapshotRecoveryAgrees(m.events.rows, j, k, m.snapshot.value.timestamp);
  }

  /**
    Asked to start from genesis, or finding no snapshot, recovery returns the state of the whole log over a state
    that knows nothing, whatever snapshot there is; without an event store it returns what it started from.
   */
  lemma RecoverFromGenesis(m: RecoveryManager, policy: RecoveryPolicy, now: Time)
    ensures (policy.FromGenesis? || m.snapshot.None?) && m.events != null && |m.events.rows| <= 100000 ==>
      Fold(m.ToReplay(policy), m.Base(policy, now)) ==
        Fold(m.events.rows, RuntimeState(now, map[], map[], QueueSnapshot([], 0, None, "FIFO"),
          SchedulerSnapshot(false, 0.0, [], map[])))
    ensures m.events == null && policy.FromLatestSnapshot? && m.snapshot.Some? ==>
      Fold(m.ToReplay(policy), m.Base(policy, now)) == m.snapshot.value
    ensures m.events == null && (policy.FromGenesis? || m.snapshot.None?) ==>
      Fold(m.ToReplay(policy), m.Base(policy, now)) == EmptyState(now)
  {
    if m.events != null {
      assert m.events.rows[0..] == m.events.rows;
    }
  }
}
