/**
  When a delayed task comes out, in terms of additions and polls alone: a poll releases a task once for every
  addition of it that fell due after all earlier polls and no later than now.
 */
module DelayedRelease {
  import opened Wrappers
  import opened EntryHeap
  import opened EventReplay
  import opened Delayed
  import opened Retry
  import opened SchedulerModel
  import opened SchedulerEffects

  const NEW_TIMER := Timer({}, 0)

  /** The task's copy goes into the heap with the `k`-th operation, for some time to come. */
  predicate Delays(ops: seq<TimerOp>, x: TaskId, k: int) {
    0 <= k < |ops| && ops[k].Add? && ops[k].task == x && ops[k].delay > 0.0
  }

  function DueTime(op: TimerOp): real
    requires op.Add?
  {
    op.at + op.delay
  }

  predicate PolledBy(ops: seq<TimerOp>, time: real) {
    exists j :: 0 <= j < |ops| && ops[j].PollAt? && ops[j].at >= time
  }

  /** The additions of the task that fell due since the polls so far. */
  function FallenDue(ops: seq<TimerOp>, x: TaskId, now: real): set<int> {
    set k | 0 <= k < |ops| && Delays(ops, x, k) && DueTime(ops[k]) <= now && !PolledBy(ops, DueTime(ops[k]))
  }

  /** How many copies of the task a poll at `now` releases after these operations on a new tracker. */
  ghost function Copies(ops: seq<TimerOp>, x: TaskId, now: real): nat {
    multiset(Items(Released(TimerRun(NEW_TIMER, ops).heap, now)))[x]
  }

  // ---------- entries and additions ----------

  /** Due no later than `now`, and later than `after`. */
  predicate Between(after: Option<real>, due: real, now: real) {
    due <= now && (after.Some? ==> due > after.value)
  }

  ghost function OfTask(h: Timers, x: TaskId, after: Option<real>, now: real): Timers {
    set e | e in h && e.item == x && e.key.At? && Between(after, e.key.value, now)
  }

  predicate Counts(op: TimerOp, x: TaskId, after: Option<real>, now: real) {
    op.Add? && op.task == x && op.delay > 0.0 && Between(after, DueTime(op), now)
  }

  function Additions(ops: seq<TimerOp>, x: TaskId, after: Option<real>, now: real): set<int> {
    set k | 0 <= k < |ops| && Counts(ops[k], x, after, now)
  }

  lemma AdditionsGrow(front: seq<TimerOp>, op: TimerOp, x: TaskId, after: Option<real>, now: real)
    ensures |Additions(front + [op], x, after, now)| ==
      |Additions(front, x, after, now)| + if Counts(op, x, after, now) then 1 else 0
  {
    var ops, n := front + [op], |front|;
    hide Counts;
    if Counts(op, x, after, now) {
      assert Additions(ops, x, after, now) == Additions(front, x, after, now) + {n};
    } else {
      assert Additions(ops, x, after, now) == Additions(front, x, after, now);
    }
  }

  lemma EntriesGrow(all: Timers, t: Timer, op: TimerOp, x: TaskId, after: Option<real>, now: real)
    requires Shaped(Timer(all, t.counter))
    ensures |OfTask(all + NewEntries(t, op), x, after, now)| ==
      |OfTask(all, x, after, now)| + if Counts(op, x, after, now) then 1 else 0
  {
    var added := NewEntries(t, op);
    hide Between;
    if Counts(op, x, after, now) {
      var e := Entry(At(op.at + op.delay), t.counter, op.task);
      assert added == {e} && e !in all;
      assert OfTask(all + added, x, after, now) == OfTask(all, x, after, now) + {e};
    } else {
      assert OfTask(all + added, x, after, now) == OfTask(all, x, after, now);
    }
  }

  lemma {:induction false} EntriesAreAdditions(ops: seq<TimerOp>, x: TaskId, after: Option<real>, now: real)
    ensures |OfTask(Everything(NEW_TIMER, ops), x, after, now)| == |Additions(ops, x, after, now)|
  {
    if ops == [] {
      assert OfTask({}, x, after, now) == {} && Additions([], x, after, now) == {};
    } else {
      var front, op := ops[..|ops| - 1], ops[|ops| - 1];
      assert ops == front + [op];
      EntriesAreAdditions(front, x, after, now);
      EverythingIsNumbered(NEW_TIMER, front);
      OneMoreOp(NEW_TIMER, front, op);
      hide OfTask, Additions, Counts, Everything, TimerRun, Shaped;
      AdditionsGrow(front, op, x, after, now);
      EntriesGrow(Everything(NEW_TIMER, front), TimerRun(NEW_TIMER, front), op, x, after, now);
    }
  }

  // ---------- counting what comes out ----------

  ghost function Named(h: Timers, x: TaskId): Timers {
    set e | e in h && e.item == x
  }

  lemma {:induction false} SortedCount(h: Timers, x: TaskId)
    requires Numbered(h)
    ensures multiset(Items(Sorted(h)))[x] == |Named(h, x)|
    decreases |h|
  {
    if h == {} {
      assert Named(h, x) == {};
    } else {
      var e := Least(h);
      SortedCount(h - {e}, x);
      SortedUnfolds(h);
      assert Items(Sorted(h)) == [e.item] + Items(Sorted(h - {e}));
      if e.item == x {
        assert Named(h, x) == Named(h - {e}, x) + {e};
      } else {
        assert Named(h, x) == Named(h - {e}, x);
      }
    }
  }

  lemma {:induction false} LastPollIsLatest(ops: seq<TimerOp>, time: real)
    requires Ascending(ops)
    ensures PolledBy(ops, time) <==> LastPoll(ops).Some? && LastPoll(ops).value >= time
  {
    if ops != [] {
      var front, op := ops[..|ops| - 1], ops[|ops| - 1];
      LastPollIsLatest(front, time);
      if PolledBy(front, time) {
        var j :| 0 <= j < |front| && front[j].PollAt? && front[j].at >= time;
        assert ops[j] == front[j];
      }
      if PolledBy(ops, time) && !op.PollAt? {
        var j :| 0 <= j < |ops| && ops[j].PollAt? && ops[j].at >= time;
        assert front[j] == ops[j];
      }
    }
  }

  lemma DueSincePoll(all: Timers, poll: Option<real>, x: TaskId, now: real)
    ensures Named(Due(all - DueBy(all, poll), now), x) == OfTask(all, x, poll, now)
  {
  }

  lemma FallenDueIsAdded(ops: seq<TimerOp>, x: TaskId, now: real)
    requires Ascending(ops)
    ensures FallenDue(ops, x, now) == Additions(ops, x, LastPoll(ops), now)
  {
    forall k | 0 <= k < |ops| && Delays(ops, x, k)
      ensures PolledBy(ops, DueTime(ops[k])) <==> LastPoll(ops).Some? && LastPoll(ops).value >= DueTime(ops[k])
    {
      LastPollIsLatest(ops, DueTime(ops[k]));
    }
    hide PolledBy, LastPoll, Ascending;
  }

  /** A poll releases one copy for each addition that fell due since the polls before it. */
  lemma PollReleasesFallenDue(ops: seq<TimerOp>, x: TaskId, now: real)
    requires Ascending(ops)
    ensures Copies(ops, x, now) == |FallenDue(ops, x, now)|
  {
    PollingRateIsInvisible(NEW_TIMER, ops);
    var all, poll, heap := Everything(NEW_TIMER, ops), LastPoll(ops), TimerRun(NEW_TIMER, ops).heap;
    assert heap == all - DueBy(all, poll) && Numbered(heap) && Numbered(Due(heap, now));
    assert Copies(ops, x, now) == multiset(Items(Sorted(Due(heap, now))))[x];
    hide *;
    SortedCount(Due(heap, now), x);
    DueSincePoll(all, poll, x, now);
    EntriesAreAdditions(ops, x, poll, now);
    FallenDueIsAdded(ops, x, now);
  }

  /** A task added once comes out with the first poll at or after its due time, and with no other. */
  lemma FirstDuePollReleases(ops: seq<TimerOp>, x: TaskId, k: int, now: real)
    requires Ascending(ops) && Delays(ops, x, k) && forall i :: Delays(ops, x, i) ==> i == k
    ensures Copies(ops, x, now) ==
      if now >= ops[k].at + ops[k].delay && !PolledBy(ops, ops[k].at + ops[k].delay) then 1 else 0
  {
    PollReleasesFallenDue(ops, x, now);
    assert FallenDue(ops, x, now) == if k in FallenDue(ops, x, now) then {k} else {};
  }

  /**
    A crash that is granted a retry asks the tracker to hold the copy back by the initial delay times the factor
    to the power of the retries before; added at time `at`, it comes out with the first poll that much later.
   */
  lemma RetryFallsDue(s: System, w: WorkerId, error: Failure, delay: real, ops: seq<TimerOp>, k: int, now: real)
    requires w in s.running && s.running[w].task in s.tasks && Grants(s.tasks[s.running[w].task], error)
    requires var work := s.tasks[s.running[w].task];
      work.retryCount >= 0 && delay == work.policy.value.initial * Pow(work.policy.value.factor, work.retryCount)
    requires delay > 0.0 && Ascending(ops) && 0 <= k < |ops| && ops[k] == Add(s.running[w].task, delay, ops[k].at)
    requires forall i :: Delays(ops, s.running[w].task, i) ==> i == k
    ensures Next(s, Crash(w, error)).waits == s.waits + [Wait(s.running[w].task, delay, true)]
    ensures Copies(ops, s.running[w].task, now) ==
      if now >= ops[k].at + delay && !PolledBy(ops, ops[k].at + delay) then 1 else 0
  {
    assert delay == BackOff(s.tasks[s.running[w].task].policy.value, s.tasks[s.running[w].task].retryCount);
    hide Next, Grants, Pow, BackOff, Copies, PolledBy, Ascending, NoRoomFor;
    FirstDuePollReleases(ops, s.running[w].task, k, now);
    hide Delays;
    CrashIsHandled(s, w, error);
    hide SameCopies;
  }
}
