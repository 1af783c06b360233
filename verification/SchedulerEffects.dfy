/**
  What a failure and a pass of the time-out monitor do, told by the policy's and the task's own numbers: which
  executions a pass times out, where a retried copy goes, and how long it is held back over a whole run.
 */
module SchedulerEffects {
  import opened EventReplay
  import opened Retry
  import opened SchedulerModel
  import opened SchedulerLaws
  import opened SchedulerBounds
  import opened SchedulerRounds

  // ---------- where a retried copy goes ----------

  /** The policy admits one more retry after this error. */
  predicate Grants(work: Work, error: Failure) {
    && work.policy.Some? && work.retryCount < work.policy.value.maxRetries
    && (work.policy.value.retryable.None? || work.policy.value.retryable.value * error.classes != {}
        || work.policy.value.retryable.value == {})
  }

  /** The seconds before the next retry: the initial delay, scaled once for each retry so far. */
  function BackOff(p: RetryPolicy, retries: int): real {
    if retries < 0 then 0.0 else p.initial * Pow(p.factor, retries)
  }

  /** No copy of any task was made, moved or dropped. */
  predicate SameCopies(s: System, r: System) {
    && r.queued == s.queued && r.delayed == s.delayed && r.waits == s.waits
    && r.held == s.held && r.handoff == s.handoff && r.ledger.lost == s.ledger.lost
  }

  predicate NoRoomFor(s: System, id: TaskId) {
    id in s.queued || (s.capacity.Some? && |s.queued| >= s.capacity.value)
  }

  /** One failure of `id`, from `s` to `r`: its record, and what became of the copy a retry makes. */
  predicate FailureHandled(s: System, r: System, id: TaskId, error: Failure)
    requires id in s.tasks
  {
    var work := s.tasks[id];
    if !Grants(work, error) then r.tasks == s.tasks[id := work.(status := Failed)] && SameCopies(s, r)
    else
      var delay := BackOff(work.policy.value, work.retryCount);
      && r.tasks == s.tasks[id := work.(status := Pending, retryCount := work.retryCount + 1)]
      && r.held == s.held && r.handoff == s.handoff
      && (delay > 0.0 <==> r.delayed == s.delayed + multiset{id})
      && (delay > 0.0 <==> r.waits == s.waits + [Wait(id, delay, true)])
      && (delay > 0.0 ==> r.queued == s.queued && r.ledger.lost == s.ledger.lost)
      && (delay <= 0.0 ==> r.delayed == s.delayed && r.waits == s.waits)
      && (delay <= 0.0 && NoRoomFor(s, id) ==> r.queued == s.queued && r.ledger.lost == s.ledger.lost + multiset{id})
      && (delay <= 0.0 && !NoRoomFor(s, id) ==> r.queued == s.queued + {id} && r.ledger.lost == s.ledger.lost)
  }

  lemma GrantsIff(s: System, id: TaskId, error: Failure)
    requires id in s.tasks
    ensures RetriesNow(s, id, error) <==> Grants(s.tasks[id], error)
  {
    var p := s.tasks[id].policy;
    if p.Some? && p.value.retryable.Some? {
      var named := p.value.retryable.value;
      assert named * error.classes != {} <==> exists c :: c in named && c in error.classes by {
        if named * error.classes != {} {
          var c :| c in named * error.classes;
        }
        if c :| c in named && c in error.classes {
          assert c in named * error.classes;
        }
      }
    }
  }

  /** A time-out is retried by a policy with retries left that filters nothing or names one of its classes. */
  lemma TimeOutIsRetriedIff(s: System, id: TaskId)
    requires id in s.tasks
    ensures RetriesNow(s, id, TIMEOUT_ERROR) <==>
      var work := s.tasks[id];
      && work.policy.Some? && work.retryCount < work.policy.value.maxRetries
      && (work.policy.value.retryable.None? || work.policy.value.retryable.value == {}
          || "TimeoutError" in work.policy.value.retryable.value || "OSError" in work.policy.value.retryable.value
          || "Exception" in work.policy.value.retryable.value || "BaseException" in work.policy.value.retryable.value
          || "object" in work.policy.value.retryable.value)
  {
    GrantsIff(s, id, TIMEOUT_ERROR);
  }

  lemma GrowsByOne(m: multiset<TaskId>, id: TaskId)
    ensures m + multiset{id} != m
  {
    assert (m + multiset{id})[id] == m[id] + 1;
  }

  /** The scheduler's own reaction to a failure: one more retry and one more copy, or nothing. */
  lemma RetryIsPlaced(s: System, id: TaskId, error: Failure)
    requires id in s.tasks
    ensures var r := HandleFailure(s, id, error);
      if Grants(s.tasks[id], error) then FailureHandled(s, r, id, error) else r == s
  {
    GrantsIff(s, id, error);
    if Grants(s.tasks[id], error) {
      var reset := PrepareRetry(s, id);
      var work := s.tasks[id];
      assert reset.tasks[id] == work.(status := Pending, retryCount := work.retryCount + 1);
      var delay := BackOff(work.policy.value, work.retryCount);
      assert CalculateDelay(work.policy.value, work.retryCount + 1) == delay;
      hide Grants, RetriesNow, Pow, CalculateDelay, BackOff;
      GrowsByOne(s.delayed, id);
      assert s.waits + [Wait(id, delay, true)] != s.waits;
    } else {
      hide RetriesNow;
    }
  }

  lemma FailureIsHandled(s: System, id: TaskId, error: Failure)
    requires id in s.tasks
    ensures FailureHandled(s, FailWith(s, id, error), id, error)
  {
    var failed := SetStatus(s.(failed := s.failed + 1), id, Failed);
    assert failed.tasks == s.tasks[id := s.tasks[id].(status := Failed)] && SameCopies(s, failed);
    assert Grants(failed.tasks[id], error) == Grants(s.tasks[id], error);
    hide Grants, BackOff, HandleFailure, FailWith, SetStatus, NoRoomFor;
    FailWithIs(s, id, error);
    RetryIsPlaced(failed, id, error);
    if Grants(s.tasks[id], error) {
      MarkedIsHandled(s, failed, HandleFailure(failed, id, error), id, error);
    }
  }

  /** A mark of failure set first makes no difference to a task that is retried. */
  lemma MarkedIsHandled(s: System, failed: System, r: System, id: TaskId, error: Failure)
    requires id in s.tasks && failed == SetStatus(s.(failed := s.failed + 1), id, Failed)
    requires Grants(s.tasks[id], error) && Grants(failed.tasks[id], error) && FailureHandled(failed, r, id, error)
    ensures FailureHandled(s, r, id, error)
  {
    hide Grants, BackOff, NoRoomFor;
    var w := s.tasks[id].(status := Pending, retryCount := s.tasks[id].retryCount + 1);
    assert failed.tasks[id := w] == s.tasks[id := w];
    assert NoRoomFor(failed, id) == NoRoomFor(s, id) by {
      RoomIsSame(s, failed, id);
    }
  }

  lemma RoomIsSame(s: System, r: System, id: TaskId)
    requires r.queued == s.queued && r.capacity == s.capacity
    ensures NoRoomFor(r, id) == NoRoomFor(s, id)
  {
  }

  /** An execution that raises is handled as its task's policy says, and its worker is free again. */
  lemma CrashIsHandled(s: System, w: WorkerId, error: Failure)
    requires w in s.running && s.running[w].task in s.tasks
    ensures var r := Next(s, Crash(w, error));
      && r == Free(FailWith(s, s.running[w].task, error), w)
      && FailureHandled(s, r, s.running[w].task, error)
      && r.running == s.running - {w} && r.failed == s.failed + 1 && r.completed == s.completed
  {
    var id := s.running[w].task;
    FailureIsHandled(s, id, error);
    FailureCountsOne(s, id, error);
    hide FailWith, Grants, Pow;
  }

  // ---------- one time-out ----------

  /** The monitor sees the execution, and it has run for longer than its task allows. */
  predicate Overdue(s: System, v: WorkerId, elapsed: real) {
    && v in s.running && s.running[v].armed && s.running[v].task in s.tasks
    && s.tasks[s.running[v].task].timeLimit.Some? && elapsed > s.tasks[s.running[v].task].timeLimit.value
  }

  lemma TimeOutIsHandled(s: System, v: WorkerId, elapsed: real)
    ensures var r := Next(s, TimeOut(v, elapsed));
      if !Overdue(s, v, elapsed) then r == s
      else
        var id := s.running[v].task;
        && FailureHandled(s, r, id, TIMEOUT_ERROR)
        && r.running == s.running[v := Execution(id, false)] && r.failed == s.failed + 1
        && r.ledger.timedOut == s.ledger.timedOut + multiset{id}
  {
    if Overdue(s, v, elapsed) {
      var id := s.running[v].task;
      var marked := s.(running := s.running[v := Execution(id, false)],
                       ledger := s.ledger.(timedOut := s.ledger.timedOut + multiset{id}));
      FailureIsHandled(marked, id, TIMEOUT_ERROR);
      FailureCountsOne(marked, id, TIMEOUT_ERROR);
      hide FailWith, Grants, Pow;
    }
  }

  // ---------- a pass of the monitor ----------

  /** A pass over the workers the monitor found active. */
  function TimeOuts(active: seq<WorkerId>, elapsed: WorkerId -> real): (r: seq<Step>)
    ensures |r| == |active|
  {
    seq(|active|, i requires 0 <= i < |active| => TimeOut(active[i], elapsed(active[i])))
  }

  lemma PassGrows(s: System, active: seq<WorkerId>, elapsed: WorkerId -> real, i: nat)
    requires i < |active|
    ensures RunSteps(s, TimeOuts(active[..i + 1], elapsed)) ==
      Next(RunSteps(s, TimeOuts(active[..i], elapsed)), TimeOut(active[i], elapsed(active[i])))
  {
    assert TimeOuts(active[..i + 1], elapsed)
      == TimeOuts(active[..i], elapsed) + [TimeOut(active[i], elapsed(active[i]))];
    OneMore(s, TimeOuts(active[..i], elapsed), TimeOut(active[i], elapsed(active[i])));
  }

  /** The workers whose executions are overdue when the pass begins. */
  function Late(s: System, active: seq<WorkerId>, elapsed: WorkerId -> real): set<WorkerId> {
    set v | v in active && Overdue(s, v, elapsed(v))
  }

  function LateOn(s: System, late: set<WorkerId>, x: TaskId): set<WorkerId> {
    set v | v in late && v in s.running && s.running[v].task == x
  }

  /** Exactly the executions in `late` lost their armed flag. */
  ghost predicate DisarmedExactly(s: System, r: System, late: set<WorkerId>) {
    && r.running.Keys == s.running.Keys
    && forall v :: v in s.running ==> r.running[v] == s.running[v].(armed := s.running[v].armed && v !in late)
  }

  ghost predicate CountedExactly(s: System, r: System, late: set<WorkerId>) {
    && r.failed == s.failed + |late|
    && forall x :: r.ledger.timedOut[x] == s.ledger.timedOut[x] + |LateOn(s, late, x)|
  }

  /** Limits stay, and so do the tasks of which no execution is in `late`. */
  ghost predicate OthersKept(s: System, r: System, late: set<WorkerId>) {
    && r.tasks.Keys == s.tasks.Keys
    && (forall id :: id in s.tasks ==> r.tasks[id].timeLimit == s.tasks[id].timeLimit)
    && (forall id :: id in s.tasks && LateOn(s, late, id) == {} ==> r.tasks[id] == s.tasks[id])
  }

  /** Between `s` and `r` exactly the executions on the workers in `late` were timed out. */
  ghost predicate TimedOutExactly(s: System, r: System, late: set<WorkerId>) {
    DisarmedExactly(s, r, late) && CountedExactly(s, r, late) && OthersKept(s, r, late)
  }

  lemma NoneIsLate(s: System)
    ensures TimedOutExactly(s, s, {})
  {
    assert forall x :: LateOn(s, {}, x) == {};
  }

  lemma OneMoreLate(s: System, late: set<WorkerId>, v: WorkerId, x: TaskId)
    requires v in s.running && v !in late
    ensures LateOn(s, late + {v}, x) == if s.running[v].task == x then LateOn(s, late, x) + {v} else LateOn(s, late, x)
    ensures v !in LateOn(s, late, x) && |late + {v}| == |late| + 1
  {
  }

  /** Timing others out makes nothing overdue, and of those not yet timed out it changes nothing. */
  lemma StillOverdue(s: System, r: System, late: set<WorkerId>, v: WorkerId, elapsed: real)
    requires TimedOutExactly(s, r, late)
    ensures Overdue(r, v, elapsed) <==> Overdue(s, v, elapsed) && v !in late
  {
  }

  lemma OwnRecord(s: System, r: System, id: TaskId, error: Failure) returns (w: Work)
    requires id in s.tasks && FailureHandled(s, r, id, error)
    ensures r.tasks == s.tasks[id := w] && w.timeLimit == s.tasks[id].timeLimit
  {
    w := r.tasks[id];
    hide Grants, BackOff, NoRoomFor, SameCopies;
  }

  lemma TimeOutOneMore(s: System, before: System, late: set<WorkerId>, v: WorkerId, elapsed: real)
    requires TimedOutExactly(s, before, late) && Overdue(before, v, elapsed)
    ensures TimedOutExactly(s, Next(before, TimeOut(v, elapsed)), late + {v})
  {
    var r := Next(before, TimeOut(v, elapsed));
    var id := before.running[v].task;
    StillOverdue(s, before, late, v, elapsed);
    TimeOutIsHandled(before, v, elapsed);
    var w := OwnRecord(before, r, id, TIMEOUT_ERROR);
    assert id in before.tasks && v in s.running && v !in late && s.running[v].task == id;
    hide Next, FailureHandled, Overdue, CountedExactly, OthersKept;
    OneMoreCounted(s, before, r, late, v);
    OneMoreRecord(s, before, r, late, v, w);
  }

  lemma OneMoreCounted(s: System, before: System, r: System, late: set<WorkerId>, v: WorkerId)
    requires CountedExactly(s, before, late) && v in s.running && v !in late
    requires r.failed == before.failed + 1
    requires r.ledger.timedOut == before.ledger.timedOut + multiset{s.running[v].task}
    ensures CountedExactly(s, r, late + {v})
  {
    hide LateOn;
    forall x ensures r.ledger.timedOut[x] == s.ledger.timedOut[x] + |LateOn(s, late + {v}, x)| {
      OneMoreLate(s, late, v, x);
    }
    OneMoreLate(s, late, v, s.running[v].task);
  }

  lemma OneMoreRecord(s: System, before: System, r: System, late: set<WorkerId>, v: WorkerId, w: Work)
    requires OthersKept(s, before, late) && v in s.running && v !in late && s.running[v].task in before.tasks
    requires r.tasks == before.tasks[s.running[v].task := w]
    requires w.timeLimit == before.tasks[s.running[v].task].timeLimit
    ensures OthersKept(s, r, late + {v})
  {
    hide LateOn;
    forall x | x in s.tasks && LateOn(s, late + {v}, x) == {} ensures r.tasks[x] == s.tasks[x] {
      OneMoreLate(s, late, v, x);
    }
  }

  /**
    A pass times out exactly the armed executions of known tasks that had run for longer than their limit when
    it began. It disarms these and counts a failure for each; all other executions, and the tasks that have
    none of these, stay as they were.
   */
  lemma {:induction false} PassTimesOutExactly(s: System, active: seq<WorkerId>, elapsed: WorkerId -> real)
    ensures TimedOutExactly(s, RunSteps(s, TimeOuts(active, elapsed)), Late(s, active, elapsed))
  {
    hide TimedOutExactly, Overdue, Next;
    if active == [] {
      NoneIsLate(s);
      assert Late(s, active, elapsed) == {};
    } else {
      var n := |active| - 1;
      var front, v := active[..n], active[n];
      assert active[..n + 1] == active && active == front + [v];
      PassTimesOutExactly(s, front, elapsed);
      PassGrows(s, active, elapsed, n);
      var before, late := RunSteps(s, TimeOuts(front, elapsed)), Late(s, front, elapsed);
      StillOverdue(s, before, late, v, elapsed(v));
      TimeOutIsHandled(before, v, elapsed(v));
      hide FailureHandled;
      if Overdue(before, v, elapsed(v)) {
        TimeOutOneMore(s, before, late, v, elapsed(v));
        assert Late(s, active, elapsed) == late + {v};
      } else {
        assert Late(s, active, elapsed) == late;
      }
    }
  }

  // ---------- what a task waits for its retries over a run ----------

  function RetryWaits(waits: seq<Wait>, x: TaskId): seq<real> {
    if waits == [] then []
    else
      var last := waits[|waits| - 1];
      RetryWaits(waits[..|waits| - 1], x) + if last.task == x && last.retry then [last.delay] else []
  }

  /** The positive ones among the back-offs before the retries numbered from `from` to just before `to`. */
  function BackOffs(p: RetryPolicy, from: int, to: int): seq<real>
    decreases to - from
  {
    if to <= from then []
    else BackOffs(p, from, to - 1) + if BackOff(p, to - 1) > 0.0 then [BackOff(p, to - 1)] else []
  }

  lemma OneMoreWait(waits: seq<Wait>, wait: Wait, x: TaskId)
    ensures RetryWaits(waits + [wait], x) ==
      RetryWaits(waits, x) + if wait.task == x && wait.retry then [wait.delay] else []
  {
    assert (waits + [wait])[..|waits + [wait]| - 1] == waits;
  }

  /** What one step adds to a task's retries and waits. */
  predicate WaitsOnce(s: System, r: System, x: TaskId)
    requires x in s.tasks && x in r.tasks
  {
    || (r.tasks[x].retryCount == s.tasks[x].retryCount && RetryWaits(r.waits, x) == RetryWaits(s.waits, x))
    || (&& s.tasks[x].policy.Some? && r.tasks[x].retryCount == s.tasks[x].retryCount + 1
        && var delay := BackOff(s.tasks[x].policy.value, s.tasks[x].retryCount);
           RetryWaits(r.waits, x) == RetryWaits(s.waits, x) + if delay > 0.0 then [delay] else [])
  }

  lemma FailureWaitsOnce(s: System, r: System, id: TaskId, error: Failure, x: TaskId)
    requires id in s.tasks && x in s.tasks && FailureHandled(s, r, id, error)
    ensures x in r.tasks && WaitsOnce(s, r, x)
  {
    var work := s.tasks[id];
    assert Grants(work, error) ==> work.policy.Some?;
    hide Grants, BackOff, NoRoomFor, RetryWaits;
    if Grants(work, error) {
      var delay := BackOff(work.policy.value, work.retryCount);
      OneMoreWait(s.waits, Wait(id, delay, true), x);
      assert r.waits == if delay > 0.0 then s.waits + [Wait(id, delay, true)] else s.waits;
      assert r.tasks[x].retryCount == s.tasks[x].retryCount + if x == id then 1 else 0;
    } else {
      assert r.waits == s.waits && r.tasks[x].retryCount == s.tasks[x].retryCount;
    }
    hide FailureHandled;
    assert RetryWaits(s.waits, x) + [] == RetryWaits(s.waits, x);
  }

  lemma StepWaitsOnce(s: System, step: Step, x: TaskId)
    requires x in s.tasks
    ensures x in Next(s, step).tasks && WaitsOnce(s, Next(s, step), x)
  {
    hide RetryWaits, FailWith, Pow, RetriesNow;
    match step {
      case Submit(id, delay) => OneMoreWait(s.waits, Wait(id, delay, false), x);
      case Take(id) =>
      case Deliver =>
      case Start(w) =>
      case Finish(w) =>
      case Crash(w, error) =>
        if Busy(s, w) {
          CrashIsHandled(s, w, error);
          hide Next;
          FailureWaitsOnce(s, Next(s, step), s.running[w].task, error, x);
        }
      case TimeOut(w, elapsed) =>
        TimeOutIsHandled(s, w, elapsed);
        hide Next;
        if Overdue(s, w, elapsed) {
          FailureWaitsOnce(s, Next(s, step), s.running[w].task, TIMEOUT_ERROR, x);
        }
      case Mature(id) =>
      case StopPool =>
    }
  }

  lemma OneMoreBackOff(p: RetryPolicy, from: int, to: int)
    requires from <= to
    ensures BackOffs(p, from, to + 1) == BackOffs(p, from, to) + if BackOff(p, to) > 0.0 then [BackOff(p, to)] else []
  {
  }

  /**
    Over every run, what a task was held back for its retries are the positive ones among the back-offs of its
    policy, one for each retry counted, in order.
   */
  lemma {:induction false} RetriesWaitGeometrically(s: System, steps: seq<Step>, x: TaskId)
    requires Untouched(s) && x in s.tasks && s.tasks[x].policy.Some?
    ensures var r := RunSteps(s, steps);
      && x in r.tasks && r.tasks[x].policy == s.tasks[x].policy && r.tasks[x].retryCount >= s.tasks[x].retryCount
      && RetryWaits(r.waits, x) == BackOffs(s.tasks[x].policy.value, s.tasks[x].retryCount, r.tasks[x].retryCount)
  {
    if steps == [] {
      assert RunSteps(s, steps) == s && s.waits == [];
    } else {
      var front, step := steps[..|steps| - 1], steps[|steps| - 1];
      RetriesWaitGeometrically(s, front, x);
      var before, r := RunSteps(s, front), RunSteps(s, steps);
      assert r == Next(before, step);
      hide *;
      KeepsPolicy(before, step, x);
      StepWaitsOnce(before, step, x);
      WaitsAppend(before, r, x, s.tasks[x].retryCount);
    }
  }

  lemma KeepsPolicy(s: System, step: Step, x: TaskId)
    requires x in s.tasks
    ensures x in Next(s, step).tasks && Next(s, step).tasks[x].policy == s.tasks[x].policy
  {
    StepEvolves(s, step);
    hide Next, Cap;
  }

  lemma WaitsAppend(s: System, r: System, x: TaskId, from: int)
    requires x in s.tasks && x in r.tasks && WaitsOnce(s, r, x)
    requires s.tasks[x].policy.Some? && r.tasks[x].policy == s.tasks[x].policy && s.tasks[x].retryCount >= from
    requires RetryWaits(s.waits, x) == BackOffs(s.tasks[x].policy.value, from, s.tasks[x].retryCount)
    ensures RetryWaits(r.waits, x) == BackOffs(r.tasks[x].policy.value, from, r.tasks[x].retryCount)
    ensures r.tasks[x].retryCount >= from
  {
    hide RetryWaits, BackOff, BackOffs;
    OneMoreBackOff(s.tasks[x].policy.value, from, s.tasks[x].retryCount);
  }

  function Sum(delays: seq<real>): real {
    if delays == [] then 0.0 else Sum(delays[..|delays| - 1]) + delays[|delays| - 1]
  }

  lemma OneMoreTerm(delays: seq<real>, delay: real)
    ensures Sum(delays + [delay]) == Sum(delays) + delay
  {
    assert (delays + [delay])[..|delays + [delay]| - 1] == delays;
  }

  /** No delay of the policy is negative. */
  ghost predicate NeverNegative(p: RetryPolicy) {
    forall j: nat :: p.initial * Pow(p.factor, j) >= 0.0
  }

  lemma LastBackOff(p: RetryPolicy, n: nat)
    requires NeverNegative(p) && n > 0
    ensures BackOff(p, n - 1) == CalculateDelay(p, n) && BackOff(p, n - 1) >= 0.0
  {
    assert p.initial * Pow(p.factor, n - 1) >= 0.0;
  }

  lemma {:induction false} BackOffsAddUp(p: RetryPolicy, from: nat, n: nat)
    requires NeverNegative(p)
    ensures Sum(BackOffs(p, from, from + n)) == TotalDelay(p, from, n)
  {
    if n > 0 {
      BackOffsAddUp(p, from, n - 1);
      var last := BackOff(p, from + n - 1);
      LastBackOff(p, from + n);
      hide Pow, BackOff, CalculateDelay, Sum, NeverNegative;
      OneMoreBackOff(p, from, from + n - 1);
      var earlier := BackOffs(p, from, from + n - 1);
      assert TotalDelay(p, from, n) == TotalDelay(p, from, n - 1) + last;
      hide BackOffs, TotalDelay;
      if last > 0.0 {
        OneMoreTerm(earlier, last);
      } else {
        assert earlier + [] == earlier;
      }
    }
  }

  /** So with a policy whose delays are not negative a task has waited for its retries their geometric sum. */
  lemma RetriesWaitInAll(s: System, steps: seq<Step>, x: TaskId)
    requires Untouched(s) && x in s.tasks && s.tasks[x].policy.Some? && s.tasks[x].retryCount >= 0
    requires NeverNegative(s.tasks[x].policy.value)
    ensures x in RunSteps(s, steps).tasks && RunSteps(s, steps).tasks[x].retryCount >= s.tasks[x].retryCount
    ensures var r := RunSteps(s, steps); var from := s.tasks[x].retryCount;
      Sum(RetryWaits(r.waits, x)) == TotalDelay(s.tasks[x].policy.value, from, r.tasks[x].retryCount - from)
  {
    RetriesWaitGeometrically(s, steps, x);
    var r := RunSteps(s, steps);
    var from := s.tasks[x].retryCount;
    hide *;
    BackOffsAddUp(s.tasks[x].policy.value, from, r.tasks[x].retryCount - from);
  }
}
