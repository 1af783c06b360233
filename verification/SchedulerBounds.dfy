/**
  Bounds that follow from the conservation of copies: how often a task can run, when the bound is reached, when
  nothing is lost, what the pool's counters add up to, and what becomes of an execution that finishes late.
 */
module SchedulerBounds {
  import opened EventReplay
  import opened Retry
  import opened SchedulerModel
  import opened SchedulerLaws

  // ---------- the bound on executions ----------

  /** The highest retry count a task can reach. */
  function Cap(w: Work): int {
    if w.policy.Some? && w.policy.value.maxRetries > w.retryCount then w.policy.value.maxRetries else w.retryCount
  }

  /** Same policy and limit, and the same highest retry count. */
  predicate SameBounds(a: Work, b: Work) {
    b.policy == a.policy && b.timeLimit == a.timeLimit && Cap(b) == Cap(a)
  }

  ghost predicate Evolves(s: System, r: System) {
    r.tasks.Keys == s.tasks.Keys && forall id :: id in s.tasks ==> SameBounds(s.tasks[id], r.tasks[id])
  }

  /** A failed task's record: failed for good, or pending with one more retry, which its policy allowed. */
  lemma FailureRecord(s: System, id: TaskId, error: Failure)
    requires id in s.tasks
    ensures exists w :: SameBounds(s.tasks[id], w) && FailWith(s, id, error).tasks == s.tasks[id := w]
  {
    var settled := SetStatus(s.(failed := s.failed + 1), id, Failed);
    if RetriesNow(settled, id, error) {
      var w := s.tasks[id].(retryCount := s.tasks[id].retryCount + 1, status := Pending);
      assert PrepareRetry(settled, id).tasks == s.tasks[id := w];
      ArriveLeavesTasks(PrepareRetry(settled, id), id);
      assert SameBounds(s.tasks[id], w);
    } else {
      assert SameBounds(s.tasks[id], s.tasks[id].(status := Failed));
    }
    hide Arrive, Retryable, CalculateDelay, Cap;
  }

  lemma ArriveLeavesTasks(s: System, id: TaskId)
    ensures Arrive(s, id).tasks == s.tasks
  {
  }

  lemma FailureEvolves(s: System, id: TaskId, error: Failure)
    requires id in s.tasks
    ensures Evolves(s, FailWith(s, id, error))
  {
    FailureRecord(s, id, error);
    hide FailWith, Cap;
  }

  lemma AcceptLeavesTasks(s: System, id: TaskId, delay: real)
    ensures Accept(s, id, delay).tasks == s.tasks
  {
  }

  lemma StepEvolves(s: System, step: Step)
    ensures Evolves(s, Next(s, step))
  {
    hide FailWith, Accept, Arrive;
    if Enabled(s, step) {
      match step {
        case Submit(id, delay) => AcceptLeavesTasks(s, id, delay);
        case Take(id) =>
        case Deliver =>
        case Start(w) =>
        case Finish(w) =>
        case Crash(w, error) => FailureEvolves(s, s.running[w].task, error);
        case TimeOut(w, elapsed) =>
          var id := s.running[w].task;
          var marked := s.(running := s.running[w := Execution(id, false)],
                           ledger := s.ledger.(timedOut := s.ledger.timedOut + multiset{id}));
          FailureEvolves(marked, id, TIMEOUT_ERROR);
        case Mature(id) => ArriveLeavesTasks(s.(delayed := s.delayed - multiset{id}), id);
        case StopPool =>
      }
    }
  }

  lemma {:induction false} RunEvolves(s: System, steps: seq<Step>)
    ensures Evolves(s, RunSteps(s, steps))
  {
    if steps != [] {
      RunEvolves(s, steps[..|steps| - 1]);
      StepEvolves(RunSteps(s, steps[..|steps| - 1]), steps[|steps| - 1]);
    }
  }

  /** However often a task fails or times out, it starts at most once a submission plus once a retry allowed. */
  lemma ExecutionsAreBounded(s: System, steps: seq<Step>, x: TaskId)
    requires Untouched(s) && x in s.tasks
    ensures var r := RunSteps(s, steps);
      r.ledger.started[x] + Waiting(r, x) + r.ledger.lost[x]
        <= r.ledger.submitted[x] + (Cap(s.tasks[x]) - s.tasks[x].retryCount)
  {
    CopiesAreConserved(s, steps, x);
    RunEvolves(s, steps);
    var r := RunSteps(s, steps);
    assert r.tasks[x].retryCount <= Cap(r.tasks[x]) == Cap(s.tasks[x]);
  }

  // ---------- when nothing is lost ----------

  predicate Roomy(s: System) {
    s.capacity.None? && s.poolStarted
  }

  /** In a roomy system a copy is lost only by meeting another copy of its task in the queue. */
  lemma LossNeedsAnother(s: System, step: Step, x: TaskId)
    requires Roomy(s) && Next(s, step).ledger.lost[x] != s.ledger.lost[x]
    ensures x in s.queued
    ensures
      || s.delayed[x] >= 1
      || Next(s, step).ledger.submitted[x] == s.ledger.submitted[x] + 1
      || Next(s, step).ledger.timedOut[x] == s.ledger.timedOut[x] + 1
      || RunningOn(s, x) != {}
  {
    match step {
      case Submit(id, delay) =>
      case Take(id) =>
      case Deliver =>
      case Start(w) =>
      case Finish(w) =>
      case Crash(w, error) =>
        assert s.running[w].task == x;
        assert w in RunningOn(s, x);
      case TimeOut(w, elapsed) =>
        assert s.running[w].task == x;
        assert w in RunningOn(s, x);
      case Mature(id) =>
      case StopPool =>
    }
  }

  lemma StaysRoomy(s: System, step: Step)
    requires Roomy(s) && step != StopPool
    ensures Roomy(Next(s, step))
  {
  }

  /** A task submitted once that never times out has one copy at a time, so none of its copies is lost. */
  lemma {:induction false} NothingIsLost(s: System, steps: seq<Step>, x: TaskId)
    requires Untouched(s) && Roomy(s) && StopPool !in steps
    requires RunSteps(s, steps).ledger.submitted[x] <= 1 && RunSteps(s, steps).ledger.timedOut[x] == 0
    ensures Roomy(RunSteps(s, steps)) && RunSteps(s, steps).ledger.lost[x] == 0
    ensures Waiting(RunSteps(s, steps), x) + |RunningOn(RunSteps(s, steps), x)| <= 1
  {
    CopiesInFlight(s, steps, x);
    if steps != [] {
      var front, step := steps[..|steps| - 1], steps[|steps| - 1];
      var before := RunSteps(s, front);
      StepIsLawful(before, step, x);
      assert step in steps && StopPool !in front;
      NothingIsLost(s, front, x);
      StaysRoomy(before, step);
      OneCopyLosesNone(s, front, step, x);
    }
  }

  lemma OneCopyLosesNone(s: System, front: seq<Step>, step: Step, x: TaskId)
    requires Untouched(s) && Roomy(RunSteps(s, front))
    requires var r := Next(RunSteps(s, front), step); r.ledger.submitted[x] <= 1 && r.ledger.timedOut[x] == 0
    ensures Next(RunSteps(s, front), step).ledger.lost[x] == RunSteps(s, front).ledger.lost[x]
  {
    var before := RunSteps(s, front);
    if Next(before, step).ledger.lost[x] != before.ledger.lost[x] {
      LossNeedsAnother(before, step, x);
      CopiesInFlight(s, front, x);
      StepIsLawful(before, step, x);
      hide Next, RunSteps;
    }
  }

  /** So such a task runs exactly as often as it was submitted and retried, less the copy still waiting. */
  lemma EveryRetryRuns(s: System, steps: seq<Step>, x: TaskId)
    requires Untouched(s) && Roomy(s) && StopPool !in steps
    requires RunSteps(s, steps).ledger.submitted[x] == 1 && RunSteps(s, steps).ledger.timedOut[x] == 0
    ensures var r := RunSteps(s, steps);
      r.ledger.started[x] + Waiting(r, x) == 1 + (RetriesOf(r, x) - RetriesOf(s, x)) && |RunningOn(r, x)| <= 1
  {
    NothingIsLost(s, steps, x);
    CopiesAreConserved(s, steps, x);
  }

  // ---------- the pool's counters ----------

  ghost predicate Counted(s: System) {
    && s.completed + s.failed + |s.running| == |s.ledger.started| + |s.ledger.timedOut|
    && s.running.Keys <= s.workers
  }

  lemma ArriveLeavesPool(s: System, id: TaskId)
    ensures var r := Arrive(s, id);
      && r.running == s.running && r.workers == s.workers && r.completed == s.completed && r.failed == s.failed
      && r.ledger.started == s.ledger.started && r.ledger.timedOut == s.ledger.timedOut
  {
  }

  lemma FailureCountsOne(s: System, id: TaskId, error: Failure)
    requires id in s.tasks
    ensures var r := FailWith(s, id, error);
      && r.running == s.running && r.workers == s.workers && r.completed == s.completed && r.failed == s.failed + 1
      && r.ledger.started == s.ledger.started && r.ledger.timedOut == s.ledger.timedOut
  {
    var marked := SetStatus(s.(failed := s.failed + 1), id, Failed);
    ArriveLeavesPool(PrepareRetry(marked, id), id);
  }

  lemma FreedWorker(running: map<WorkerId, Execution>, w: WorkerId)
    requires w in running
    ensures |running - {w}| == |running| - 1 && (running - {w}).Keys <= running.Keys
  {
    assert (running - {w}).Keys == running.Keys - {w};
    assert |(running - {w}).Keys| == |running - {w}| && |running.Keys| == |running|;
  }

  lemma AssignedWorker(running: map<WorkerId, Execution>, w: WorkerId, e: Execution)
    ensures |running[w := e]| == |running| + (if w in running then 0 else 1)
    ensures running[w := e].Keys == running.Keys + {w}
  {
    assert running[w := e].Keys == running.Keys + {w};
    assert |running[w := e].Keys| == |running[w := e]| && |running.Keys| == |running|;
  }

  lemma StartStaysCounted(s: System, w: WorkerId)
    requires Counted(s) && Enabled(s, Start(w))
    ensures Counted(Begin(s, w))
  {
    AssignedWorker(s.running, w, Execution(s.handoff[0], true));
  }

  lemma FinishStaysCounted(s: System, w: WorkerId)
    requires Counted(s) && Busy(s, w)
    ensures Counted(Complete(s, w))
  {
    FreedWorker(s.running, w);
  }

  lemma CrashStaysCounted(s: System, w: WorkerId, error: Failure)
    requires Counted(s) && Busy(s, w)
    ensures Counted(Free(FailWith(s, s.running[w].task, error), w))
  {
    FailureCountsOne(s, s.running[w].task, error);
    FreedWorker(s.running, w);
    hide FailWith;
  }

  lemma TimeOutStaysCounted(s: System, w: WorkerId)
    requires Counted(s) && Busy(s, w)
    ensures Counted(Expire(s, w))
  {
    var id := s.running[w].task;
    var marked := s.(running := s.running[w := Execution(id, false)],
                     ledger := s.ledger.(timedOut := s.ledger.timedOut + multiset{id}));
    AssignedWorker(s.running, w, Execution(id, false));
    FailureCountsOne(marked, id, TIMEOUT_ERROR);
    hide FailWith;
  }

  lemma StepStaysCounted(s: System, step: Step)
    requires Counted(s)
    ensures Counted(Next(s, step))
  {
    if Enabled(s, step) {
      match step {
        case Submit(id, delay) =>
          ArriveLeavesPool(s.(ledger := s.ledger.(submitted := s.ledger.submitted + multiset{id})), id);
        case Take(id) =>
        case Deliver =>
        case Start(w) => StartStaysCounted(s, w);
        case Finish(w) => FinishStaysCounted(s, w);
        case Crash(w, error) => CrashStaysCounted(s, w, error);
        case TimeOut(w, _) => TimeOutStaysCounted(s, w);
        case Mature(id) => ArriveLeavesPool(s.(delayed := s.delayed - multiset{id}), id);
        case StopPool =>
      }
      hide Arrive, Begin, Complete, FailWith, Free, Expire, Enabled;
    }
  }

  /** The pool's counters miss nothing: each execution ends as completed or failed, and each time-out counts too. */
  lemma {:induction false} CountersAddUp(s: System, steps: seq<Step>)
    requires Untouched(s)
    ensures Counted(RunSteps(s, steps))
  {
    if steps != [] {
      CountersAddUp(s, steps[..|steps| - 1]);
      StepStaysCounted(RunSteps(s, steps[..|steps| - 1]), steps[|steps| - 1]);
    }
  }

  // ---------- an execution that finishes after its time-out ----------

  lemma HandledTask(s: System, id: TaskId, error: Failure)
    requires id in s.tasks
    ensures var r := HandleFailure(s, id, error);
      && id in r.tasks && r.running == s.running
      && r.tasks[id].status == (if RetriesNow(s, id, error) then Pending else s.tasks[id].status)
      && Waiting(r, id) + r.ledger.lost[id]
           == Waiting(s, id) + s.ledger.lost[id] + if RetriesNow(s, id, error) then 1 else 0
  {
    hide RetriesNow, CalculateDelay;
  }

  lemma SettledTask(s: System, id: TaskId, error: Failure)
    requires id in s.tasks
    ensures var r := SetStatus(s.(failed := s.failed + 1), id, Failed);
      && FailWith(s, id, error) == HandleFailure(r, id, error)
      && id in r.tasks && r.tasks[id].status == Failed && r.running == s.running && r.ledger == s.ledger
      && RetriesNow(r, id, error) == RetriesNow(s, id, error) && Waiting(r, id) == Waiting(s, id)
  {
    hide HandleFailure, ShouldRetry;
  }

  lemma FailedTask(s: System, id: TaskId, error: Failure)
    requires id in s.tasks
    ensures var r := FailWith(s, id, error);
      && id in r.tasks && r.running == s.running
      && r.tasks[id].status == (if RetriesNow(s, id, error) then Pending else Failed)
      && Waiting(r, id) + r.ledger.lost[id]
           == Waiting(s, id) + s.ledger.lost[id] + if RetriesNow(s, id, error) then 1 else 0
  {
    hide *;
    SettledTask(s, id, error);
    HandledTask(SetStatus(s.(failed := s.failed + 1), id, Failed), id, error);
  }

  lemma ExpiredTask(s: System, w: WorkerId)
    requires Busy(s, w)
    ensures var r := Expire(s, w); var id := s.running[w].task;
      && Busy(r, w) && r.running[w].task == id
      && r.tasks[id].status == (if RetriesNow(s, id, TIMEOUT_ERROR) then Pending else Failed)
      && Waiting(r, id) + r.ledger.lost[id] == Waiting(s, id) + s.ledger.lost[id]
           + if RetriesNow(s, id, TIMEOUT_ERROR) then 1 else 0
  {
    var id := s.running[w].task;
    var marked := s.(running := s.running[w := Execution(id, false)],
                     ledger := s.ledger.(timedOut := s.ledger.timedOut + multiset{id}));
    FailedTask(marked, id, TIMEOUT_ERROR);
    hide FailWith;
  }

  lemma ExpireRunning(s: System, w: WorkerId)
    requires Busy(s, w)
    ensures Expire(s, w).running == s.running[w := Execution(s.running[w].task, false)]
  {
    var id := s.running[w].task;
    var marked := s.(running := s.running[w := Execution(id, false)],
                     ledger := s.ledger.(timedOut := s.ledger.timedOut + multiset{id}));
    FailedTask(marked, id, TIMEOUT_ERROR);
    hide FailWith;
  }

  lemma CompletedTask(s: System, w: WorkerId)
    requires Busy(s, w)
    ensures var r := Complete(s, w); var id := s.running[w].task;
      && id in r.tasks && r.tasks[id].status == (if s.tasks[id].status == Failed then Failed else Completed)
      && Waiting(r, id) == Waiting(s, id) && r.ledger == s.ledger
  {
  }

  /**
    A timed-out execution that returns normally before anything else happens marks its task completed exactly
    when the time-out was granted a retry; then a further copy of the completed task is on its way or was dropped.
   */
  lemma PromptFinishCompletesIff(s: System, w: WorkerId, elapsed: real)
    requires Enabled(s, TimeOut(w, elapsed))
    ensures var r := Next(Next(s, TimeOut(w, elapsed)), Finish(w)); var id := s.running[w].task;
      && id in r.tasks && (r.tasks[id].status == Completed || r.tasks[id].status == Failed)
      && (r.tasks[id].status == Completed <==> RetriesNow(s, id, TIMEOUT_ERROR))
      && Waiting(r, id) + r.ledger.lost[id] == Waiting(s, id) + s.ledger.lost[id]
           + if r.tasks[id].status == Completed then 1 else 0
  {
    ExpiredTask(s, w);
    CompletedTask(Expire(s, w), w);
    hide Expire, Complete, Waiting, RetriesNow;
  }
}
