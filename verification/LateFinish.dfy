/**
  Executions that time out and then return normally. The worker's check of the failed status is meant to keep
  such a task from being completed; this module says over whole runs when it does not.
 */
module LateFinish {
  import opened Sequences
  import opened EventReplay
  import opened Retry
  import opened SchedulerModel
  import opened SchedulerLaws
  import opened SchedulerBounds
  import opened SchedulerRounds

  // ---------- what decides whether a task is marked failed ----------

  /** A failure for good marks a task failed; a start or a failure granted a retry clears the mark. */
  datatype Mark = Fails | Clears | Keeps

  function FailureMark(s: System, id: TaskId, error: Failure): Mark
    requires id in s.tasks
  {
    if RetriesNow(s, id, error) then Clears else Fails
  }

  function MarkOf(s: System, step: Step, id: TaskId): Mark {
    if !Enabled(s, step) then Keeps
    else
      match step
      case Start(_) => if s.handoff[0] == id then Clears else Keeps
      case Crash(w, error) => if s.running[w].task == id then FailureMark(s, id, error) else Keeps
      case TimeOut(w, _) => if s.running[w].task == id then FailureMark(s, id, TIMEOUT_ERROR) else Keeps
      case _ => Keeps
  }

  /** The mark of the last step that decides anything about the task. */
  function LastMark(s: System, steps: seq<Step>, id: TaskId): Mark {
    if steps == [] then Keeps
    else
      var front := steps[..|steps| - 1];
      var mark := MarkOf(RunSteps(s, front), steps[|steps| - 1], id);
      if mark != Keeps then mark else LastMark(s, front, id)
  }

  predicate IsFailed(s: System, id: TaskId) {
    id in s.tasks && s.tasks[id].status == Failed
  }

  predicate After(mark: Mark, before: bool) {
    mark == Fails || (mark == Keeps && before)
  }

  lemma OtherTaskKeepsStatus(s: System, y: TaskId, error: Failure, id: TaskId)
    requires y in s.tasks && y != id
    ensures IsFailed(FailWith(s, y, error), id) == IsFailed(s, id)
  {
    FailureRecord(s, y, error);
    hide FailWith;
  }

  lemma FailureDecides(s: System, y: TaskId, error: Failure, id: TaskId)
    requires y in s.tasks
    ensures IsFailed(FailWith(s, y, error), id) ==
      After(if y == id then FailureMark(s, id, error) else Keeps, IsFailed(s, id))
  {
    if y == id {
      FailedTask(s, id, error);
    } else {
      OtherTaskKeepsStatus(s, y, error, id);
    }
    hide FailWith;
  }

  lemma MarkDecides(s: System, step: Step, id: TaskId)
    ensures IsFailed(Next(s, step), id) == After(MarkOf(s, step, id), IsFailed(s, id))
  {
    hide Arrive, FailWith, RetriesNow;
    if Enabled(s, step) {
      match step {
        case Submit(x, delay) =>
          ArriveLeavesTasks(s.(ledger := s.ledger.(submitted := s.ledger.submitted + multiset{x})), x);
        case Take(x) =>
        case Deliver =>
        case Start(w) =>
        case Finish(w) =>
        case Crash(w, error) => FailureDecides(s, s.running[w].task, error, id);
        case TimeOut(w, elapsed) =>
          var y := s.running[w].task;
          var marked := s.(running := s.running[w := Execution(y, false)],
                           ledger := s.ledger.(timedOut := s.ledger.timedOut + multiset{y}));
          SameRecord(s, marked, y, TIMEOUT_ERROR);
          FailureDecides(marked, y, TIMEOUT_ERROR, id);
        case Mature(x) => ArriveLeavesTasks(s.(delayed := s.delayed - multiset{x}), x);
        case StopPool =>
      }
    }
  }

  lemma SameRecord(s: System, r: System, id: TaskId, error: Failure)
    requires id in s.tasks && r.tasks == s.tasks
    ensures RetriesNow(r, id, error) == RetriesNow(s, id, error)
  {
  }

  /** Over every run a task is marked failed exactly when the last deciding step failed it, or none decided and it was. */
  lemma {:induction false} FailedIff(s: System, steps: seq<Step>, id: TaskId)
    ensures IsFailed(RunSteps(s, steps), id) == After(LastMark(s, steps, id), IsFailed(s, id))
  {
    hide Next, MarkOf, IsFailed;
    if steps != [] {
      FailedIff(s, steps[..|steps| - 1], id);
      MarkDecides(RunSteps(s, steps[..|steps| - 1]), steps[|steps| - 1], id);
    }
  }

  // ---------- a worker that is left alone ----------

  /** The worker neither returns nor crashes during these steps. */
  predicate LeavesAlone(steps: seq<Step>, w: WorkerId) {
    forall step :: step in steps ==> step != Finish(w) && !(step.Crash? && step.worker == w)
  }

  /** The worker is on the task, past its time-out. */
  predicate Overdue(s: System, w: WorkerId, id: TaskId) {
    Busy(s, w) && s.running[w] == Execution(id, false)
  }

  lemma FailureKeepsRunning(s: System, y: TaskId, error: Failure)
    requires y in s.tasks
    ensures FailWith(s, y, error).running == s.running && FailWith(s, y, error).tasks.Keys == s.tasks.Keys
  {
    FailureRecord(s, y, error);
    FailedTask(s, y, error);
    hide FailWith;
  }

  lemma StepKeepsOverdue(s: System, step: Step, w: WorkerId, id: TaskId)
    requires Overdue(s, w, id) && step != Finish(w) && !(step.Crash? && step.worker == w)
    ensures Overdue(Next(s, step), w, id)
  {
    StepEvolves(s, step);
    hide Arrive, FailWith, Evolves;
    assert id in Next(s, step).tasks by {
      EvolvesKeys(s, Next(s, step));
    }
    if Enabled(s, step) {
      match step {
        case Submit(x, delay) =>
          ArriveLeavesPool(s.(ledger := s.ledger.(submitted := s.ledger.submitted + multiset{x})), x);
        case Take(x) =>
        case Deliver =>
        case Start(v) =>
        case Finish(v) =>
        case Crash(v, error) => FailureKeepsRunning(s, s.running[v].task, error);
        case TimeOut(v, elapsed) => ExpireRunning(s, v);
        case Mature(x) => ArriveLeavesPool(s.(delayed := s.delayed - multiset{x}), x);
        case StopPool =>
      }
      hide Expire;
    }
  }

  lemma EvolvesKeys(s: System, r: System)
    requires Evolves(s, r)
    ensures r.tasks.Keys == s.tasks.Keys
  {
  }

  lemma {:induction false} RunKeepsOverdue(s: System, steps: seq<Step>, w: WorkerId, id: TaskId)
    requires Overdue(s, w, id) && LeavesAlone(steps, w)
    ensures Overdue(RunSteps(s, steps), w, id)
  {
    hide Next, Overdue;
    if steps != [] {
      var front, last := steps[..|steps| - 1], steps[|steps| - 1];
      assert last in steps && forall step :: step in front ==> step in steps;
      RunKeepsOverdue(s, front, w, id);
      StepKeepsOverdue(RunSteps(s, front), last, w, id);
    }
  }

  /** The state in which the worker returns at last. */
  function LateReturn(s: System, w: WorkerId, elapsed: real, between: seq<Step>): System {
    Next(RunSteps(Next(s, TimeOut(w, elapsed)), between), Finish(w))
  }

  /**
    Whatever happens between a time-out and the late return of its execution: the return completes the task
    exactly when the last step that decided anything, the time-out included, was a start of another copy or a
    failure granted a retry. Otherwise the task stays failed.
   */
  lemma LateFinishCompletesIff(s: System, w: WorkerId, elapsed: real, between: seq<Step>)
    requires Enabled(s, TimeOut(w, elapsed)) && LeavesAlone(between, w)
    ensures var id := s.running[w].task; var r := LateReturn(s, w, elapsed, between);
      && Enabled(RunSteps(Next(s, TimeOut(w, elapsed)), between), Finish(w))
      && id in r.tasks && w !in r.running
      && r.tasks[id].status == (if LastMark(s, [TimeOut(w, elapsed)] + between, id) == Clears then Completed else Failed)
  {
    var id, out := s.running[w].task, TimeOut(w, elapsed);
    var late := RunSteps(Next(s, out), between);
    ExpiredTask(s, w);
    ExpireRunning(s, w);
    assert Overdue(Next(s, out), w, id);
    RunKeepsOverdue(Next(s, out), between, w, id);
    OutcomeIsDecided(s, out, between, id);
    TwoSteps(s, out, StopPool);
    RunConcat(s, [out], between);
    FailedIff(s, [out] + between, id);
    CompletedTask(late, w);
    hide RunSteps, Expire, LastMark;
  }

  /** With the time-out among the steps, some step has decided. */
  lemma {:induction false} OutcomeIsDecided(s: System, out: Step, between: seq<Step>, id: TaskId)
    requires Enabled(s, out) && out.TimeOut? && s.running[out.worker].task == id
    ensures LastMark(s, [out] + between, id) != Keeps
  {
    var all := [out] + between;
    if between == [] {
      assert all[..|all| - 1] == [] && all[|all| - 1] == out;
    } else {
      var front := between[..|between| - 1];
      assert all[..|all| - 1] == [out] + front;
      OutcomeIsDecided(s, out, front, id);
    }
  }

  // ---------- a task submitted once ----------

  /** Time-outs of the task are never granted a retry, so no more copies are about than were submitted. */
  predicate Tame(s: System, id: TaskId) {
    && id in s.tasks && !RetriesNow(s, id, TIMEOUT_ERROR)
    && Waiting(s, id) + |RunningOn(s, id)| <= s.ledger.submitted[id]
  }

  lemma NoGrantStays(s: System, step: Step, id: TaskId)
    requires id in s.tasks && !RetriesNow(s, id, TIMEOUT_ERROR)
    ensures id in Next(s, step).tasks && !RetriesNow(Next(s, step), id, TIMEOUT_ERROR)
  {
    StepEvolves(s, step);
    StepIsLawful(s, step, id);
    assert TallyOf(Next(s, step), id).retries == RetriesOf(Next(s, step), id);
    assert SameBounds(s.tasks[id], Next(s, step).tasks[id]);
    hide Next, Cap, Retryable;
  }

  predicate TimesOut(s: System, step: Step, id: TaskId) {
    step.TimeOut? && Enabled(s, step) && s.running[step.worker].task == id
  }

  lemma OnlyTimeOutsCount(s: System, step: Step, id: TaskId)
    requires !TimesOut(s, step, id)
    ensures Next(s, step).ledger.timedOut[id] == s.ledger.timedOut[id]
  {
    hide Arrive, FailWith;
    if Enabled(s, step) {
      match step {
        case Submit(x, delay) =>
          ArriveLeavesPool(s.(ledger := s.ledger.(submitted := s.ledger.submitted + multiset{x})), x);
        case Take(x) =>
        case Deliver =>
        case Start(w) =>
        case Finish(w) =>
        case Crash(w, error) => FailureCountsOne(s, s.running[w].task, error);
        case TimeOut(w, elapsed) =>
          var y := s.running[w].task;
          FailureCountsOne(s.(running := s.running[w := Execution(y, false)],
                              ledger := s.ledger.(timedOut := s.ledger.timedOut + multiset{y})), y, TIMEOUT_ERROR);
        case Mature(x) => ArriveLeavesPool(s.(delayed := s.delayed - multiset{x}), x);
        case StopPool =>
      }
    }
  }

  lemma TameStep(s: System, step: Step, id: TaskId)
    requires Tame(s, id)
    ensures Tame(Next(s, step), id)
  {
    NoGrantStays(s, step, id);
    StepIsLawful(s, step, id);
    var a, b := TallyOf(s, id), TallyOf(Next(s, step), id);
    if TimesOut(s, step, id) {
      var w := step.worker;
      ExpiredTask(s, w);
      ExpireRunning(s, w);
      assert RunningOn(Next(s, step), id) == RunningOn(s, id);
    } else {
      OnlyTimeOutsCount(s, step, id);
    }
    hide Next, Waiting, RunningOn, RetriesNow;
  }

  lemma {:induction false} TameRun(s: System, steps: seq<Step>, id: TaskId)
    requires Tame(s, id)
    ensures Tame(RunSteps(s, steps), id)
  {
    hide Tame, Next;
    if steps != [] {
      TameRun(s, steps[..|steps| - 1], id);
      TameStep(RunSteps(s, steps[..|steps| - 1]), steps[|steps| - 1], id);
    }
  }

  /** While the only copy is with an overdue worker, nothing else decides about the task. */
  lemma NothingDecides(s: System, step: Step, w: WorkerId, id: TaskId)
    requires Tame(s, id) && s.ledger.submitted[id] <= 1 && Overdue(s, w, id)
    requires step != Finish(w) && !(step.Crash? && step.worker == w)
    ensures MarkOf(s, step, id) == Keeps
  {
    assert w in RunningOn(s, id);
    forall v | v in s.running && s.running[v].task == id ensures v == w {
      if v != w {
        assert {v, w} <= RunningOn(s, id);
        SubsetCardinality({v, w}, RunningOn(s, id));
      }
    }
    assert Waiting(s, id) == 0;
    hide RetriesNow;
  }

  lemma {:induction false} StaysFailed(s: System, steps: seq<Step>, w: WorkerId, id: TaskId)
    requires Tame(s, id) && Overdue(s, w, id) && LeavesAlone(steps, w)
    requires RunSteps(s, steps).ledger.submitted[id] <= 1
    ensures LastMark(s, steps, id) == Keeps
  {
    hide Tame, Overdue, MarkOf, Next, TallyOf;
    if steps != [] {
      var front, last := steps[..|steps| - 1], steps[|steps| - 1];
      assert last in steps && forall step :: step in front ==> step in steps;
      var before := RunSteps(s, front);
      SubmissionsGrow(before, last, id);
      StaysFailed(s, front, w, id);
      TameRun(s, front, id);
      RunKeepsOverdue(s, front, w, id);
      NothingDecides(before, last, w, id);
    }
  }

  lemma SubmissionsGrow(s: System, step: Step, id: TaskId)
    ensures s.ledger.submitted[id] <= Next(s, step).ledger.submitted[id]
  {
    StepIsLawful(s, step, id);
    hide Next, Waiting, RunningOn, ArmedOn, RetriesOf;
  }

  /** A run in which an execution of the task times out and its late return completes the task. */
  predicate CompletesLate(
    s: System, id: TaskId, before: seq<Step>, w: WorkerId, elapsed: real, between: seq<Step>)
  {
    var t := RunSteps(s, before);
    && Enabled(t, TimeOut(w, elapsed)) && t.running[w].task == id && LeavesAlone(between, w)
    && var r := LateReturn(t, w, elapsed, between);
       r.ledger.submitted[id] <= 1 && id in r.tasks && r.tasks[id].status == Completed
  }

  lemma UngrantedStaysFailed(
    s: System, id: TaskId, before: seq<Step>, w: WorkerId, elapsed: real, between: seq<Step>)
    requires Untouched(s) && id in s.tasks && !RetriesNow(s, id, TIMEOUT_ERROR)
    ensures !CompletesLate(s, id, before, w, elapsed, between)
  {
    var t, out := RunSteps(s, before), TimeOut(w, elapsed);
    if Enabled(t, out) && t.running[w].task == id && LeavesAlone(between, w) {
      assert RunningOn(s, id) == {};
      TameRun(s, before, id);
      ExpiredTask(t, w);
      ExpireRunning(t, w);
      var u := Next(t, out);
      TameStep(t, out, id);
      assert Overdue(u, w, id) && IsFailed(u, id);
      var late := RunSteps(u, between);
      RunKeepsOverdue(u, between, w, id);
      CompletedTask(late, w);
      if late.ledger.submitted[id] <= 1 {
        StaysFailed(u, between, w, id);
        FailedIff(u, between, id);
      }
      hide RunSteps, Expire, Tame, LastMark, Waiting;
    }
  }

  lemma TimeLimitStays(s: System, steps: seq<Step>, id: TaskId)
    requires id in s.tasks
    ensures id in RunSteps(s, steps).tasks && RunSteps(s, steps).tasks[id].timeLimit == s.tasks[id].timeLimit
  {
    RunEvolves(s, steps);
    assert SameBounds(s.tasks[id], RunSteps(s, steps).tasks[id]);
  }

  lemma FirstAttempt(s: System, id: TaskId, w: WorkerId)
    requires Untouched(s) && id in s.tasks && w in s.workers && (s.capacity.Some? ==> s.capacity.value >= 1)
    ensures var t := RunSteps(s, [Submit(id, 0.0)] + [Take(id), Deliver, Start(w)]);
      && t.running == map[w := Execution(id, true)] && id in t.tasks
      && t.tasks[id] == s.tasks[id].(status := Running) && t.ledger.submitted[id] == 1
  {
    var first := RunSteps(s, [Submit(id, 0.0)]);
    TwoSteps(s, Submit(id, 0.0), StopPool);
    RunConcat(s, [Submit(id, 0.0)], [Take(id), Deliver, Start(w)]);
    assert Ready(first, id, w);
    ReachWorker(first, id, w);
    assert Attempt(first, id, w).running == map[w := Execution(id, true)];
    hide RunSteps, Next;
  }

  lemma PromptReturn(t: System, id: TaskId, w: WorkerId, elapsed: real)
    requires Enabled(t, TimeOut(w, elapsed)) && t.running[w].task == id && RetriesNow(t, id, TIMEOUT_ERROR)
    ensures var r := LateReturn(t, w, elapsed, []);
      id in r.tasks && r.tasks[id].status == Completed && r.ledger.submitted == t.ledger.submitted
  {
    assert RunSteps(Next(t, TimeOut(w, elapsed)), []) == Next(t, TimeOut(w, elapsed));
    ExpiredTask(t, w);
    FailureKeepsSubmitted(t, w, id);
    CompletedTask(Expire(t, w), w);
    hide Expire, Complete, RunSteps;
  }

  /** Submit the task, run it past its limit, and return. */
  lemma GrantedCompletes(s: System, id: TaskId, w: WorkerId)
    requires Untouched(s) && id in s.tasks && w in s.workers && (s.capacity.Some? ==> s.capacity.value >= 1)
    requires s.tasks[id].timeLimit.Some? && RetriesNow(s, id, TIMEOUT_ERROR)
    ensures CompletesLate(
      s, id, [Submit(id, 0.0)] + [Take(id), Deliver, Start(w)], w, s.tasks[id].timeLimit.value + 1.0, [])
  {
    var t := RunSteps(s, [Submit(id, 0.0)] + [Take(id), Deliver, Start(w)]);
    FirstAttempt(s, id, w);
    PromptReturn(t, id, w, s.tasks[id].timeLimit.value + 1.0);
    hide RunSteps, LateReturn;
  }

  lemma FailureKeepsSubmitted(s: System, w: WorkerId, id: TaskId)
    requires Busy(s, w)
    ensures Expire(s, w).ledger.submitted == s.ledger.submitted
  {
    hide RetriesNow, CalculateDelay;
  }

  /**
    A task submitted at most once can be completed by a late return exactly when it has a time limit and its
    policy, as submitted, allows a retry of a time-out.
   */
  lemma SingleTaskCompletesLateIff(s: System, id: TaskId)
    requires Untouched(s) && id in s.tasks && s.workers != {} && (s.capacity.Some? ==> s.capacity.value >= 1)
    ensures (exists before, w, elapsed, between :: CompletesLate(s, id, before, w, elapsed, between))
      <==> s.tasks[id].timeLimit.Some? && RetriesNow(s, id, TIMEOUT_ERROR)
  {
    hide CompletesLate, RetriesNow;
    if s.tasks[id].timeLimit.Some? && RetriesNow(s, id, TIMEOUT_ERROR) {
      var w :| w in s.workers;
      GrantedCompletes(s, id, w);
    } else {
      forall before, w, elapsed, between ensures !CompletesLate(s, id, before, w, elapsed, between) {
        LateNeedsGrant(s, id, before, w, elapsed, between);
      }
    }
  }

  lemma LateNeedsGrant(
    s: System, id: TaskId, before: seq<Step>, w: WorkerId, elapsed: real, between: seq<Step>)
    requires Untouched(s) && id in s.tasks && !(s.tasks[id].timeLimit.Some? && RetriesNow(s, id, TIMEOUT_ERROR))
    ensures !CompletesLate(s, id, before, w, elapsed, between)
  {
    if s.tasks[id].timeLimit.None? {
      TimeLimitStays(s, before, id);
    } else {
      UngrantedStaysFailed(s, id, before, w, elapsed, between);
    }
  }
}
