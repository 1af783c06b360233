/**
  What every run of the scheduler obeys: exact conservation of task copies, the bound on executions, how many
  copies can be in flight, how often an execution can time out, and what the pool's counters say.
 */
module SchedulerLaws {
  import opened Sequences
  import opened EventReplay
  import opened Retry
  import opened SchedulerModel

  // ---------- one task's books ----------

  datatype Tally = Tally(
    submitted: int, retries: int, started: int, waiting: int, lost: int, running: int, armed: int, timedOut: int)

  ghost function TallyOf(s: System, x: TaskId): Tally {
    Tally(s.ledger.submitted[x], RetriesOf(s, x), s.ledger.started[x], Waiting(s, x), s.ledger.lost[x],
          |RunningOn(s, x)|, |ArmedOn(s, x)|, s.ledger.timedOut[x])
  }

  /** Copies accepted or made by retries that are neither started nor waiting nor lost. */
  function Owed(t: Tally): int {
    t.submitted + t.retries - t.started - t.waiting - t.lost
  }

  /** How one step may move one task's books. */
  predicate Lawful(a: Tally, b: Tally) {
    && Owed(b) == Owed(a)
    && b.waiting + b.running - b.submitted - b.timedOut <= a.waiting + a.running - a.submitted - a.timedOut
    && b.timedOut + b.armed - b.started <= a.timedOut + a.armed - a.started
    && a.submitted <= b.submitted && a.retries <= b.retries && a.lost <= b.lost
    && a.started <= b.started && a.timedOut <= b.timedOut
  }

  // ---------- what the parts of a step do to the books ----------

  lemma ArriveBooks(s: System, id: TaskId, x: TaskId)
    ensures var (a, b) := (TallyOf(s, x), TallyOf(Arrive(s, id), x));
      && b == a.(waiting := b.waiting, lost := b.lost)
      && b.waiting + b.lost == a.waiting + a.lost + (if x == id then 1 else 0)
      && a.waiting <= b.waiting && a.lost <= b.lost
  {
    var r := Arrive(s, id);
    assert RunningOn(r, x) == RunningOn(s, x) && ArmedOn(r, x) == ArmedOn(s, x);
  }

  lemma SameWorkers(s: System, r: System, x: TaskId)
    requires r.running == s.running
    ensures RunningOn(r, x) == RunningOn(s, x) && ArmedOn(r, x) == ArmedOn(s, x)
  {
  }

  lemma StatusBooks(s: System, id: TaskId, status: TaskStatus, x: TaskId)
    requires id in s.tasks
    ensures TallyOf(SetStatus(s, id, status), x) == TallyOf(s, x)
  {
    SameWorkers(s, SetStatus(s, id, status), x);
  }

  /** A failure either adds one retry and one copy, waiting or lost, or nothing. */
  predicate MayRetry(a: Tally, b: Tally, own: bool) {
    && b == a.(retries := b.retries, waiting := b.waiting, lost := b.lost)
    && Owed(b) == Owed(a) && a.retries <= b.retries && a.lost <= b.lost
    && a.waiting <= b.waiting <= a.waiting + if own then 1 else 0
  }

  lemma PrepareBooks(s: System, id: TaskId, x: TaskId)
    requires id in s.tasks
    ensures TallyOf(PrepareRetry(s, id), x) ==
      TallyOf(s, x).(retries := TallyOf(s, x).retries + if x == id then 1 else 0)
  {
    SameWorkers(s, PrepareRetry(s, id), x);
  }

  lemma DelayBooks(s: System, wait: Wait, x: TaskId)
    ensures var (a, b) := (TallyOf(s, x), TallyOf(HoldBack(s, wait), x));
      b == a.(waiting := a.waiting + if x == wait.task then 1 else 0)
  {
    SameWorkers(s, HoldBack(s, wait), x);
  }

  lemma MayRetryOnce(a: Tally, b: Tally, c: Tally, own: bool)
    requires b == a.(retries := a.retries + if own then 1 else 0)
    requires c == b.(waiting := c.waiting, lost := c.lost)
    requires c.waiting + c.lost == b.waiting + b.lost + (if own then 1 else 0)
    requires b.waiting <= c.waiting && b.lost <= c.lost
    ensures MayRetry(a, c, own)
  {
  }

  lemma FailureBooks(s: System, id: TaskId, error: Failure, x: TaskId)
    requires id in s.tasks
    ensures MayRetry(TallyOf(s, x), TallyOf(HandleFailure(s, id, error), x), x == id)
    ensures HandleFailure(s, id, error).running == s.running
  {
    if RetriesNow(s, id, error) {
      var reset, r := PrepareRetry(s, id), HandleFailure(s, id, error);
      var wait := Wait(id, CalculateDelay(reset.tasks[id].policy.value, reset.tasks[id].retryCount), true);
      assert r == Arrive(reset, id) || r == HoldBack(reset, wait);
      assert r.running == s.running;
      var a, b, c := TallyOf(s, x), TallyOf(reset, x), TallyOf(r, x);
      hide *;
      PrepareBooks(s, id, x);
      ArriveBooks(reset, id, x);
      DelayBooks(reset, wait, x);
      MayRetryOnce(a, b, c, x == id);
    }
  }

  lemma CountFailure(s: System, x: TaskId)
    ensures TallyOf(s.(failed := s.failed + 1), x) == TallyOf(s, x)
  {
    SameWorkers(s, s.(failed := s.failed + 1), x);
  }

  lemma FailWithIs(s: System, id: TaskId, error: Failure)
    requires id in s.tasks
    ensures var marked := SetStatus(s.(failed := s.failed + 1), id, Failed);
      id in marked.tasks && marked.running == s.running && FailWith(s, id, error) == HandleFailure(marked, id, error)
  {
    hide HandleFailure;
  }

  lemma FailWithBooks(s: System, id: TaskId, error: Failure, x: TaskId)
    requires id in s.tasks
    ensures MayRetry(TallyOf(s, x), TallyOf(FailWith(s, id, error), x), x == id)
    ensures FailWith(s, id, error).running == s.running
  {
    var counted := s.(failed := s.failed + 1);
    var marked := SetStatus(counted, id, Failed);
    FailWithIs(s, id, error);
    hide *;
    CountFailure(s, x);
    StatusBooks(counted, id, Failed, x);
    FailureBooks(marked, id, error, x);
  }

  lemma FreeRunning(s: System, w: WorkerId, x: TaskId)
    requires w in s.running
    ensures |RunningOn(Free(s, w), x)| == |RunningOn(s, x)| - if s.running[w].task == x then 1 else 0
  {
    var r := Free(s, w);
    if s.running[w].task == x {
      assert RunningOn(s, x) == RunningOn(r, x) + {w} && w !in RunningOn(r, x);
    } else {
      assert RunningOn(s, x) == RunningOn(r, x);
    }
  }

  lemma FreeArmed(s: System, w: WorkerId, x: TaskId)
    ensures |ArmedOn(Free(s, w), x)| <= |ArmedOn(s, x)|
  {
    SubsetCardinality(ArmedOn(Free(s, w), x), ArmedOn(s, x));
  }

  /** Freeing a worker ends one execution. */
  lemma FreeBooks(s: System, w: WorkerId, x: TaskId)
    requires w in s.running
    ensures var (a, b) := (TallyOf(s, x), TallyOf(Free(s, w), x));
      && b == a.(running := b.running, armed := b.armed)
      && b.running == a.running - (if s.running[w].task == x then 1 else 0)
      && b.armed <= a.armed
  {
    FreeRunning(s, w, x);
    FreeArmed(s, w, x);
    hide RunningOn, ArmedOn;
  }

  /** Disarming an armed execution. */
  lemma DisarmBooks(s: System, w: WorkerId, r: System, x: TaskId)
    requires w in s.running && s.running[w].armed
    requires r.running == s.running[w := Execution(s.running[w].task, false)]
    ensures RunningOn(r, x) == RunningOn(s, x)
    ensures |ArmedOn(r, x)| == |ArmedOn(s, x)| - if s.running[w].task == x then 1 else 0
  {
    assert RunningOn(r, x) == RunningOn(s, x);
    if s.running[w].task == x {
      assert ArmedOn(s, x) == ArmedOn(r, x) + {w} && w !in ArmedOn(r, x);
    } else {
      assert ArmedOn(s, x) == ArmedOn(r, x);
    }
  }

  lemma AssignBooks(s: System, w: WorkerId, id: TaskId, r: System, x: TaskId)
    requires w !in s.running && r.running == s.running[w := Execution(id, true)]
    ensures |RunningOn(r, x)| == |RunningOn(s, x)| + if x == id then 1 else 0
    ensures |ArmedOn(r, x)| == |ArmedOn(s, x)| + if x == id then 1 else 0
  {
    if x == id {
      assert RunningOn(r, x) == RunningOn(s, x) + {w} && ArmedOn(r, x) == ArmedOn(s, x) + {w};
    } else {
      assert RunningOn(r, x) == RunningOn(s, x) && ArmedOn(r, x) == ArmedOn(s, x);
    }
  }

  // ---------- steps ----------

  lemma CountSubmission(s: System, id: TaskId, r: System, x: TaskId)
    requires r == s.(ledger := s.ledger.(submitted := s.ledger.submitted + multiset{id}))
    ensures TallyOf(r, x) == TallyOf(s, x).(submitted := TallyOf(s, x).submitted + if x == id then 1 else 0)
  {
    SameWorkers(s, r, x);
  }

  lemma SubmitIsLawful(s: System, id: TaskId, delay: real, x: TaskId)
    ensures Lawful(TallyOf(s, x), TallyOf(Accept(s, id, delay), x))
  {
    var accepted := s.(ledger := s.ledger.(submitted := s.ledger.submitted + multiset{id}));
    var r := Accept(s, id, delay);
    assert r == Arrive(accepted, id) || r == HoldBack(accepted, Wait(id, delay, false));
    hide TallyOf, Accept, Arrive, HoldBack;
    CountSubmission(s, id, accepted, x);
    ArriveBooks(accepted, id, x);
    DelayBooks(accepted, Wait(id, delay, false), x);
  }

  lemma DeliverIsLawful(s: System, x: TaskId)
    requires s.held.Some?
    ensures Lawful(TallyOf(s, x), TallyOf(HandOver(s, s.held.value), x))
  {
    SameWorkers(s, HandOver(s, s.held.value), x);
  }

  lemma TakeIsLawful(s: System, id: TaskId, x: TaskId)
    requires Enabled(s, Take(id))
    ensures Lawful(TallyOf(s, x), TallyOf(Next(s, Take(id)), x))
  {
    SameWorkers(s, Next(s, Take(id)), x);
  }

  lemma StartIsLawful(s: System, w: WorkerId, x: TaskId)
    requires Enabled(s, Start(w))
    ensures Lawful(TallyOf(s, x), TallyOf(Begin(s, w), x))
  {
    AssignBooks(s, w, s.handoff[0], Begin(s, w), x);
    assert s.handoff == [s.handoff[0]] + s.handoff[1..];
  }

  lemma FinishIsLawful(s: System, w: WorkerId, x: TaskId)
    requires Busy(s, w)
    ensures Lawful(TallyOf(s, x), TallyOf(Complete(s, w), x))
  {
    var id := s.running[w].task;
    StatusBooks(s, id, Completed, x);
    var settled := if s.tasks[id].status == Failed then s else SetStatus(s, id, Completed);
    var counted := settled.(completed := settled.completed + 1);
    SameWorkers(settled, counted, x);
    assert TallyOf(counted, x) == TallyOf(s, x);
    FreeBooks(counted, w, x);
  }

  lemma CrashIsLawful(s: System, w: WorkerId, error: Failure, x: TaskId)
    requires Busy(s, w)
    ensures Lawful(TallyOf(s, x), TallyOf(Next(s, Crash(w, error)), x))
  {
    var id := s.running[w].task;
    FailWithBooks(s, id, error, x);
    FreeBooks(FailWith(s, id, error), w, x);
  }

  lemma TimeOutIsLawful(s: System, w: WorkerId, x: TaskId)
    requires Busy(s, w) && s.running[w].armed
    ensures Lawful(TallyOf(s, x), TallyOf(Expire(s, w), x))
  {
    var id := s.running[w].task;
    var marked := s.(running := s.running[w := Execution(id, false)],
                     ledger := s.ledger.(timedOut := s.ledger.timedOut + multiset{id}));
    DisarmBooks(s, w, marked, x);
    FailWithBooks(marked, id, TIMEOUT_ERROR, x);
  }

  lemma TakenBooks(s: System, id: TaskId, x: TaskId)
    requires id in s.delayed
    ensures TallyOf(s.(delayed := s.delayed - multiset{id}), x) ==
      TallyOf(s, x).(waiting := TallyOf(s, x).waiting - if x == id then 1 else 0)
  {
    SameWorkers(s, s.(delayed := s.delayed - multiset{id}), x);
    hide RunningOn, ArmedOn;
  }

  lemma MatureIsLawful(s: System, id: TaskId, x: TaskId)
    requires id in s.delayed
    ensures Lawful(TallyOf(s, x), TallyOf(Arrive(s.(delayed := s.delayed - multiset{id}), id), x))
  {
    var taken := s.(delayed := s.delayed - multiset{id});
    hide TallyOf, Arrive;
    TakenBooks(s, id, x);
    ArriveBooks(taken, id, x);
  }

  lemma StepIsLawful(s: System, step: Step, x: TaskId)
    ensures Lawful(TallyOf(s, x), TallyOf(Next(s, step), x))
  {
    hide TallyOf, Accept, Arrive, HandOver, Begin, Complete, Expire, FailWith, Free;
    if Enabled(s, step) {
      match step {
        case Submit(id, delay) => SubmitIsLawful(s, id, delay, x);
        case Take(id) => TakeIsLawful(s, id, x);
        case Deliver => DeliverIsLawful(s, x);
        case Start(w) => StartIsLawful(s, w, x);
        case Finish(w) => FinishIsLawful(s, w, x);
        case Crash(w, error) => CrashIsLawful(s, w, error, x);
        case TimeOut(w, _) => TimeOutIsLawful(s, w, x);
        case Mature(id) => MatureIsLawful(s, id, x);
        case StopPool => StopIsLawful(s, x);
      }
    }
  }

  lemma StopIsLawful(s: System, x: TaskId)
    ensures TallyOf(s.(poolStarted := false), x) == TallyOf(s, x)
  {
    SameWorkers(s, s.(poolStarted := false), x);
  }

  lemma {:induction false} RunIsLawful(s: System, steps: seq<Step>, x: TaskId)
    ensures Lawful(TallyOf(s, x), TallyOf(RunSteps(s, steps), x))
  {
    if steps != [] {
      RunIsLawful(s, steps[..|steps| - 1], x);
      StepIsLawful(RunSteps(s, steps[..|steps| - 1]), steps[|steps| - 1], x);
    }
  }

  // ---------- laws of whole runs ----------

  lemma UntouchedBooks(s: System, x: TaskId)
    requires Untouched(s)
    ensures TallyOf(s, x) == Tally(0, RetriesOf(s, x), 0, 0, 0, 0, 0, 0)
  {
    assert RunningOn(s, x) == {} && ArmedOn(s, x) == {};
  }

  lemma FromNothing(retries: int, b: Tally)
    requires Lawful(Tally(0, retries, 0, 0, 0, 0, 0, 0), b)
    ensures b.started + b.waiting + b.lost == b.submitted + (b.retries - retries)
    ensures b.waiting + b.running <= b.submitted + b.timedOut && b.timedOut + b.armed <= b.started
    ensures retries <= b.retries && b.lost >= 0
  {
  }

  lemma RunFromNothing(s: System, steps: seq<Step>, x: TaskId)
    requires Untouched(s)
    ensures var b := TallyOf(RunSteps(s, steps), x);
      && b.started + b.waiting + b.lost == b.submitted + (b.retries - RetriesOf(s, x))
      && b.waiting + b.running <= b.submitted + b.timedOut && b.timedOut + b.armed <= b.started
      && RetriesOf(s, x) <= b.retries && b.lost >= 0
  {
    hide *;
    UntouchedBooks(s, x);
    RunIsLawful(s, steps, x);
    FromNothing(RetriesOf(s, x), TallyOf(RunSteps(s, steps), x));
  }

  /** Conservation: every copy accepted or made by a retry was started, is waiting, or was lost. */
  lemma CopiesAreConserved(s: System, steps: seq<Step>, x: TaskId)
    requires Untouched(s)
    ensures var r := RunSteps(s, steps);
      r.ledger.started[x] + Waiting(r, x) + r.ledger.lost[x]
        == r.ledger.submitted[x] + (RetriesOf(r, x) - RetriesOf(s, x))
  {
    hide RunSteps, Waiting, RunningOn, ArmedOn, RetriesOf, Untouched;
    RunFromNothing(s, steps, x);
  }

  /** At most one copy in flight for each submission and each time-out, and at most one time-out an execution. */
  lemma CopiesInFlight(s: System, steps: seq<Step>, x: TaskId)
    requires Untouched(s)
    ensures var r := RunSteps(s, steps);
      && Waiting(r, x) + |RunningOn(r, x)| <= r.ledger.submitted[x] + r.ledger.timedOut[x]
      && r.ledger.timedOut[x] + |ArmedOn(r, x)| <= r.ledger.started[x]
  {
    hide RunSteps, Waiting, RunningOn, ArmedOn, RetriesOf, Untouched;
    RunFromNothing(s, steps, x);
  }
}
