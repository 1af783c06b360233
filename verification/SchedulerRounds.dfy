/**
  The bound on executions is exact: a worker on which a task keeps failing with a retryable error runs it as
  often as the bound allows.
 */
module SchedulerRounds {
  import opened Wrappers
  import opened EventReplay
  import opened Retry
  import opened SchedulerModel
  import opened SchedulerBounds

  /** Only this task is anywhere in the system, queued once, and the worker is free. */
  predicate Ready(s: System, id: TaskId, w: WorkerId) {
    && s.queued == {id} && s.held.None? && s.delayed == multiset{} && s.handoff == []
    && s.poolStarted && w in s.workers && s.running == map[]
    && (s.capacity.Some? ==> s.capacity.value >= 1) && id in s.tasks
  }

  /** A state that differs from a ready one in where the task's only copy is. */
  function Placed(s: System, queued: set<TaskId>, delayed: multiset<TaskId>, held: Option<TaskId>,
                  handoff: seq<TaskId>): System {
    s.(queued := queued, delayed := delayed, held := held, handoff := handoff)
  }

  function Attempt(s: System, id: TaskId, w: WorkerId): System
    requires id in s.tasks
  {
    Begin(Placed(s, {}, multiset{}, None, [id]), w)
  }

  lemma ReachWorker(s: System, id: TaskId, w: WorkerId)
    requires Ready(s, id, w)
    ensures RunSteps(s, [Take(id), Deliver, Start(w)]) == Attempt(s, id, w)
  {
    var one := Next(s, Take(id));
    assert w in Idle(s);
    assert one == Placed(s, {}, multiset{}, Some(id), []);
    var two := Next(one, Deliver);
    assert two == Placed(s, {}, multiset{}, None, [id]);
    assert w in Idle(two);
    ThreeSteps(s, Take(id), Deliver, Start(w));
  }

  lemma OneMore(s: System, steps: seq<Step>, last: Step)
    ensures RunSteps(s, steps + [last]) == Next(RunSteps(s, steps), last)
    ensures RunSteps(s, []) == s
  {
    assert (steps + [last])[..|steps + [last]| - 1] == steps;
  }

  lemma TwoSteps(s: System, a: Step, b: Step)
    ensures RunSteps(s, [a]) == Next(s, a)
    ensures RunSteps(s, [a, b]) == Next(Next(s, a), b)
  {
    OneMore(s, [], a);
    OneMore(s, [a], b);
    hide *;
    assert [] + [a] == [a] && [a] + [b] == [a, b];
  }

  lemma ThreeSteps(s: System, a: Step, b: Step, c: Step)
    ensures RunSteps(s, [a, b, c]) == Next(Next(Next(s, a), b), c)
  {
    TwoSteps(s, a, b);
    OneMore(s, [a, b], c);
    hide *;
    assert [a, b] + [c] == [a, b, c];
  }

  lemma {:induction false} RunConcat(s: System, a: seq<Step>, b: seq<Step>)
    ensures RunSteps(s, a + b) == RunSteps(RunSteps(s, a), b)
  {
    if b == [] {
      assert a + b == a;
    } else {
      RunConcat(s, a, b[..|b| - 1]);
      assert (a + b)[..|a + b| - 1] == a + b[..|b| - 1];
    }
  }

  /** The task crashes on the worker; a permitted retry makes it ready again once its delay is over. */
  lemma FailOnWorker(s: System, id: TaskId, w: WorkerId, error: Failure)
    requires Ready(s, id, w)
    ensures var r := RunSteps(Attempt(s, id, w), [Crash(w, error), Mature(id)]);
      && r.ledger.started == s.ledger.started + multiset{id} && r.ledger.submitted == s.ledger.submitted
      && (RetriesNow(s, id, error) ==>
            && Ready(r, id, w) && r.tasks[id].policy == s.tasks[id].policy
            && r.tasks[id].retryCount == s.tasks[id].retryCount + 1)
  {
    var t := Attempt(s, id, w);
    TwoSteps(t, Crash(w, error), Mature(id));
    assert t.running == map[w := Execution(id, true)] && Busy(t, w);
    CrashLeaves(t, id, w, error);
    var u := Next(t, Crash(w, error));
    if RetriesNow(s, id, error) {
      if u.delayed == multiset{id} {
        assert u.delayed - multiset{id} == multiset{};
      } else {
        assert id !in u.delayed;
      }
    }
  }

  lemma CrashLeaves(t: System, id: TaskId, w: WorkerId, error: Failure)
    requires t.running == map[w := Execution(id, true)] && id in t.tasks
    requires t.queued == {} && t.delayed == multiset{} && t.held.None? && t.handoff == []
    requires t.capacity.Some? ==> t.capacity.value >= 1
    ensures var u := Next(t, Crash(w, error));
      && u.running == map[] && u.held.None? && u.handoff == [] && u.ledger == t.ledger && id in u.tasks
      && u.poolStarted == t.poolStarted && u.workers == t.workers && u.capacity == t.capacity
      && (if RetriesNow(t, id, error) then
            && u.tasks[id].policy == t.tasks[id].policy && u.tasks[id].retryCount == t.tasks[id].retryCount + 1
            && ((u.queued == {} && u.delayed == multiset{id}) || (u.queued == {id} && u.delayed == multiset{}))
          else u.queued == {} && u.delayed == multiset{})
  {
    var settled := SetStatus(t.(failed := t.failed + 1), id, Failed);
    assert RetriesNow(settled, id, error) == RetriesNow(t, id, error);
    assert map[w := Execution(id, true)] - {w} == map[];
    hide ShouldRetry, CalculateDelay;
  }

  /** From a ready state, as many executions as there are retries left, and one. */
  lemma {:induction false} KeepFailing(s: System, id: TaskId, w: WorkerId, error: Failure) returns (steps: seq<Step>)
    requires Ready(s, id, w) && s.tasks[id].policy.Some? && Retryable(s.tasks[id].policy.value, error)
    ensures var r := RunSteps(s, steps);
      && r.ledger.submitted == s.ledger.submitted
      && r.ledger.started[id] == s.ledger.started[id] + 1 + (Cap(s.tasks[id]) - s.tasks[id].retryCount)
    decreases Cap(s.tasks[id]) - s.tasks[id].retryCount
  {
    var round := [Take(id), Deliver, Start(w)] + [Crash(w, error), Mature(id)];
    var r := RunSteps(s, round);
    RunConcat(s, [Take(id), Deliver, Start(w)], [Crash(w, error), Mature(id)]);
    ReachWorker(s, id, w);
    FailOnWorker(s, id, w, error);
    hide RunSteps, Attempt, Retryable;
    if RetriesNow(s, id, error) {
      var rest := KeepFailing(r, id, w, error);
      RunConcat(s, round, rest);
      steps := round + rest;
    } else {
      steps := round;
    }
  }

  /** For every task with a retry policy some run makes it start exactly as often as the bound allows. */
  lemma BoundIsReached(s: System, id: TaskId, w: WorkerId, error: Failure) returns (steps: seq<Step>)
    requires Untouched(s) && id in s.tasks && w in s.workers && (s.capacity.Some? ==> s.capacity.value >= 1)
    requires s.tasks[id].policy.Some? && Retryable(s.tasks[id].policy.value, error)
    ensures var r := RunSteps(s, steps);
      && r.ledger.submitted[id] == 1
      && r.ledger.started[id] == 1 + (Cap(s.tasks[id]) - s.tasks[id].retryCount)
  {
    var first := RunSteps(s, [Submit(id, 0.0)]);
    TwoSteps(s, Submit(id, 0.0), StopPool);
    assert Ready(first, id, w);
    var rest := KeepFailing(first, id, w, error);
    RunConcat(s, [Submit(id, 0.0)], rest);
    steps := [Submit(id, 0.0)] + rest;
  }
}
