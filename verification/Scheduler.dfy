/**
  The scheduler and the worker pool as one object whose methods are the steps of SchedulerModel, and the two
  background loops: the pass of the time-out monitor and the release of delayed tasks.
 */
module Scheduler {
  import opened Wrappers
  import opened EventReplay
  import opened Retry
  import opened SchedulerModel
  import opened SchedulerBounds
  import opened SchedulerRounds
  import opened SchedulerEffects

  // ---------- the two loops as runs ----------

  /** The callbacks for the tasks a poll released. */
  function Matures(released: seq<TaskId>): (r: seq<Step>)
    ensures |r| == |released|
  {
    seq(|released|, i requires 0 <= i < |released| => Mature(released[i]))
  }

  lemma ReleaseGrows(s: System, released: seq<TaskId>, i: nat)
    requires i < |released|
    ensures RunSteps(s, Matures(released[..i + 1])) == Next(RunSteps(s, Matures(released[..i])), Mature(released[i]))
  {
    assert Matures(released[..i + 1]) == Matures(released[..i]) + [Mature(released[i])];
    OneMore(s, Matures(released[..i]), Mature(released[i]));
  }

  /** One time-out disarms its own execution. */
  lemma TimeOutDisarms(s: System, w: WorkerId, elapsed: real)
    ensures !Enabled(Next(s, TimeOut(w, elapsed)), TimeOut(w, elapsed))
  {
    if Enabled(s, TimeOut(w, elapsed)) {
      ExpireRunning(s, w);
      hide Expire;
    }
  }

  /** It arms no other. */
  lemma TimeOutArmsNone(s: System, w: WorkerId, elapsed: real, v: WorkerId, bound: real)
    requires !Enabled(s, TimeOut(v, bound))
    ensures !Enabled(Next(s, TimeOut(w, elapsed)), TimeOut(v, bound))
  {
    if Enabled(s, TimeOut(w, elapsed)) {
      ExpireRunning(s, w);
      StepEvolves(s, TimeOut(w, elapsed));
      hide Expire, Cap;
    }
  }

  /** After a pass no execution it looked at can time out again. */
  lemma {:induction false} PassIsComplete(s: System, active: seq<WorkerId>, elapsed: WorkerId -> real, v: WorkerId)
    requires v in active
    ensures !Enabled(RunSteps(s, TimeOuts(active, elapsed)), TimeOut(v, elapsed(v)))
  {
    var n := |active| - 1;
    var before := RunSteps(s, TimeOuts(active[..n], elapsed));
    PassGrows(s, active, elapsed, n);
    assert active[..n + 1] == active && active == active[..n] + [active[n]];
    if v == active[n] {
      TimeOutDisarms(before, v, elapsed(v));
    } else {
      PassIsComplete(s, active[..n], elapsed, v);
      TimeOutArmsNone(before, active[n], elapsed(active[n]), v, elapsed(v));
    }
  }

  /** So a second pass at the same moment changes nothing. */
  lemma {:induction false} SecondPassIsIdle(s: System, active: seq<WorkerId>, elapsed: WorkerId -> real)
    requires forall v :: v in active ==> !Enabled(s, TimeOut(v, elapsed(v)))
    ensures RunSteps(s, TimeOuts(active, elapsed)) == s
  {
    if active != [] {
      var n := |active| - 1;
      assert active[n] in active && active[..n + 1] == active;
      SecondPassIsIdle(s, active[..n], elapsed);
      PassGrows(s, active, elapsed, n);
    }
  }

  class IntelligentScheduler {
    // task objects and the queue
    var tasks: map<TaskId, Work>
    const capacity: Option<nat>
    var queued: set<TaskId>
    // the delayed-task tracker
    var delayed: multiset<TaskId>
    // the orchestrator between queue and pool
    var held: Option<TaskId>
    // the worker pool
    var handoff: seq<TaskId>
    var poolStarted: bool
    const workers: set<WorkerId>
    var running: map<WorkerId, Execution>
    var tasksCompleted: nat
    var tasksFailed: nat
    ghost var ledger: Ledger
    ghost var waits: seq<Wait>

    ghost function State(): System
      reads this
    {
      System(tasks, capacity, queued, delayed, held, handoff, poolStarted, workers, running,
             tasksCompleted, tasksFailed, ledger, waits)
    }

    constructor (tasks: map<TaskId, Work>, capacity: Option<nat>, workers: set<WorkerId>)
      ensures Untouched(State()) && this.tasks == tasks && this.capacity == capacity && this.workers == workers
    {
      this.tasks, this.capacity, this.workers := tasks, capacity, workers;
      queued, delayed, held, handoff := {}, multiset{}, None, [];
      poolStarted, running, tasksCompleted, tasksFailed := true, map[], 0, 0;
      ledger, waits := Ledger(multiset{}, multiset{}, multiset{}, multiset{}), [];
    }

    /** Enqueue for the callbacks, which swallow a full queue's refusal. */
    method OnDelayedTaskReady(id: TaskId)
      modifies this
      ensures State() == Arrive(old(State()), id)
      ensures NoRoomFor(old(State()), id) ==> queued == old(queued) && ledger.lost == old(ledger).lost + multiset{id}
      ensures !NoRoomFor(old(State()), id) ==> queued == old(queued) + {id} && ledger.lost == old(ledger).lost
    {
      if (capacity.Some? && |queued| >= capacity.value) || id in queued {
        ledger := ledger.(lost := ledger.lost + multiset{id});
      } else {
        queued := queued + {id};
      }
    }

    /** Into the tracker's heap, to fall due after so many seconds. */
    method HoldBack(id: TaskId, delay: real, ghost retry: bool)
      modifies this`delayed, this`waits
      ensures State() == SchedulerModel.HoldBack(old(State()), Wait(id, delay, retry))
    {
      delayed := delayed + multiset{id};
      waits := waits + [Wait(id, delay, retry)];
    }

    /** A refused submission leaves no trace; the caller gets the queue's error. */
    method Schedule(id: TaskId, delay: real) returns (accepted: bool)
      requires id in tasks
      modifies this
      ensures State() == Next(old(State()), Submit(id, delay)) && accepted == Enabled(old(State()), Submit(id, delay))
      ensures accepted <==> delay > 0.0 || capacity.None? || |old(queued)| < capacity.value
      ensures !accepted ==> State() == old(State())
      ensures delay > 0.0 ==> delayed == old(delayed) + multiset{id} && queued == old(queued)
      ensures delay > 0.0 ==> waits == old(waits) + [Wait(id, delay, false)]
      ensures delay <= 0.0 ==> delayed == old(delayed) && waits == old(waits)
      ensures accepted && delay <= 0.0 ==> queued == old(queued) + {id}
    {
      if delay <= 0.0 && capacity.Some? && |queued| >= capacity.value {
        return false;
      }
      ledger := ledger.(submitted := ledger.submitted + multiset{id});
      if delay > 0.0 {
        HoldBack(id, delay, false);
      } else {
        OnDelayedTaskReady(id);
      }
      return true;
    }

    method HandleTaskFailure(id: TaskId, error: Failure)
      requires id in tasks
      modifies this
      ensures State() == HandleFailure(old(State()), id, error)
      ensures !Grants(old(tasks)[id], error) ==> State() == old(State())
      ensures Grants(old(tasks)[id], error) ==> FailureHandled(old(State()), State(), id, error)
    {
      RetryIsPlaced(State(), id, error);
      hide Retryable, Pow, Arrive, Grants, FailureHandled;
      var work := tasks[id];
      if ShouldRetry(work.policy, work.retryCount, error) {
        var count := work.retryCount + 1;
        tasks := tasks[id := work.(retryCount := count, status := Pending)];
        var delay := CalculateDelay(work.policy.value, count);
        if delay <= 0.0 {
          OnDelayedTaskReady(id);
        } else {
          HoldBack(id, delay, true);
        }
      }
    }

    /** The orchestrator takes what the queue's policy names, when some worker is idle. */
    method TakeNext(id: TaskId)
      modifies this
      ensures State() == Next(old(State()), Take(id))
      ensures var taken := id in old(queued) && old(held).None? && poolStarted && workers - running.Keys != {};
        && queued == (if taken then old(queued) - {id} else old(queued))
        && held == if taken then Some(id) else old(held)
    {
      if id in queued && held.None? && poolStarted && workers - running.Keys != {} {
        queued := queued - {id};
        held := Some(id);
      }
    }

    /** Handing over to a pool that has stopped in the meantime loses the task. */
    method SubmitToPool()
      modifies this
      ensures State() == Next(old(State()), Deliver)
      ensures held.None?
      ensures handoff == if old(held).Some? && poolStarted then old(handoff) + [old(held).value] else old(handoff)
      ensures old(held).None? ==> State() == old(State())
      ensures old(held).Some? && !poolStarted ==> ledger.lost == old(ledger).lost + multiset{old(held).value}
    {
      if held.Some? {
        if poolStarted {
          handoff := handoff + [held.value];
        } else {
          ledger := ledger.(lost := ledger.lost + multiset{held.value});
        }
        held := None;
      }
    }

    method WorkerStarts(w: WorkerId)
      modifies this
      ensures State() == Next(old(State()), Start(w))
      ensures poolStarted && w in workers && w !in old(running) && old(handoff) != [] && old(handoff)[0] in old(tasks) ==>
        var id := old(handoff)[0];
        && handoff == old(handoff)[1..] && running == old(running)[w := Execution(id, true)]
        && tasks == old(tasks)[id := old(tasks)[id].(status := Running)]
      ensures !(poolStarted && w in workers && w !in old(running) && old(handoff) != [] && old(handoff)[0] in old(tasks))
        ==> State() == old(State())
    {
      if poolStarted && w in workers && w !in running && handoff != [] && handoff[0] in tasks {
        var id := handoff[0];
        handoff := handoff[1..];
        running := running[w := Execution(id, true)];
        ledger := ledger.(started := ledger.started + multiset{id});
        tasks := tasks[id := tasks[id].(status := Running)];
      }
    }

    method WorkerFinishes(w: WorkerId)
      modifies this
      ensures State() == Next(old(State()), Finish(w))
      ensures w in old(running) && old(running)[w].task in old(tasks) ==>
        var id := old(running)[w].task; var work := old(tasks)[id];
        && running == old(running) - {w} && tasksCompleted == old(tasksCompleted) + 1
        && tasks == old(tasks)[id := work.(status := if work.status == Failed then Failed else Completed)]
      ensures !(w in old(running) && old(running)[w].task in old(tasks)) ==> State() == old(State())
    {
      if w in running && running[w].task in tasks {
        var id := running[w].task;
        if tasks[id].status != Failed {
          tasks := tasks[id := tasks[id].(status := Completed)];
        }
        tasksCompleted := tasksCompleted + 1;
        running := running - {w};
      }
    }

    method WorkerCrashes(w: WorkerId, error: Failure)
      modifies this
      ensures State() == Next(old(State()), Crash(w, error))
      ensures w in old(running) && old(running)[w].task in old(tasks) ==>
        && FailureHandled(old(State()), State(), old(running)[w].task, error)
        && running == old(running) - {w} && tasksFailed == old(tasksFailed) + 1
      ensures !(w in old(running) && old(running)[w].task in old(tasks)) ==> State() == old(State())
    {
      hide HandleFailure, FailureHandled, Grants;
      if w in running && running[w].task in tasks {
        CrashIsHandled(State(), w, error);
        hide Next;
        ghost var s := State();
        var id := running[w].task;
        tasks := tasks[id := tasks[id].(status := Failed)];
        tasksFailed := tasksFailed + 1;
        HandleTaskFailure(id, error);
        assert State() == FailWith(s, id, error);
        hide FailWith;
        running := running - {w};
        assert State() == Free(FailWith(s, id, error), w);
      }
    }

    /** One pass of the monitor: every armed execution over its limit is disarmed and failed. */
    method CheckTimeouts(active: seq<WorkerId>, elapsed: WorkerId -> real)
      modifies this
      ensures State() == RunSteps(old(State()), TimeOuts(active, elapsed))
      ensures TimedOutExactly(old(State()), State(), Late(old(State()), active, elapsed))
      ensures forall v :: v in active ==> !Enabled(State(), TimeOut(v, elapsed(v)))
    {
      ghost var s := State();
      PassTimesOutExactly(s, active, elapsed);
      hide TimedOutExactly;
      for i := 0 to |active|
        invariant State() == RunSteps(s, TimeOuts(active[..i], elapsed))
      {
        PassGrows(s, active, elapsed, i);
        CheckTimeout(active[i], elapsed(active[i]));
      }
      assert active[..|active|] == active;
      forall v | v in active ensures !Enabled(State(), TimeOut(v, elapsed(v))) {
        PassIsComplete(s, active, elapsed, v);
      }
    }

    method CheckTimeout(w: WorkerId, elapsed: real)
      modifies this
      ensures State() == Next(old(State()), TimeOut(w, elapsed))
    {
      hide HandleFailure, RunSteps, FailureHandled, Grants;
      if w in running && running[w].task in tasks && running[w].armed {
        ghost var s := State();
        var id := running[w].task;
        if tasks[id].timeLimit.Some? && elapsed > tasks[id].timeLimit.value {
          running := running[w := Execution(id, false)];
          tasks := tasks[id := tasks[id].(status := Failed)];
          tasksFailed := tasksFailed + 1;
          ledger := ledger.(timedOut := ledger.timedOut + multiset{id});
          HandleTaskFailure(id, TIMEOUT_ERROR);
          assert State() == Expire(s, w);
          hide Expire;
        }
      }
    }

    /** The tracker's callbacks, one for each task a poll released. */
    method ReleaseDelayed(released: seq<TaskId>)
      modifies this
      ensures State() == RunSteps(old(State()), Matures(released))
    {
      ghost var s := State();
      for i := 0 to |released|
        invariant State() == RunSteps(s, Matures(released[..i]))
      {
        ReleaseGrows(s, released, i);
        if released[i] in delayed {
          delayed := delayed - multiset{released[i]};
          OnDelayedTaskReady(released[i]);
        }
      }
      assert released[..|released|] == released;
    }
  }
}
