/**
  The tracker of delayed tasks. A poll releases exactly the tasks that are due, by due time and then by the
  order in which they came; how often the tracker polls does not change the order in which tasks come out.
 */
module Delayed {
  import opened Wrappers
  import opened EntryHeap
  import opened EventReplay

  type Timers = set<Entry<TaskId>>

  predicate IsDue(e: Entry<TaskId>, now: real) {
    e.key.At? && e.key.value <= now
  }

  ghost function Due(h: Timers, now: real): (r: Timers)
    ensures r <= h
  {
    set e | e in h && IsDue(e, now)
  }

  /** The entries a poll at `now` releases, in order. */
  ghost function Released(h: Timers, now: real): seq<Entry<TaskId>>
    requires Numbered(h)
  {
    Sorted(Due(h, now))
  }

  // ---------- sorting in two parts ----------

  ghost predicate AllBefore(a: Timers, b: Timers) {
    forall x, y :: x in a && y in b ==> Before(x, y)
  }

  lemma LeastOfBoth(a: Timers, b: Timers)
    requires a != {} && Numbered(a + b) && AllBefore(a, b)
    ensures Numbered(a) && Least(a + b) == Least(a)
  {
    var e := Least(a);
    assert e in a + b;
    LeastIsUnique(a + b, e);
  }

  lemma SplitLess(a: Timers, b: Timers, e: Entry<TaskId>)
    requires Numbered(a + b) && a !! b && AllBefore(a, b) && e in a
    ensures Numbered(a) && Numbered(b) && Numbered(a - {e} + b) && AllBefore(a - {e}, b)
    ensures (a + b) - {e} == a - {e} + b
  {
  }

  lemma ConsConcat<T>(x: T, s: seq<T>, t: seq<T>)
    ensures [x] + (s + t) == ([x] + s) + t
  {
  }

  lemma SortedEmpty()
    ensures Sorted<TaskId>({}) == []
  {
  }

  lemma {:induction false} SortedSplits(a: Timers, b: Timers)
    requires Numbered(a + b) && a !! b && AllBefore(a, b) && Numbered(a) && Numbered(b)
    ensures Sorted(a + b) == Sorted(a) + Sorted(b)
  {
    if a == {} {
      hide *;
      SortedEmpty();
      assert a + b == b;
      assert [] + Sorted(b) == Sorted(b);
    } else {
      var e := Least(a);
      assert e in a && Numbered(a - {e});
      hide *;
      LeastOfBoth(a, b);
      SplitLess(a, b, e);
      SortedSplits(a - {e}, b);
      SortedUnfolds(a + b);
      SortedUnfolds(a);
      ConsConcat(e, Sorted(a - {e}), Sorted(b));
    }
  }

  /** Two polls release together, in the same order, what the later one alone would have released. */
  lemma PollsCompose(h: Timers, first: real, second: real)
    requires Numbered(h) && first <= second
    ensures Released(h, first) + Released(h - Due(h, first), second) == Released(h, second)
    ensures (h - Due(h, first)) - Due(h - Due(h, first), second) == h - Due(h, second)
  {
    var early, late := Due(h, first), Due(h - Due(h, first), second);
    assert early + late == Due(h, second);
    assert AllBefore(early, late) && Numbered(early) && Numbered(late);
    SortedSplits(early, late);
  }

  // ---------- runs of additions and polls ----------

  datatype Timer = Timer(heap: Timers, counter: nat)

  datatype TimerOp = Add(task: TaskId, delay: real, at: real) | PollAt(at: real)

  ghost predicate Shaped(t: Timer) {
    Numbered(t.heap) && forall e :: e in t.heap ==> e.key.At? && e.number < t.counter
  }

  /** The entries an operation adds: none for a poll, or for a task without a positive delay. */
  function NewEntries(t: Timer, op: TimerOp): Timers {
    if op.Add? && op.delay > 0.0 then {Entry(At(op.at + op.delay), t.counter, op.task)} else {}
  }

  ghost function TimerStep(t: Timer, op: TimerOp): (r: Timer)
    requires Shaped(t)
    ensures Shaped(r)
  {
    match op
    case Add(_, delay, _) => Timer(t.heap + NewEntries(t, op), if delay > 0.0 then t.counter + 1 else t.counter)
    case PollAt(at) => t.(heap := t.heap - Due(t.heap, at))
  }

  ghost function TimerRun(t: Timer, ops: seq<TimerOp>): (r: Timer)
    requires Shaped(t)
    ensures Shaped(r)
  {
    if ops == [] then t else TimerStep(TimerRun(t, ops[..|ops| - 1]), ops[|ops| - 1])
  }

  /** Every entry there ever was. */
  ghost function Everything(t: Timer, ops: seq<TimerOp>): Timers
    requires Shaped(t)
  {
    if ops == [] then t.heap
    else
      var front := ops[..|ops| - 1];
      Everything(t, front) + NewEntries(TimerRun(t, front), ops[|ops| - 1])
  }

  /** What the polls of a run released, in order. */
  ghost function ReleasedBy(t: Timer, ops: seq<TimerOp>): seq<Entry<TaskId>>
    requires Shaped(t)
  {
    if ops == [] then []
    else
      var front := ops[..|ops| - 1];
      ReleasedBy(t, front)
      + if ops[|ops| - 1].PollAt? then Released(TimerRun(t, front).heap, ops[|ops| - 1].at) else []
  }

  /** The clock never goes back. */
  ghost predicate Ascending(ops: seq<TimerOp>) {
    forall i, j :: 0 <= i < j < |ops| ==> ops[i].at <= ops[j].at
  }

  function LastPoll(ops: seq<TimerOp>): Option<real> {
    if ops == [] then None
    else if ops[|ops| - 1].PollAt? then Some(ops[|ops| - 1].at)
    else LastPoll(ops[..|ops| - 1])
  }

  ghost function DueBy(h: Timers, poll: Option<real>): (r: Timers)
    ensures r <= h
  {
    if poll.None? then {} else Due(h, poll.value)
  }

  lemma {:induction false} LastPollIsPast(ops: seq<TimerOp>, now: real)
    requires forall op :: op in ops ==> op.at <= now
    ensures LastPoll(ops).Some? ==> LastPoll(ops).value <= now
  {
    if ops != [] {
      assert ops[|ops| - 1] in ops;
      LastPollIsPast(ops[..|ops| - 1], now);
    }
  }

  /** The numbers handed out stay distinct, also over the entries already released. */
  lemma {:induction false} EverythingIsNumbered(t: Timer, ops: seq<TimerOp>)
    requires Shaped(t)
    ensures Shaped(Timer(Everything(t, ops), TimerRun(t, ops).counter))
  {
    if ops != [] {
      EverythingIsNumbered(t, ops[..|ops| - 1]);
    }
  }

  /** A task added after the last poll is due only later. */
  lemma AddedIsNotDue(all: Timers, e: Entry<TaskId>, poll: Option<real>)
    requires e.key.At? && (poll.Some? ==> poll.value < e.key.value)
    ensures DueBy(all + {e}, poll) == DueBy(all, poll)
    ensures (all - DueBy(all, poll)) + {e} == all + {e} - DueBy(all + {e}, poll)
  {
  }

  lemma PollCatchesUp(all: Timers, poll: Option<real>, now: real)
    requires Numbered(all) && (poll.Some? ==> poll.value <= now)
    ensures Numbered(DueBy(all, poll)) && Numbered(all - DueBy(all, poll))
    ensures Sorted(DueBy(all, poll)) + Released(all - DueBy(all, poll), now) == Released(all, now)
    ensures (all - DueBy(all, poll)) - Due(all - DueBy(all, poll), now) == all - Due(all, now)
  {
    if poll.Some? {
      PollsCompose(all, poll.value, now);
    } else {
      assert all - {} == all && [] + Released(all, now) == Released(all, now);
    }
  }

  /** What the tracker has released and what it holds, given everything it was ever handed. */
  ghost predicate CaughtUp(t: Timer, ops: seq<TimerOp>)
    requires Shaped(t)
  {
    var all := Everything(t, ops);
    && Numbered(all) && TimerRun(t, ops).heap == all - DueBy(all, LastPoll(ops))
    && ReleasedBy(t, ops) == Sorted(DueBy(all, LastPoll(ops)))
  }

  lemma OneMoreOp(t: Timer, front: seq<TimerOp>, op: TimerOp)
    requires Shaped(t)
    ensures TimerRun(t, front + [op]) == TimerStep(TimerRun(t, front), op)
    ensures Everything(t, front + [op]) == Everything(t, front) + NewEntries(TimerRun(t, front), op)
    ensures ReleasedBy(t, front + [op]) ==
      ReleasedBy(t, front) + if op.PollAt? then Released(TimerRun(t, front).heap, op.at) else []
    ensures LastPoll(front + [op]) == if op.PollAt? then Some(op.at) else LastPoll(front)
  {
    assert (front + [op])[..|front + [op]| - 1] == front;
  }

  lemma PollKeepsCaughtUp(t: Timer, front: seq<TimerOp>, now: real)
    requires Shaped(t) && CaughtUp(t, front) && (LastPoll(front).Some? ==> LastPoll(front).value <= now)
    ensures CaughtUp(t, front + [PollAt(now)])
  {
    hide TimerRun, Everything, ReleasedBy, LastPoll, Sorted, Due, Numbered, Shaped;
    OneMoreOp(t, front, PollAt(now));
    var all := Everything(t, front);
    assert all + {} == all;
    PollCatchesUp(all, LastPoll(front), now);
  }

  lemma AddKeepsCaughtUp(t: Timer, front: seq<TimerOp>, op: TimerOp)
    requires Shaped(t) && CaughtUp(t, front) && (LastPoll(front).Some? ==> LastPoll(front).value <= op.at) && op.Add?
    ensures CaughtUp(t, front + [op])
  {
    EverythingIsNumbered(t, front + [op]);
    ShapedIsNumbered(Timer(Everything(t, front + [op]), TimerRun(t, front + [op]).counter));
    hide TimerRun, Everything, ReleasedBy, LastPoll, Sorted, Due, Numbered, Shaped, DueBy;
    OneMoreOp(t, front, op);
    var all, before := Everything(t, front), TimerRun(t, front);
    assert ReleasedBy(t, front) + [] == ReleasedBy(t, front);
    if op.delay > 0.0 {
      AddedIsNotDue(all, Entry(At(op.at + op.delay), before.counter, op.task), LastPoll(front));
    } else {
      assert all + {} == all && before.heap + {} == before.heap;
    }
  }

  lemma ShapedIsNumbered(t: Timer)
    requires Shaped(t)
    ensures Numbered(t.heap)
  {
  }

  /**
    Whenever tasks were added and however often the tracker polled, it has released what one poll at its last
    polling time would release of everything it was ever handed, in that order, and holds the rest.
   */
  lemma {:induction false} PollingRateIsInvisible(t: Timer, ops: seq<TimerOp>)
    requires Shaped(t) && Ascending(ops)
    ensures CaughtUp(t, ops)
  {
    if ops == [] {
      assert t.heap - {} == t.heap;
    } else {
      var front, op := ops[..|ops| - 1], ops[|ops| - 1];
      assert ops == front + [op];
      PollingRateIsInvisible(t, front);
      LastPollIsPast(front, op.at);
      if op.PollAt? {
        PollKeepsCaughtUp(t, front, op.at);
      } else {
        AddKeepsCaughtUp(t, front, op);
      }
    }
  }

  /** Released entries come out by due time, and in order of arrival when due together. */
  lemma ReleaseOrder(h: Timers, now: real, i: int, j: int)
    requires Numbered(h) && 0 <= i < j < |Released(h, now)|
    ensures var a, b := Released(h, now)[i], Released(h, now)[j];
      && a.key.At? && b.key.At? && a.key.value <= b.key.value <= now
      && (a.key == b.key ==> a.number < b.number)
  {
    SortedIsSorted(Due(h, now), i, j);
    assert Released(h, now)[i] in Due(h, now) && Released(h, now)[j] in Due(h, now);
  }

  class DelayedTaskTracker {
    var heap: Timers
    var counter: nat

    ghost function State(): Timer
      reads this
    {
      Timer(heap, counter)
    }

    ghost predicate Valid()
      reads this
    {
      Shaped(State())
    }

    constructor ()
      ensures Valid() && heap == {}
    {
      heap, counter := {}, 0;
    }

    /** A task without a delay is ready at once and never enters the heap. */
    method AddDelayedTask(task: TaskId, delay: real, now: real) returns (ready: bool)
      requires Valid()
      modifies this
      ensures Valid() && ready == (delay <= 0.0)
      ensures State() == TimerStep(old(State()), Add(task, delay, now))
      ensures |heap| == |old(heap)| + if ready then 0 else 1
    {
      if delay <= 0.0 {
        return true;
      }
      heap := heap + {Entry(At(now + delay), counter, task)};
      counter := counter + 1;
      return false;
    }

    /** One turn of the release loop: pop while the least entry is due. */
    method Poll(now: real) returns (triggered: seq<TaskId>)
      requires Valid()
      modifies this
      ensures Valid() && State() == TimerStep(old(State()), PollAt(now))
      ensures triggered == Items(Released(old(heap), now))
      ensures forall e :: e in heap ==> e.key.value > now
    {
      hide Released, Due, Polling, Items, Before;
      triggered := [];
      ghost var popped: seq<Entry<TaskId>> := [];
      StartPolling(heap, now);
      while heap != {}
        invariant Valid() && counter == old(counter)
        invariant triggered == Items(popped) && Polling(old(heap), heap, popped, now)
        decreases |heap|
      {
        var e := LeastEntry(heap);
        if e.key.value > now {
          DonePolling(old(heap), heap, popped, now);
          return;
        }
        PollOne(old(heap), heap, popped, now);
        heap := heap - {e};
        triggered := triggered + [e.item];
        popped := popped + [e];
      }
      DonePolling(old(heap), heap, popped, now);
    }
  }

  // ---------- the release loop ----------

  ghost predicate Timed(h: Timers) {
    forall e :: e in h ==> e.key.At?
  }

  /** What was popped, and what is still to pop, is what a poll releases. */
  ghost predicate Polling(start: Timers, h: Timers, popped: seq<Entry<TaskId>>, now: real) {
    && h <= start && Timed(start) && Numbered(start)
    && popped + Released(h, now) == Released(start, now)
    && forall e :: e in start && e !in h ==> IsDue(e, now)
  }

  lemma StartPolling(h: Timers, now: real)
    requires Numbered(h) && forall e :: e in h ==> e.key.At?
    ensures Polling(h, h, [], now) && Items<TaskId>([]) == []
  {
  }

  lemma PollOne(start: Timers, h: Timers, popped: seq<Entry<TaskId>>, now: real)
    requires Polling(start, h, popped, now) && h != {}
    requires Numbered(h) && IsLeast(h, Least(h)) && IsDue(Least(h), now)
    ensures Polling(start, h - {Least(h)}, popped + [Least(h)], now)
    ensures Items(popped + [Least(h)]) == Items(popped) + [Least(h).item]
  {
    var e := Least(h);
    PopDue(h, now);
    assert popped + ([e] + Released(h - {e}, now)) == (popped + [e]) + Released(h - {e}, now);
  }

  lemma DonePolling(start: Timers, h: Timers, popped: seq<Entry<TaskId>>, now: real)
    requires Polling(start, h, popped, now) && (h == {} || (Numbered(h) && !IsDue(Least(h), now)))
    ensures popped == Released(start, now) && h == start - Due(start, now)
    ensures forall e :: e in h ==> e.key.At? && e.key.value > now
  {
    NothingDue(h, now);
  }

  lemma NothingDue(h: Timers, now: real)
    requires Numbered(h) && Timed(h) && (h == {} || !IsDue(Least(h), now))
    ensures Due(h, now) == {} && Released(h, now) == []
  {
    if h != {} {
      var least := Least(h);
      forall e | e in h ensures !IsDue(e, now) {
        assert e == least || Before(least, e);
      }
    }
    assert Due(h, now) == {};
  }

  lemma PopDue(h: Timers, now: real)
    requires Numbered(h) && h != {} && IsDue(Least(h), now)
    ensures Released(h, now) == [Least(h)] + Released(h - {Least(h)}, now)
  {
    var e := Least(h);
    assert e in Due(h, now);
    LeastIsUnique(Due(h, now), e);
    assert Due(h, now) - {e} == Due(h - {e}, now);
  }
}
