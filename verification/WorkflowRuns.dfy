/**
  Whole runs of a workflow: every run of harmless events and commands stays consistent and dispatches
  in dependency order, no running workflow is deadlocked, and every run of legal events ends.
 */
module WorkflowRuns {
  import opened Sequences
  import opened Graphs
  import opened Kahn
  import opened LevelResolution
  import opened Planner
  import opened Workflow
  import opened WorkflowSafety

  /** An instance together with everything dispatched so far. */
  datatype RunState = RunState(inst: WorkflowInstance, log: seq<Dispatch>)

  ghost function Begun(
    id: string, definition: WorkflowDefinition, inputs: map<string, Value>, plan: ExecutionPlan): (s: RunState)
    requires IsDag(definition.graph)
    ensures Tracked(s.inst) && s.inst.definition == definition
  {
    var started := StartStep(id, definition, inputs, plan);
    RunState(started.inst, started.dispatches)
  }

  ghost function Run(s: RunState, actions: seq<Action>): (r: RunState)
    requires Tracked(s.inst)
    ensures Follows(s.inst, r.inst)
  {
    if actions == [] then s
    else
      var before := Run(s, actions[..|actions| - 1]);
      var stepped := Step(before.inst, actions[|actions| - 1]);
      RunState(stepped.inst, before.log + stepped.dispatches)
  }

  /** Every delivered event is harmless when it arrives; commands may come at any time. */
  ghost predicate HarmlessRun(s: RunState, actions: seq<Action>)
    requires Tracked(s.inst)
  {
    actions != [] ==>
      && HarmlessRun(s, actions[..|actions| - 1])
      && (var last := actions[|actions| - 1];
          last.Deliver? ==> Harmless(Run(s, actions[..|actions| - 1]).inst, last.event))
  }

  ghost function DispatchOrder(log: seq<Dispatch>): (r: seq<NodeId>)
    ensures |r| == |log|
  {
    seq(|log|, k requires 0 <= k < |log| => log[k].node)
  }

  /** The log dispatches no node twice, parents before children, and knows every started node. */
  ghost predicate LogSound(g: ExecutionGraph, states: map<NodeId, NodeState>, order: seq<NodeId>) {
    && NoDup(order)
    && (forall n :: n in order ==> n in states && states[n] != NodeState.Pending)
    && (forall n :: n in states && Started(states[n]) ==> n in order)
    && Topological(g, order)
  }

  ghost predicate SafeState(s: RunState) {
    Consistent(s.inst) && LogSound(s.inst.definition.graph, s.inst.nodeStates, DispatchOrder(s.log))
  }

  // ---------- safety of every run ----------

  lemma OrderGrows(log: seq<Dispatch>, i: WorkflowInstance, nodes: seq<NodeId>)
    requires forall n :: n in nodes ==> n in i.definition.graph.nodes
    ensures DispatchOrder(log + DispatchesOf(i, nodes)) == DispatchOrder(log) + nodes
  {
  }

  lemma TopologicalExtends(g: ExecutionGraph, order: seq<NodeId>, more: seq<NodeId>)
    requires Topological(g, order)
    requires forall n, m :: n in more && HasEdge(g, m, n) ==> m in order
    ensures Topological(g, order + more)
  {
    forall k, m | 0 <= k < |order + more| && HasEdge(g, m, (order + more)[k]) ensures m in (order + more)[..k] {
      if k < |order| {
        assert (order + more)[..k] == order[..k];
      } else {
        assert (order + more)[k] in more;
        assert (order + more)[..k] == order + more[..k - |order|];
      }
    }
  }

  lemma NoDupConcat<T(!new)>(a: seq<T>, b: seq<T>)
    requires NoDup(a) && NoDup(b) && forall x :: x in b ==> x !in a
    ensures NoDup(a + b)
  {
    forall i, j | 0 <= i < j < |a + b| ensures (a + b)[i] != (a + b)[j] {
      if i < |a| <= j {
        assert b[j - |a|] in b && a[i] in a;
      }
    }
  }

  lemma DispatchKeepsLog(g: ExecutionGraph, states: map<NodeId, NodeState>, order: seq<NodeId>)
    requires Keyed(g) && states.Keys == g.nodes.Keys && LogSound(g, states, order)
    ensures LogSound(g, DispatchStates(g, states), order + EligibleNodes(g, states))
  {
    hide Topological;
    var more := EligibleNodes(g, states);
    SelectNoDup(g.order, n => Eligible(g, states, n));
    NoDupConcat(order, more);
    forall n, m | n in more && HasEdge(g, m, n) ensures m in order {
      assert Eligible(g, states, n);
      assert Started(states[m]);
    }
    TopologicalExtends(g, order, more);
    forall n | n in states && Started(DispatchStates(g, states)[n]) ensures n in order + more {
      assert n in g.order;
      assert Started(states[n]) || Eligible(g, states, n);
    }
  }

  lemma RestateKeepsLog(
    g: ExecutionGraph, states: map<NodeId, NodeState>, order: seq<NodeId>, states': map<NodeId, NodeState>)
    requires LogSound(g, states, order) && states'.Keys == states.Keys
    requires forall n :: n in states && states[n] != NodeState.Pending ==> states'[n] != NodeState.Pending
    requires forall n :: n in states && Started(states'[n]) ==> Started(states[n])
    ensures LogSound(g, states', order)
  {
  }

  lemma StepIsSafe(s: RunState, a: Action)
    requires SafeState(s) && (a.Deliver? ==> Harmless(s.inst, a.event))
    ensures Tracked(s.inst)
    ensures var r := Step(s.inst, a); SafeState(RunState(r.inst, s.log + r.dispatches))
  {
    hide IsDag, LogSound, Harmless, Consistent;
    ConsistentIsTracked(s.inst);
    var r := Step(s.inst, a);
    assert Consistent(r.inst) by {
      if a.Deliver? {
        HarmlessKeepsConsistent(s.inst, a.event);
      } else {
        CommandKeepsConsistent(s.inst, a);
      }
    }
    StepKeepsLog(s, a);
  }

  /** Dispatching from `i`, whose node states differ from the logged ones only as `RestateKeepsLog` allows. */
  lemma DispatchEligibleKeepsLog(i: WorkflowInstance, log: seq<Dispatch>)
    requires Tracked(i) && i.nodeStates.Keys == i.definition.graph.nodes.Keys
    requires LogSound(i.definition.graph, i.nodeStates, DispatchOrder(log))
    ensures var r := DispatchEligible(i);
      LogSound(i.definition.graph, r.inst.nodeStates, DispatchOrder(log + r.dispatches))
  {
    hide LogSound;
    if i.status == WorkflowStatus.Running {
      DispatchKeepsLog(i.definition.graph, i.nodeStates, DispatchOrder(log));
      OrderGrows(log, i, EligibleNodes(i.definition.graph, i.nodeStates));
    } else {
      assert log + [] == log;
    }
  }

  lemma EventHitsStarted(i: WorkflowInstance, e: NodeEvent)
    requires Consistent(i) && Harmless(i, e) && !Dropped(i, e) && !Raises(i, e) && !e.outcome.Other?
    ensures e.node in i.nodeStates && Started(i.nodeStates[e.node])
  {
    hide IsDag, IsFatal, NoStartedChild;
  }

  lemma EventRestates(i: WorkflowInstance, e: NodeEvent)
    requires Consistent(i) && Harmless(i, e) && !Dropped(i, e) && !Raises(i, e)
    ensures var states' := Recorded(i, e).nodeStates;
      && states'.Keys == i.nodeStates.Keys
      && (forall n :: n in i.nodeStates && i.nodeStates[n] != NodeState.Pending ==> states'[n] != NodeState.Pending)
      && (forall n :: n in i.nodeStates && Started(states'[n]) ==> Started(i.nodeStates[n]))
  {
    if !e.outcome.Other? {
      EventHitsStarted(i, e);
    }
    RecordedIs(i, e);
    hide *;
    EventRestatesOne(i.nodeStates, e.node, Recorded(i, e).nodeStates);
  }

  /** Recording changes at most the event's node, to a state other than pending. */
  lemma RecordedIs(i: WorkflowInstance, e: NodeEvent)
    requires !Dropped(i, e) && !Raises(i, e)
    ensures var r := Recorded(i, e).nodeStates;
      r == i.nodeStates ||
        (!e.outcome.Other? && e.node in r && r[e.node] != NodeState.Pending && r == i.nodeStates[e.node := r[e.node]])
  {
    hide IsFatal;
  }

  lemma EventRestatesOne(states: map<NodeId, NodeState>, hit: NodeId, next: map<NodeId, NodeState>)
    requires next == states ||
      (&& hit in states && Started(states[hit])
       && hit in next && next[hit] != NodeState.Pending && next == states[hit := next[hit]])
    ensures next.Keys == states.Keys
    ensures forall n :: n in states && states[n] != NodeState.Pending ==> next[n] != NodeState.Pending
    ensures forall n :: n in states && Started(next[n]) ==> Started(states[n])
  {
  }

  lemma StepKeepsLog(s: RunState, a: Action)
    requires SafeState(s) && Tracked(s.inst) && (a.Deliver? ==> Harmless(s.inst, a.event))
    ensures var r := Step(s.inst, a);
      LogSound(r.inst.definition.graph, r.inst.nodeStates, DispatchOrder(s.log + r.dispatches))
  {
    hide LogSound, IsDag, Harmless, Consistent, Dropped, Raises, Recorded, DispatchEligible;
    var i := s.inst;
    var order := DispatchOrder(s.log);
    assert s.log + [] == s.log;
    match a {
      case Pause =>
      case Resume =>
        ConsistentIsTracked(i);
        DispatchEligibleKeepsLog(i.(status := WorkflowStatus.Running), s.log);
      case Cancel =>
        RestateKeepsLog(i.definition.graph, i.nodeStates, order, CancelledStates(i.nodeStates));
      case Deliver(e) =>
        if !Dropped(i, e) && !Raises(i, e) {
          EventRestates(i, e);
          ConsistentIsTracked(i);
          RestateKeepsLog(i.definition.graph, i.nodeStates, order, Recorded(i, e).nodeStates);
          DispatchEligibleKeepsLog(Concluded(Recorded(i, e)), s.log);
        }
    }
  }

  lemma StartIsSafe(id: string, definition: WorkflowDefinition, inputs: map<string, Value>, plan: ExecutionPlan)
    requires IsDag(definition.graph)
    ensures SafeState(Begun(id, definition, inputs, plan))
  {
    hide IsDag, Consistent;
    var initial := Fresh(id, definition, inputs, plan);
    StartIsConsistent(id, definition, inputs, plan);
    assert initial.nodeStates.Keys == definition.graph.nodes.Keys;
    DispatchEligibleKeepsLog(initial, []);
    assert [] + DispatchEligible(initial).dispatches == DispatchEligible(initial).dispatches;
  }

  /** Every run of commands and harmless events is consistent and dispatches soundly throughout. */
  lemma {:induction false} RunIsSafe(s: RunState, actions: seq<Action>)
    requires SafeState(s) && Tracked(s.inst) && HarmlessRun(s, actions)
    ensures SafeState(Run(s, actions))
  {
    hide SafeState, Harmless;
    if actions != [] {
      RunIsSafe(s, actions[..|actions| - 1]);
      StepIsSafe(Run(s, actions[..|actions| - 1]), actions[|actions| - 1]);
    }
  }

  // ---------- what a consistent instance tells ----------

  /** On a non-empty graph each final status means exactly one thing about the nodes. */
  lemma StatusIsExact(i: WorkflowInstance)
    requires Consistent(i) && i.definition.graph.order != []
    ensures i.status == WorkflowStatus.Succeeded <==> AllFinished(i.nodeStates)
    ensures i.status == WorkflowStatus.Failed <==> SomeNode(i.nodeStates, NodeState.Failed)
    ensures i.status == WorkflowStatus.Cancelled <==> SomeNode(i.nodeStates, NodeState.Cancelled)
    ensures i.status == WorkflowStatus.Running || i.status == WorkflowStatus.Paused <==>
      SomeUnfinished(i.nodeStates) && !SomeNode(i.nodeStates, NodeState.Failed)
  {
    hide IsDag, DependenciesRespected, DispatchComplete;
    GraphIsInhabited(i);
    var n :| n in i.nodeStates;
    assert Started(i.nodeStates[n]) || Unfinished(i.nodeStates[n]) || i.nodeStates[n] == NodeState.Cancelled;
  }

  lemma GraphIsInhabited(i: WorkflowInstance)
    requires Consistent(i)
    ensures i.nodeStates == map[] <==> i.definition.graph.order == []
  {
    if i.definition.graph.order != [] {
      assert i.definition.graph.order[0] in i.nodeStates;
    }
    if i.nodeStates != map[] {
      var n :| n in i.nodeStates;
      assert n in i.definition.graph.order;
    }
  }

  /** A workflow without nodes starts as running, although every one of its nodes is finished. */
  lemma EmptyWorkflowStartsRunning(
    id: string, definition: WorkflowDefinition, inputs: map<string, Value>, plan: ExecutionPlan)
    requires IsDag(definition.graph)
    ensures var i := Begun(id, definition, inputs, plan).inst;
      i.status == WorkflowStatus.Running && (AllFinished(i.nodeStates) <==> definition.graph.order == [])
  {
    StartIsConsistent(id, definition, inputs, plan);
    var i := Begun(id, definition, inputs, plan).inst;
    GraphIsInhabited(i);
    if definition.graph.order != [] {
      StatusIsExact(i);
    }
  }

  ghost predicate SomeRunning(i: WorkflowInstance) {
    SomeNode(i.nodeStates, NodeState.Running)
  }

  /** Deadlock freedom: an unfinished workflow has a running node. */
  lemma NoDeadlock(i: WorkflowInstance)
    requires Consistent(i) && i.definition.graph.order != []
    requires i.status == WorkflowStatus.Running || i.status == WorkflowStatus.Paused
    ensures SomeRunning(i)
  {
    if !SomeRunning(i) {
      GraphIsInhabited(i);
      var n :| n in i.nodeStates && Unfinished(i.nodeStates[n]);
      assert n in PendingNodes(i);
      WaitingForEver(i);
      hide IsWalk, PendingNodes;
      BackwardClosedHasCycle(i.definition.graph, PendingNodes(i));
    }
  }

  ghost function PendingNodes(i: WorkflowInstance): set<NodeId> {
    set n | n in i.nodeStates && i.nodeStates[n] == NodeState.Pending
  }

  /** If nothing runs, every pending node waits for a pending node. */
  lemma WaitingForEver(i: WorkflowInstance)
    requires Consistent(i) && InProgress(i) && !SomeRunning(i)
    ensures BackwardClosed(i.definition.graph, PendingNodes(i))
  {
    hide Acyclic, DependenciesRespected;
    var g := i.definition.graph;
    forall n | n in PendingNodes(i) ensures HasPredecessorIn(g, PendingNodes(i), n) {
      assert !Eligible(g, i.nodeStates, n);
      var m :| HasEdge(g, m, n) && !(m in i.nodeStates && Finished(i.nodeStates[m]));
      assert GraphEdge(m, n).source in g.nodes;
      assert i.nodeStates[m] != NodeState.Running;
      assert m in PendingNodes(i);
    }
  }

  predicate Terminal(status: WorkflowStatus) {
    status == WorkflowStatus.Succeeded || status == WorkflowStatus.Failed || status == WorkflowStatus.Cancelled
  }

  /** A final status is never left, whatever arrives. */
  lemma {:induction false} TerminalIsAbsorbing(s: RunState, actions: seq<Action>)
    requires Tracked(s.inst) && Terminal(s.inst.status)
    ensures Run(s, actions) == s
  {
    if actions != [] {
      TerminalIsAbsorbing(s, actions[..|actions| - 1]);
      assert s.log + [] == s.log;
    }
  }

  /** A successful run dispatched every node exactly once, in an order that respects every edge. */
  lemma SuccessDispatchesAll(s: RunState)
    requires SafeState(s) && s.inst.status == WorkflowStatus.Succeeded
    ensures TopologicalOrder(s.inst.definition.graph, DispatchOrder(s.log))
  {
    hide IsDag, Topological;
    var i := s.inst;
    forall n ensures n in DispatchOrder(s.log) <==> n in i.definition.graph.nodes {
      assert n in i.nodeStates ==> Started(i.nodeStates[n]);
    }
  }

  lemma LevelDecidesRunning(i: WorkflowInstance, levels: Levels, k: nat, n: NodeId)
    requires Consistent(i) && InProgress(i) && LevelMap(i.definition.graph, levels) && n in i.nodeStates
    requires forall m :: m in i.nodeStates ==> (Finished(i.nodeStates[m]) <==> levels[m] < k)
    ensures i.nodeStates[n] == NodeState.Running <==> levels[n] == k
  {
    hide Acyclic;
    var g := i.definition.graph;
    if levels[n] > k {
      assert HasLevelParent(g, levels, n);
      var m :| m in levels && HasEdge(g, m, n) && levels[m] + 1 == levels[n];
      assert !Finished(i.nodeStates[m]);
      assert Started(i.nodeStates[n]) ==> ParentsFinished(g, i.nodeStates, n);
    } else if levels[n] == k {
      forall m | HasEdge(g, m, n) ensures m in i.nodeStates && Finished(i.nodeStates[m]) {
        assert GraphEdge(m, n).source in g.nodes;
      }
      assert !Eligible(g, i.nodeStates, n);
    }
  }

  /**
    The plan and the runtime agree: when exactly the phases before `k` are finished, exactly phase `k`
    runs.
   */
  lemma PlanAgreesWithRuntime(i: WorkflowInstance, levels: Levels, k: nat, n: NodeId)
    requires Consistent(i) && InProgress(i) && PlanOf(i.definition.graph, levels, i.plan)
    requires forall m :: m in i.nodeStates ==>
      (Finished(i.nodeStates[m]) <==> exists l :: 0 <= l < k && InPhase(i.plan.phases, l, m))
    ensures n in i.nodeStates && i.nodeStates[n] == NodeState.Running <==> InPhase(i.plan.phases, k, n)
  {
    PhasesPartition(i.definition.graph, levels, i.plan.phases);
    hide PhasesByLevel, TracedFrom, Acyclic, InPhase, StatusMatches, InProgress;
    LevelMapKeys(i.definition.graph, levels);
    forall m | m in i.nodeStates ensures Finished(i.nodeStates[m]) <==> levels[m] < k {
      assert InPhase(i.plan.phases, levels[m], m);
    }
    if n in i.nodeStates {
      LevelDecidesRunning(i, levels, k, n);
    }
  }

  // ---------- runs of legal events end ----------

  ghost function UnfinishedNodes(i: WorkflowInstance): set<NodeId> {
    set n | n in i.nodeStates && Unfinished(i.nodeStates[n])
  }

  function Deliveries(events: seq<NodeEvent>): (r: seq<Action>)
    ensures |r| == |events|
  {
    seq(|events|, k requires 0 <= k < |events| => Deliver(events[k]))
  }

  ghost function RunEvents(s: RunState, events: seq<NodeEvent>): (r: RunState)
    requires Tracked(s.inst)
    ensures Follows(s.inst, r.inst)
  {
    if events == [] then s
    else
      var before := RunEvents(s, events[..|events| - 1]);
      var stepped := EventStep(before.inst, events[|events| - 1]);
      RunState(stepped.inst, before.log + stepped.dispatches)
  }

  /** Every event names a node that is running when it arrives, in a running workflow. */
  ghost predicate LegalRun(s: RunState, events: seq<NodeEvent>)
    requires Tracked(s.inst)
  {
    events != [] ==>
      && LegalRun(s, events[..|events| - 1])
      && Legal(RunEvents(s, events[..|events| - 1]).inst, events[|events| - 1])
  }

  lemma LegalIsHarmless(i: WorkflowInstance, e: NodeEvent)
    ensures Legal(i, e) ==> Harmless(i, e)
  {
  }

  /** Event runs are runs, and legal ones are harmless. */
  lemma {:induction false} LegalRunIsHarmless(s: RunState, events: seq<NodeEvent>)
    requires Tracked(s.inst)
    ensures Run(s, Deliveries(events)) == RunEvents(s, events)
    ensures LegalRun(s, events) ==> HarmlessRun(s, Deliveries(events))
  {
    hide Tracked, Legal, Harmless, EventStep;
    if events != [] {
      var front, e := events[..|events| - 1], events[|events| - 1];
      LegalRunIsHarmless(s, front);
      assert Deliveries(events)[..|events| - 1] == Deliveries(front);
      LegalIsHarmless(RunEvents(s, front).inst, e);
    }
  }

  lemma LegalRunIsSafe(s: RunState, events: seq<NodeEvent>)
    requires SafeState(s) && Tracked(s.inst) && LegalRun(s, events)
    ensures SafeState(RunEvents(s, events))
  {
    LegalRunIsHarmless(s, events);
    RunIsSafe(s, Deliveries(events));
  }

  /** A legal event finishes exactly its own node: the number of unfinished nodes falls by one. */
  lemma LegalEventFinishesOne(i: WorkflowInstance, e: NodeEvent)
    requires Tracked(i) && Legal(i, e)
    ensures UnfinishedNodes(EventStep(i, e).inst) == UnfinishedNodes(i) - {e.node}
    ensures e.node in UnfinishedNodes(i)
    ensures |UnfinishedNodes(EventStep(i, e).inst)| == |UnfinishedNodes(i)| - 1
  {
    hide IsDag, Acyclic;
    var recorded := Recorded(i, e);
    var after := EventStep(i, e).inst;
    assert after.nodeStates.Keys == i.nodeStates.Keys;
    assert forall n :: n in i.nodeStates ==>
      (Unfinished(after.nodeStates[n]) <==> Unfinished(recorded.nodeStates[n]));
  }

  lemma {:induction false} LegalRunFinishesEach(s: RunState, events: seq<NodeEvent>)
    requires Tracked(s.inst) && LegalRun(s, events)
    ensures |UnfinishedNodes(RunEvents(s, events).inst)| + |events| == |UnfinishedNodes(s.inst)|
  {
    if events != [] {
      var front := events[..|events| - 1];
      LegalRunFinishesEach(s, front);
      LegalEventFinishesOne(RunEvents(s, front).inst, events[|events| - 1]);
    }
  }

  /** A started workflow takes at most as many legal events as it has nodes, and then it is over. */
  lemma LegalRunsEnd(
    id: string, definition: WorkflowDefinition, inputs: map<string, Value>, plan: ExecutionPlan, events: seq<NodeEvent>)
    requires IsDag(definition.graph) && definition.graph.order != []
    requires LegalRun(Begun(id, definition, inputs, plan), events)
    ensures |events| <= |definition.graph.order|
    ensures |events| == |definition.graph.order| ==>
      Terminal(RunEvents(Begun(id, definition, inputs, plan), events).inst.status)
  {
    var s := Begun(id, definition, inputs, plan);
    StartIsSafe(id, definition, inputs, plan);
    LegalRunFinishesEach(s, events);
    LegalRunIsSafe(s, events);
    var last := RunEvents(s, events).inst;
    BegunIsUnfinished(id, definition, inputs, plan);
    NoDupCardinality(definition.graph.order);
    if !Terminal(last.status) {
      StatusIsExact(last);
      var n :| n in last.nodeStates && Unfinished(last.nodeStates[n]);
      assert n in UnfinishedNodes(last);
    }
  }

  lemma BegunIsUnfinished(id: string, definition: WorkflowDefinition, inputs: map<string, Value>, plan: ExecutionPlan)
    requires IsDag(definition.graph)
    ensures UnfinishedNodes(Begun(id, definition, inputs, plan).inst) == Elems(definition.graph.order)
  {
  }
}
