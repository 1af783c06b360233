/**
  What every reachable workflow instance satisfies: exact statuses, dependency order, dispatch
  completeness, freedom from deadlock, and exactly which events may break this.
 */
module WorkflowSafety {
  import opened Sequences
  import opened Graphs
  import opened Planner
  import opened Workflow

  /** The node was dispatched and not cancelled since. */
  predicate Started(s: NodeState) {
    s == NodeState.Running || s == NodeState.Failed || Finished(s)
  }

  predicate Unfinished(s: NodeState) {
    s == NodeState.Pending || s == NodeState.Running
  }

  ghost predicate SomeNode(states: map<NodeId, NodeState>, s: NodeState) {
    exists n :: n in states && states[n] == s
  }

  ghost predicate SomeUnfinished(states: map<NodeId, NodeState>) {
    exists n :: n in states && Unfinished(states[n])
  }

  ghost predicate AllFinished(states: map<NodeId, NodeState>) {
    forall n :: n in states ==> Finished(states[n])
  }

  /** No pending node is ready: one dispatch pass left nothing to dispatch. */
  ghost predicate DispatchComplete(g: ExecutionGraph, states: map<NodeId, NodeState>) {
    forall n :: n in states ==> !Eligible(g, states, n)
  }

  /** What the status says about the node states. */
  ghost predicate StatusMatches(i: WorkflowInstance) {
    var states := i.nodeStates;
    match i.status
    case Pending => false
    case Running => InProgress(i)
    case Paused => InProgress(i)
    case Succeeded => AllFinished(states)
    case Failed =>
      && SomeNode(states, NodeState.Failed) && !SomeNode(states, NodeState.Cancelled)
      && (forall a, b ::
            a in states && b in states && states[a] == NodeState.Failed && states[b] == NodeState.Failed ==> a == b)
    case Cancelled =>
      && !SomeUnfinished(states) && !SomeNode(states, NodeState.Failed)
      && (states != map[] ==> SomeNode(states, NodeState.Cancelled))
  }

  ghost predicate InProgress(i: WorkflowInstance) {
    && !SomeNode(i.nodeStates, NodeState.Failed) && !SomeNode(i.nodeStates, NodeState.Cancelled)
    && DispatchComplete(i.definition.graph, i.nodeStates)
    && (i.nodeStates != map[] ==> SomeUnfinished(i.nodeStates))
  }

  ghost predicate DependenciesRespected(g: ExecutionGraph, states: map<NodeId, NodeState>) {
    forall n :: n in states && Started(states[n]) ==> ParentsFinished(g, states, n)
  }

  ghost predicate Consistent(i: WorkflowInstance) {
    && IsDag(i.definition.graph)
    && i.nodeStates.Keys == i.definition.graph.nodes.Keys
    && !SomeNode(i.nodeStates, NodeState.Preparing) && !SomeNode(i.nodeStates, NodeState.WaitingApproval)
    && DependenciesRespected(i.definition.graph, i.nodeStates)
    && StatusMatches(i)
  }

  lemma ConsistentIsTracked(i: WorkflowInstance)
    requires Consistent(i)
    ensures Tracked(i) && i.nodeStates.Keys == i.definition.graph.nodes.Keys
  {
  }

  /** An event for a node that is running, while the workflow is. */
  ghost predicate Legal(i: WorkflowInstance, e: NodeEvent) {
    && !Dropped(i, e) && !e.outcome.Other?
    && e.node in i.definition.graph.nodes && e.node in i.nodeStates && i.nodeStates[e.node] == NodeState.Running
  }

  ghost predicate NoStartedChild(i: WorkflowInstance, n: NodeId) {
    forall c :: HasEdge(i.definition.graph, n, c) && c in i.nodeStates ==> !Started(i.nodeStates[c])
  }

  /**
    The events a consistent instance survives: dropped, raising or uncorrelated ones; legal ones; and
    repeated ones for a finished node, unless a fatal one hits a node whose children have started.
   */
  ghost predicate Harmless(i: WorkflowInstance, e: NodeEvent) {
    || Dropped(i, e) || Raises(i, e) || e.outcome.Other?
    || Legal(i, e)
    || (e.node in i.definition.graph.nodes && e.node in i.nodeStates && Finished(i.nodeStates[e.node])
        && (IsFatal(i.definition, e) ==> NoStartedChild(i, e.node)))
  }

  // ---------- one dispatch pass ----------

  /** Marking nodes running makes nothing else ready, so one pass is a fixpoint. */
  lemma DispatchIsComplete(g: ExecutionGraph, states: map<NodeId, NodeState>)
    ensures DispatchComplete(g, DispatchStates(g, states))
    ensures DependenciesRespected(g, states) ==> DependenciesRespected(g, DispatchStates(g, states))
  {
    var after := DispatchStates(g, states);
    forall n | n in states ensures ParentsFinished(g, after, n) <==> ParentsFinished(g, states, n) {
    }
  }

  lemma DispatchKeeps(g: ExecutionGraph, states: map<NodeId, NodeState>, s: NodeState)
    requires s != NodeState.Pending && s != NodeState.Running
    ensures SomeNode(DispatchStates(g, states), s) <==> SomeNode(states, s)
    ensures SomeUnfinished(DispatchStates(g, states)) <==> SomeUnfinished(states)
    ensures DispatchStates(g, states) == map[] <==> states == map[]
  {
    var after := DispatchStates(g, states);
    assert forall n :: n in states ==> (Unfinished(after[n]) <==> Unfinished(states[n]));
    if SomeNode(states, s) {
      var n :| n in states && states[n] == s;
      assert after[n] == s;
    }
    if SomeUnfinished(states) {
      var n :| n in states && Unfinished(states[n]);
      assert Unfinished(after[n]);
    }
    assert after.Keys == states.Keys;
  }

  lemma CompletePassIsIdle(g: ExecutionGraph, states: map<NodeId, NodeState>)
    requires DispatchComplete(g, states)
    ensures DispatchStates(g, states) == states
    ensures EligibleNodes(g, states) == []
  {
    SelectNone(g.order, n => Eligible(g, states, n));
  }

  /** In progress, except that ready nodes may be pending and that all nodes may be finished. */
  ghost predicate Advanced(i: WorkflowInstance) {
    && Tracked(i) && i.nodeStates.Keys == i.definition.graph.nodes.Keys
    && i.status == WorkflowStatus.Running
    && !SomeNode(i.nodeStates, NodeState.Preparing) && !SomeNode(i.nodeStates, NodeState.WaitingApproval)
    && !SomeNode(i.nodeStates, NodeState.Failed) && !SomeNode(i.nodeStates, NodeState.Cancelled)
    && DependenciesRespected(i.definition.graph, i.nodeStates)
  }

  /** Dispatching from such a state makes it consistent, unless all its nodes are finished. */
  lemma DispatchMakesConsistent(i: WorkflowInstance)
    requires Advanced(i) && (i.nodeStates != map[] ==> SomeUnfinished(i.nodeStates))
    ensures Consistent(DispatchEligible(i).inst)
  {
    var g := i.definition.graph;
    DispatchIsComplete(g, i.nodeStates);
    DispatchKeeps(g, i.nodeStates, NodeState.Preparing);
    DispatchKeeps(g, i.nodeStates, NodeState.WaitingApproval);
    DispatchKeeps(g, i.nodeStates, NodeState.Failed);
    DispatchKeeps(g, i.nodeStates, NodeState.Cancelled);
  }

  /** With all nodes finished it has succeeded. */
  lemma SettledHasSucceeded(i: WorkflowInstance)
    requires Advanced(i) && AllSettled(i.nodeStates)
    ensures Consistent(i.(status := WorkflowStatus.Succeeded))
  {
    hide DependenciesRespected;
    forall m | m in i.nodeStates ensures Finished(i.nodeStates[m]) {
      assert !Active(i.nodeStates[m]);
    }
  }

  lemma AdvancedConcludes(i: WorkflowInstance)
    requires Advanced(i)
    ensures Tracked(i) && Consistent(DispatchEligible(Concluded(i)).inst)
  {
    if AllSettled(i.nodeStates) {
      SettledHasSucceeded(i);
    } else {
      var m :| m in i.nodeStates && Active(i.nodeStates[m]);
      assert Unfinished(i.nodeStates[m]);
      DispatchMakesConsistent(i);
    }
    hide Consistent, AllSettled;
  }

  lemma StartIsConsistent(id: string, definition: WorkflowDefinition, inputs: map<string, Value>, plan: ExecutionPlan)
    requires IsDag(definition.graph)
    ensures Consistent(StartStep(id, definition, inputs, plan).inst)
  {
    var i := Fresh(id, definition, inputs, plan);
    assert i.nodeStates.Keys == definition.graph.nodes.Keys;
    if i.nodeStates != map[] {
      var n :| n in i.nodeStates;
      assert Unfinished(i.nodeStates[n]);
    }
    DispatchMakesConsistent(i);
  }

  // ---------- events ----------

  lemma NoSelfLoop(g: ExecutionGraph, n: NodeId)
    requires IsDag(g)
    ensures !HasEdge(g, n, n)
  {
    if HasEdge(g, n, n) {
      assert GraphEdge(n, n).source in g.nodes;
      assert IsCycle(g, [n, n]);
    }
  }

  lemma FinishingKeepsDependencies(g: ExecutionGraph, states: map<NodeId, NodeState>, n: NodeId, s: NodeState)
    requires DependenciesRespected(g, states) && n in states && Finished(s) && Started(states[n])
    ensures DependenciesRespected(g, states[n := s])
  {
    var next := states[n := s];
    forall m | m in next && Started(next[m]) ensures ParentsFinished(g, next, m) {
      assert ParentsFinished(g, states, m);
    }
  }

  lemma FinishingAdvances(i: WorkflowInstance, n: NodeId, s: NodeState, outputs: Outputs)
    requires Consistent(i) && i.status == WorkflowStatus.Running && n in i.nodeStates && Finished(s)
    requires i.nodeStates[n] == NodeState.Running || Finished(i.nodeStates[n])
    ensures Advanced(i.(nodeStates := i.nodeStates[n := s], nodeOutputs := outputs))
  {
    hide Consistent, IsDag, DependenciesRespected, SomeNode, Tracked;
    RunningIsAdvanced(i);
    FinishingKeepsDependencies(i.definition.graph, i.nodeStates, n, s);
    FinishingAddsNone(i.nodeStates, n, s);
    KeyedIsTracked(i.(nodeStates := i.nodeStates[n := s], nodeOutputs := outputs));
  }

  lemma KeyedIsTracked(i: WorkflowInstance)
    requires IsDag(i.definition.graph) && i.nodeStates.Keys == i.definition.graph.nodes.Keys
    ensures Tracked(i)
  {
  }

  lemma RunningIsAdvanced(i: WorkflowInstance)
    requires Consistent(i) && i.status == WorkflowStatus.Running
    ensures Advanced(i) && IsDag(i.definition.graph)
  {
    hide DependenciesRespected, SomeUnfinished, DispatchComplete;
  }

  lemma FinishingAddsNone(states: map<NodeId, NodeState>, n: NodeId, s: NodeState)
    requires Finished(s)
    ensures forall bad :: SomeNode(states[n := s], bad) && !Finished(bad) ==> SomeNode(states, bad)
  {
  }

  lemma FinishingKeepsConsistent(i: WorkflowInstance, n: NodeId, s: NodeState, outputs: Outputs)
    requires Consistent(i) && i.status == WorkflowStatus.Running && n in i.nodeStates && Finished(s)
    requires i.nodeStates[n] == NodeState.Running || Finished(i.nodeStates[n])
    ensures var next := i.(nodeStates := i.nodeStates[n := s], nodeOutputs := outputs);
      Tracked(next) && Consistent(DispatchEligible(Concluded(next)).inst)
  {
    hide *;
    FinishingAdvances(i, n, s, outputs);
    AdvancedConcludes(i.(nodeStates := i.nodeStates[n := s], nodeOutputs := outputs));
  }

  lemma FailingKeepsConsistent(i: WorkflowInstance, n: NodeId)
    requires Consistent(i) && i.status == WorkflowStatus.Running && n in i.nodeStates
    requires i.nodeStates[n] == NodeState.Running || Finished(i.nodeStates[n])
    requires NoStartedChild(i, n)
    ensures Consistent(i.(nodeStates := i.nodeStates[n := NodeState.Failed], status := WorkflowStatus.Failed))
  {
    var states := i.nodeStates[n := NodeState.Failed];
    FailingKeepsDependencies(i, n);
    FailingAddsOne(i.nodeStates, n);
    assert states.Keys == i.nodeStates.Keys;
    hide IsDag, DependenciesRespected, DispatchComplete, SomeUnfinished;
  }

  lemma FailingKeepsDependencies(i: WorkflowInstance, n: NodeId)
    requires IsDag(i.definition.graph) && DependenciesRespected(i.definition.graph, i.nodeStates)
    requires n in i.nodeStates && Started(i.nodeStates[n]) && NoStartedChild(i, n)
    ensures DependenciesRespected(i.definition.graph, i.nodeStates[n := NodeState.Failed])
  {
    var states := i.nodeStates[n := NodeState.Failed];
    NoSelfLoop(i.definition.graph, n);
    forall m | m in states && Started(states[m]) ensures ParentsFinished(i.definition.graph, states, m) {
      assert ParentsFinished(i.definition.graph, i.nodeStates, m);
    }
  }

  lemma FailingAddsOne(states: map<NodeId, NodeState>, n: NodeId)
    requires n in states
    ensures SomeNode(states[n := NodeState.Failed], NodeState.Failed)
    ensures forall s :: SomeNode(states[n := NodeState.Failed], s) && s != NodeState.Failed ==> SomeNode(states, s)
  {
    assert states[n := NodeState.Failed][n] == NodeState.Failed;
  }

  lemma RunningHasNoStartedChild(i: WorkflowInstance, n: NodeId)
    requires Consistent(i) && n in i.nodeStates && !Finished(i.nodeStates[n])
    ensures NoStartedChild(i, n)
  {
    forall c | HasEdge(i.definition.graph, n, c) && c in i.nodeStates ensures !Started(i.nodeStates[c]) {
      assert Started(i.nodeStates[c]) ==> ParentsFinished(i.definition.graph, i.nodeStates, c);
    }
  }

  lemma ConsistentConcludes(i: WorkflowInstance)
    requires Consistent(i) && i.status == WorkflowStatus.Running
    ensures Tracked(i) && Consistent(Concluded(i)) && DispatchComplete(i.definition.graph, i.nodeStates)
  {
    hide IsDag, DependenciesRespected, DispatchComplete;
    if SomeUnfinished(i.nodeStates) {
      var m :| m in i.nodeStates && Unfinished(i.nodeStates[m]);
      assert Active(i.nodeStates[m]);
    }
  }

  lemma OtherKeepsConsistent(i: WorkflowInstance, e: NodeEvent)
    requires Consistent(i) && !Dropped(i, e) && e.outcome.Other?
    ensures Consistent(EventStep(i, e).inst)
  {
    ConsistentConcludes(i);
    CompletePassIsIdle(i.definition.graph, i.nodeStates);
    hide Consistent, DispatchStates, EligibleNodes, AllSettled, Tracked;
  }

  lemma FatalKeepsConsistent(i: WorkflowInstance, e: NodeEvent)
    requires Consistent(i) && Harmless(i, e) && !Dropped(i, e) && IsFatal(i.definition, e)
    ensures Consistent(EventStep(i, e).inst)
  {
    hide IsDag;
    if i.nodeStates[e.node] == NodeState.Running {
      RunningHasNoStartedChild(i, e.node);
    }
    FailingKeepsConsistent(i, e.node);
  }

  lemma HarmlessKeepsConsistent(i: WorkflowInstance, e: NodeEvent)
    requires Consistent(i) && Harmless(i, e)
    ensures Consistent(EventStep(i, e).inst)
  {
    hide IsDag;
    if !Dropped(i, e) && !Raises(i, e) {
      if e.outcome.Other? {
        OtherKeepsConsistent(i, e);
      } else if IsFatal(i.definition, e) {
        FatalKeepsConsistent(i, e);
      } else {
        FinishingKeepsConsistent(i, e.node, Recorded(i, e).nodeStates[e.node], Recorded(i, e).nodeOutputs);
      }
    }
  }

  /** A started node with an unfinished parent is what a harmful event leaves behind. */
  ghost predicate Overtaken(g: ExecutionGraph, states: map<NodeId, NodeState>, n: NodeId) {
    n in states && Started(states[n]) && !ParentsFinished(g, states, n)
  }

  lemma OvertakenSurvivesDispatch(g: ExecutionGraph, states: map<NodeId, NodeState>, n: NodeId)
    requires Overtaken(g, states, n)
    ensures Overtaken(g, DispatchStates(g, states), n)
  {
    var m :| HasEdge(g, m, n) && !(m in states && Finished(states[m]));
    assert m in states ==> !Finished(DispatchStates(g, states)[m]);
  }

  lemma PendingIsOvertaken(g: ExecutionGraph, states: map<NodeId, NodeState>, n: NodeId, s: NodeState)
    requires IsDag(g) && DispatchComplete(g, states)
    requires n in states && states[n] == NodeState.Pending && Started(s)
    ensures Overtaken(g, states[n := s], n)
  {
    NoSelfLoop(g, n);
    assert !Eligible(g, states, n);
    var m :| HasEdge(g, m, n) && !(m in states && Finished(states[m]));
    assert m in states[n := s] ==> !Finished(states[n := s][m]);
  }

  lemma ChildIsOvertaken(g: ExecutionGraph, states: map<NodeId, NodeState>, n: NodeId, c: NodeId)
    requires IsDag(g) && HasEdge(g, n, c) && c in states && Started(states[c])
    ensures Overtaken(g, states[n := NodeState.Failed], c)
  {
    NoSelfLoop(g, n);
    assert !Finished(states[n := NodeState.Failed][n]);
  }

  lemma HarmfulOvertakes(i: WorkflowInstance, e: NodeEvent)
    requires Consistent(i) && !Harmless(i, e) && e.node in i.definition.graph.nodes
    ensures exists n :: Overtaken(i.definition.graph, Recorded(i, e).nodeStates, n)
  {
    hide IsDag, Overtaken;
    var g := i.definition.graph;
    assert Recorded(i, e).nodeStates == i.nodeStates[e.node := Recorded(i, e).nodeStates[e.node]];
    if i.nodeStates[e.node] == NodeState.Pending {
      PendingIsOvertaken(g, i.nodeStates, e.node, Recorded(i, e).nodeStates[e.node]);
    } else {
      assert IsFatal(i.definition, e) && !NoStartedChild(i, e.node);
      var c :| HasEdge(g, e.node, c) && c in i.nodeStates && Started(i.nodeStates[c]);
      ChildIsOvertaken(g, i.nodeStates, e.node, c);
      assert Overtaken(g, Recorded(i, e).nodeStates, c);
    }
  }

  lemma HarmfulBreaksConsistent(i: WorkflowInstance, e: NodeEvent)
    requires Consistent(i) && !Harmless(i, e)
    ensures !Consistent(EventStep(i, e).inst)
  {
    ConsistentIsTracked(i);
    hide IsDag, IsFatal, Overtaken, Dropped, Raises, NoStartedChild, Consistent, DispatchStates, Eligible, EligibleNodes;
    var g := i.definition.graph;
    if e.node !in g.nodes {
      StrayStateIsInconsistent(i, e);
    } else {
      var recorded := Recorded(i, e).nodeStates;
      EventStates(i, e);
      HarmfulOvertakes(i, e);
      var n :| Overtaken(g, recorded, n);
      OvertakenSurvivesDispatch(g, recorded, n);
      OvertakenIsInconsistent(EventStep(i, e).inst, n);
    }
  }

  lemma EventStates(i: WorkflowInstance, e: NodeEvent)
    requires Tracked(i) && !Dropped(i, e) && !Raises(i, e)
    ensures var recorded, after := Recorded(i, e).nodeStates, EventStep(i, e).inst.nodeStates;
      after == recorded || after == DispatchStates(i.definition.graph, recorded)
  {
    hide IsDag, DispatchStates, EligibleNodes, IsFatal;
  }

  lemma StrayStateIsInconsistent(i: WorkflowInstance, e: NodeEvent)
    requires Tracked(i) && !Dropped(i, e) && !Raises(i, e) && !e.outcome.Other? && e.node !in i.definition.graph.nodes
    ensures !Consistent(EventStep(i, e).inst)
  {
    EventStates(i, e);
    assert e.node in Recorded(i, e).nodeStates;
    hide IsDag, EventStep, IsFatal;
  }

  lemma OvertakenIsInconsistent(i: WorkflowInstance, n: NodeId)
    requires Overtaken(i.definition.graph, i.nodeStates, n)
    ensures !Consistent(i)
  {
  }

  /** Exactly the harmless events keep a consistent instance consistent. */
  lemma EventKeepsConsistentIff(i: WorkflowInstance, e: NodeEvent)
    requires Consistent(i)
    ensures Consistent(EventStep(i, e).inst) <==> Harmless(i, e)
  {
    if Harmless(i, e) {
      HarmlessKeepsConsistent(i, e);
    } else {
      HarmfulBreaksConsistent(i, e);
    }
  }

  function CancelledStates(states: map<NodeId, NodeState>): map<NodeId, NodeState> {
    map n | n in states :: CancelledState(states[n])
  }

  lemma CancelKeepsDependencies(g: ExecutionGraph, states: map<NodeId, NodeState>)
    requires DependenciesRespected(g, states)
    ensures DependenciesRespected(g, CancelledStates(states))
  {
    var after := CancelledStates(states);
    forall n | n in after && Started(after[n]) ensures ParentsFinished(g, after, n) {
      assert ParentsFinished(g, states, n);
    }
  }

  lemma CancelKeepsConsistent(i: WorkflowInstance)
    requires Consistent(i)
    ensures Consistent(CancelStep(i).inst)
  {
    hide IsDag, DependenciesRespected, DispatchComplete;
    var after := CancelledStates(i.nodeStates);
    CancelKeepsDependencies(i.definition.graph, i.nodeStates);
    assert after.Keys == i.nodeStates.Keys;
    if after != map[] && SomeUnfinished(i.nodeStates) {
      var n :| n in i.nodeStates && Unfinished(i.nodeStates[n]);
      assert after[n] == NodeState.Cancelled;
    }
  }

  lemma CommandKeepsConsistent(i: WorkflowInstance, a: Action)
    requires Consistent(i) && !a.Deliver?
    ensures Consistent(Step(i, a).inst)
  {
    hide IsDag;
    if a.Cancel? {
      CancelKeepsConsistent(i);
    } else if i.status == WorkflowStatus.Paused {
      CompletePassIsIdle(i.definition.graph, i.nodeStates);
    }
  }

  /** Pausing and resuming is invisible, except that every event that arrives in between is lost. */
  lemma PauseLosesOnlyEvents(i: WorkflowInstance, e: NodeEvent)
    requires Consistent(i) && i.status == WorkflowStatus.Running
    ensures EventStep(PauseStep(i).inst, e) == Stepped(PauseStep(i).inst, [])
    ensures ResumeStep(PauseStep(i).inst) == Stepped(i, [])
  {
    CompletePassIsIdle(i.definition.graph, i.nodeStates);
  }

  // ---------- an event that does harm ----------

  function TwoChain(node: GraphNode): ExecutionGraph {
    ExecutionGraph(["a", "b"], map["a" := node, "b" := node], [GraphEdge("a", "b")])
  }

  lemma TwoChainIsDag(node: GraphNode)
    ensures IsDag(TwoChain(node)) && HasEdge(TwoChain(node), "a", "b")
  {
    RankedIsAcyclic(TwoChain(node), map["a" := 0, "b" := 1]);
  }

  lemma TwoChainStarts(id: string, name: string, node: GraphNode, inputs: map<string, Value>, plan: ExecutionPlan)
    requires IsDag(TwoChain(node))
    ensures StartStep(id, WorkflowDefinition(name, TwoChain(node), Fail), inputs, plan).inst.nodeStates
      == map["a" := NodeState.Running, "b" := NodeState.Pending]
  {
    var states := map n | n in TwoChain(node).nodes :: NodeState.Pending;
    assert HasEdge(TwoChain(node), "a", "b") && forall m :: !HasEdge(TwoChain(node), m, "a");
    assert Eligible(TwoChain(node), states, "a") && !Eligible(TwoChain(node), states, "b");
    hide IsDag;
  }

  /** Nothing keeps a completion for a node that is still pending from overtaking the node it waits for. */
  lemma StrayCompletionOvertakes(
    id: string, name: string, node: GraphNode, inputs: map<string, Value>, plan: ExecutionPlan, result: Value)
    ensures IsDag(TwoChain(node))
    ensures var i := StartStep(id, WorkflowDefinition(name, TwoChain(node), Fail), inputs, plan).inst;
      var e := NodeEvent("b", Completed(result));
      && Consistent(i) && !Harmless(i, e) && !Consistent(EventStep(i, e).inst)
      && EventStep(i, e).inst.nodeStates == map["a" := NodeState.Running, "b" := NodeState.Succeeded]
  {
    TwoChainIsDag(node);
    var definition := WorkflowDefinition(name, TwoChain(node), Fail);
    TwoChainStarts(id, name, node, inputs, plan);
    StartIsConsistent(id, definition, inputs, plan);
    var i, e := StartStep(id, definition, inputs, plan).inst, NodeEvent("b", Completed(result));
    ConsistentIsTracked(i);
    assert i.status == WorkflowStatus.Running && i.definition == definition;
    hide IsDag, Consistent, StartStep;
    StrayCompletion(i, e);
    EventKeepsConsistentIff(i, e);
  }

  lemma StrayCompletion(i: WorkflowInstance, e: NodeEvent)
    requires Tracked(i) && i.status == WorkflowStatus.Running && e.node == "b" && e.outcome.Completed?
    requires i.nodeStates == map["a" := NodeState.Running, "b" := NodeState.Pending]
    ensures !Harmless(i, e)
    ensures EventStep(i, e).inst.nodeStates == map["a" := NodeState.Running, "b" := NodeState.Succeeded]
  {
    hide IsDag;
    EventStates(i, e);
    NothingPendingIsIdle(i.definition.graph, Recorded(i, e).nodeStates);
    hide EventStep, DispatchStates;
  }

  lemma NothingPendingIsIdle(g: ExecutionGraph, states: map<NodeId, NodeState>)
    requires forall n :: n in states ==> states[n] != NodeState.Pending
    ensures DispatchStates(g, states) == states
  {
  }
}
