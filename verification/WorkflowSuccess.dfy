/**
  Which workflows can succeed at all: by events for running nodes, by harmless events, or by whatever arrives.
 */
module WorkflowSuccess {
  import opened Graphs
  import opened Planner
  import opened Workflow
  import opened WorkflowSafety
  import opened WorkflowRuns

  lemma CompleteOne(i: WorkflowInstance) returns (e: NodeEvent)
    requires Consistent(i) && i.status == WorkflowStatus.Running
    requires i.definition.graph.order != [] && "" !in i.definition.graph.order
    ensures Tracked(i) && Legal(i, e)
    ensures var next := EventStep(i, e).inst;
      && |UnfinishedNodes(next)| < |UnfinishedNodes(i)|
      && (next.status == WorkflowStatus.Running || next.status == WorkflowStatus.Succeeded)
  {
    NoDeadlock(i);
    var n :| n in i.nodeStates && i.nodeStates[n] == NodeState.Running;
    ConsistentIsTracked(i);
    assert n in i.definition.graph.order;
    e := NodeEvent(n, Completed(Null));
    LegalEventFinishesOne(i, e);
  }

  /** From any point of a legal run without failures, the rest can be completed. */
  lemma {:induction false} CompleteTheRest(s: RunState, events: seq<NodeEvent>) returns (all: seq<NodeEvent>)
    requires SafeState(s) && Tracked(s.inst) && LegalRun(s, events)
    requires s.inst.definition.graph.order != [] && "" !in s.inst.definition.graph.order
    requires RunEvents(s, events).inst.status == WorkflowStatus.Running
    ensures LegalRun(s, all) && RunEvents(s, all).inst.status == WorkflowStatus.Succeeded
    decreases |UnfinishedNodes(RunEvents(s, events).inst)|
  {
    hide Consistent, LogSound, Tracked, Legal, EventStep, UnfinishedNodes;
    LegalRunIsSafe(s, events);
    var e := CompleteOne(RunEvents(s, events).inst);
    all := events + [e];
    assert all[..|all| - 1] == events;
    if RunEvents(s, all).inst.status == WorkflowStatus.Running {
      all := CompleteTheRest(s, all);
    }
  }

  // ---------- a node with a blank id ----------

  /** The node with the blank id keeps the workflow from succeeding. */
  ghost predicate HeldByBlank(i: WorkflowInstance) {
    && "" in i.nodeStates && i.status != WorkflowStatus.Succeeded
    && (i.status == WorkflowStatus.Running || i.status == WorkflowStatus.Paused ==> Unfinished(i.nodeStates[""]))
  }

  lemma DispatchKeepsHeld(i: WorkflowInstance)
    requires Tracked(i) && HeldByBlank(i)
    ensures HeldByBlank(DispatchEligible(i).inst)
  {
    hide IsDag, Eligible;
  }

  lemma EventKeepsHeld(i: WorkflowInstance, e: NodeEvent)
    requires Tracked(i) && HeldByBlank(i)
    ensures HeldByBlank(EventStep(i, e).inst)
  {
    hide IsDag, IsFatal, DispatchEligible;
    if !Dropped(i, e) && !Raises(i, e) {
      var recorded := Recorded(i, e);
      assert recorded.nodeStates[""] == i.nodeStates[""];
      assert recorded.status == WorkflowStatus.Running ==>
        Active(recorded.nodeStates[""]) && !AllSettled(recorded.nodeStates);
      assert HeldByBlank(Concluded(recorded));
      DispatchKeepsHeld(Concluded(recorded));
    }
  }

  lemma StepKeepsHeld(i: WorkflowInstance, a: Action)
    requires Tracked(i) && HeldByBlank(i)
    ensures HeldByBlank(Step(i, a).inst)
  {
    hide IsDag, DispatchEligible, EventStep;
    match a {
      case Pause =>
      case Resume =>
        if i.status == WorkflowStatus.Paused {
          DispatchKeepsHeld(i.(status := WorkflowStatus.Running));
        }
      case Cancel =>
      case Deliver(e) => EventKeepsHeld(i, e);
    }
  }

  lemma {:induction false} RunKeepsHeld(s: RunState, actions: seq<Action>)
    requires Tracked(s.inst) && HeldByBlank(s.inst)
    ensures HeldByBlank(Run(s, actions).inst)
  {
    hide HeldByBlank, Step, Tracked;
    if actions != [] {
      RunKeepsHeld(s, actions[..|actions| - 1]);
      StepKeepsHeld(Run(s, actions[..|actions| - 1]).inst, actions[|actions| - 1]);
    }
  }

  lemma BegunIsHeld(id: string, definition: WorkflowDefinition, inputs: map<string, Value>, plan: ExecutionPlan)
    requires IsDag(definition.graph) && "" in definition.graph.order
    ensures HeldByBlank(Begun(id, definition, inputs, plan).inst)
  {
    DispatchKeepsHeld(Fresh(id, definition, inputs, plan));
  }

  // ---------- success ----------

  /** Some sequence of commands and events, harmful ones included, makes the workflow succeed. */
  ghost predicate CanSucceed(s: RunState)
    requires Tracked(s.inst)
  {
    exists actions :: Run(s, actions).inst.status == WorkflowStatus.Succeeded
  }

  ghost predicate CanSucceedHarmlessly(s: RunState)
    requires Tracked(s.inst)
  {
    exists actions :: HarmlessRun(s, actions) && Run(s, actions).inst.status == WorkflowStatus.Succeeded
  }

  ghost predicate CanSucceedLegally(s: RunState)
    requires Tracked(s.inst)
  {
    exists events :: LegalRun(s, events) && RunEvents(s, events).inst.status == WorkflowStatus.Succeeded
  }

  lemma BlankNeverSucceeds(id: string, definition: WorkflowDefinition, inputs: map<string, Value>, plan: ExecutionPlan)
    requires IsDag(definition.graph) && "" in definition.graph.order
    ensures !CanSucceed(Begun(id, definition, inputs, plan))
  {
    var s := Begun(id, definition, inputs, plan);
    BegunIsHeld(id, definition, inputs, plan);
    forall actions ensures Run(s, actions).inst.status != WorkflowStatus.Succeeded {
      RunKeepsHeld(s, actions);
    }
  }

  /** An empty workflow is concluded by any correlated event of a kind the orchestrator does not know. */
  lemma EmptyWorkflowIsConcluded(
    id: string, definition: WorkflowDefinition, inputs: map<string, Value>, plan: ExecutionPlan, n: NodeId)
    requires IsDag(definition.graph) && definition.graph.order == [] && n != ""
    ensures var s := Begun(id, definition, inputs, plan);
      && HarmlessRun(s, [Deliver(NodeEvent(n, Other))])
      && Run(s, [Deliver(NodeEvent(n, Other))]).inst.status == WorkflowStatus.Succeeded
  {
    var s := Begun(id, definition, inputs, plan);
    var actions := [Deliver(NodeEvent(n, Other))];
    assert actions[..0] == [];
    GraphIsEmpty(definition);
    assert s.inst.nodeStates == map[];
    assert AllSettled(s.inst.nodeStates);
    assert Run(s, []) == s && HarmlessRun(s, []);
    hide IsDag;
  }

  lemma GraphIsEmpty(definition: WorkflowDefinition)
    requires IsDag(definition.graph) && definition.graph.order == []
    ensures definition.graph.nodes == map[]
  {
    assert forall n :: n in definition.graph.nodes ==> n in definition.graph.order;
  }

  lemma NamedNodesCanSucceed(id: string, definition: WorkflowDefinition, inputs: map<string, Value>, plan: ExecutionPlan)
    requires IsDag(definition.graph) && definition.graph.order != [] && "" !in definition.graph.order
    ensures CanSucceedLegally(Begun(id, definition, inputs, plan))
  {
    var s := Begun(id, definition, inputs, plan);
    StartIsSafe(id, definition, inputs, plan);
    assert s.inst.status == WorkflowStatus.Running;
    assert LegalRun(s, []) && RunEvents(s, []) == s;
    hide SafeState, LegalRun, RunEvents, IsDag;
    var all := CompleteTheRest(s, []);
  }

  lemma LegalIsHarmlessSuccess(s: RunState)
    requires Tracked(s.inst) && CanSucceedLegally(s)
    ensures CanSucceedHarmlessly(s)
  {
    var events :| LegalRun(s, events) && RunEvents(s, events).inst.status == WorkflowStatus.Succeeded;
    LegalRunIsHarmless(s, events);
  }

  /**
    A workflow can be driven to success if and only if none of its node ids is blank: events for a blank node
    id are dropped. Harmless events suffice, and no others help.
   */
  lemma CanSucceedIff(id: string, definition: WorkflowDefinition, inputs: map<string, Value>, plan: ExecutionPlan)
    requires IsDag(definition.graph)
    ensures CanSucceedHarmlessly(Begun(id, definition, inputs, plan)) <==> "" !in definition.graph.order
    ensures CanSucceed(Begun(id, definition, inputs, plan)) <==> "" !in definition.graph.order
  {
    var s := Begun(id, definition, inputs, plan);
    assert CanSucceedHarmlessly(s) ==> CanSucceed(s);
    if "" in definition.graph.order {
      BlankNeverSucceeds(id, definition, inputs, plan);
    } else if definition.graph.order == [] {
      EmptyWorkflowIsConcluded(id, definition, inputs, plan, "n");
    } else {
      NamedNodesCanSucceed(id, definition, inputs, plan);
      LegalIsHarmlessSuccess(s);
    }
  }

  lemma EmptyHasNoLegalEvent(id: string, definition: WorkflowDefinition, inputs: map<string, Value>, plan: ExecutionPlan)
    requires IsDag(definition.graph) && definition.graph.order == []
    ensures !CanSucceedLegally(Begun(id, definition, inputs, plan))
  {
    var s := Begun(id, definition, inputs, plan);
    BegunIsUnfinished(id, definition, inputs, plan);
    assert s.inst.status == WorkflowStatus.Running && RunEvents(s, []) == s;
    forall events | LegalRun(s, events) ensures events == [] {
      LegalRunFinishesEach(s, events);
    }
  }

  /** By events for running nodes alone, exactly the non-empty ones among these can. */
  lemma LegalEventsCanSucceedIff(
    id: string, definition: WorkflowDefinition, inputs: map<string, Value>, plan: ExecutionPlan)
    requires IsDag(definition.graph)
    ensures CanSucceedLegally(Begun(id, definition, inputs, plan)) <==>
      definition.graph.order != [] && "" !in definition.graph.order
  {
    var s := Begun(id, definition, inputs, plan);
    if definition.graph.order == [] {
      EmptyHasNoLegalEvent(id, definition, inputs, plan);
    } else if "" in definition.graph.order {
      CanSucceedIff(id, definition, inputs, plan);
      if CanSucceedLegally(s) {
        LegalIsHarmlessSuccess(s);
      }
    } else {
      NamedNodesCanSucceed(id, definition, inputs, plan);
    }
  }
}
