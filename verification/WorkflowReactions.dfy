/**
  What the orchestrator's steps do to an instance, told by the node states and the policies themselves: who
  starts, which failures fail the workflow, and what every other event and command changes.
 */
module WorkflowReactions {
  import opened Wrappers
  import opened Sequences
  import opened Graphs
  import opened Planner
  import opened Workflow
  import opened WorkflowRuns

  // ---------- the pass that follows a change ----------

  /** Pending, and every parent succeeded or was skipped. */
  ghost predicate Ready(i: WorkflowInstance, n: NodeId) {
    && n in i.nodeStates && i.nodeStates[n] == NodeState.Pending
    && forall m :: HasEdge(i.definition.graph, m, n) ==>
         m in i.nodeStates && (i.nodeStates[m] == NodeState.Succeeded || i.nodeStates[m] == NodeState.Skipped)
  }

  /** The ready nodes run, in graph order, and nothing else changes. */
  ghost predicate PassedOn(i: WorkflowInstance, r: Stepped) {
    && r.inst == i.(nodeStates := r.inst.nodeStates) && r.inst.nodeStates.Keys == i.nodeStates.Keys
    && (forall n :: n in i.nodeStates ==>
          r.inst.nodeStates[n] == if Ready(i, n) then NodeState.Running else i.nodeStates[n])
    && DispatchOrder(r.dispatches) == Select(i.definition.graph.order, n => Ready(i, n))
  }

  /** No node is pending, running or waiting for approval. */
  ghost predicate AtRest(i: WorkflowInstance) {
    forall n :: n in i.nodeStates ==>
      && i.nodeStates[n] != NodeState.Pending && i.nodeStates[n] != NodeState.Running
      && i.nodeStates[n] != NodeState.WaitingApproval
  }

  /** A running workflow at rest has succeeded; any other goes on with the nodes that are ready. */
  ghost predicate WentOn(i: WorkflowInstance, r: Stepped) {
    if AtRest(i) then r == Stepped(i.(status := WorkflowStatus.Succeeded), []) else PassedOn(i, r)
  }

  lemma ReadyIsEligible(i: WorkflowInstance, n: NodeId)
    ensures Ready(i, n) <==> Eligible(i.definition.graph, i.nodeStates, n)
  {
  }

  lemma PassIsPassedOn(i: WorkflowInstance)
    requires Tracked(i) && i.status == WorkflowStatus.Running
    ensures PassedOn(i, DispatchEligible(i))
  {
    forall n ensures Ready(i, n) <==> Eligible(i.definition.graph, i.nodeStates, n) {
      ReadyIsEligible(i, n);
    }
    SelectSame(i.definition.graph.order, n => Ready(i, n), n => Eligible(i.definition.graph, i.nodeStates, n));
    OrderGrows([], i, EligibleNodes(i.definition.graph, i.nodeStates));
    hide Ready, Eligible;
    var nodes := EligibleNodes(i.definition.graph, i.nodeStates);
    assert [] + DispatchesOf(i, nodes) == DispatchesOf(i, nodes) && [] + nodes == nodes;
    assert DispatchOrder([]) == [];
  }

  lemma RestIsSettled(i: WorkflowInstance)
    ensures AtRest(i) <==> AllSettled(i.nodeStates)
  {
  }

  lemma ConclusionGoesOn(i: WorkflowInstance)
    requires Tracked(i) && i.status == WorkflowStatus.Running
    ensures WentOn(i, DispatchEligible(Concluded(i)))
  {
    RestIsSettled(i);
    if !AtRest(i) {
      PassIsPassedOn(i);
    }
  }

  // ---------- events ----------

  /**
    A failure, time-out or cancellation of any node fails the workflow unless the policy in force there is to
    ignore it: the node's own policy if it has one, else the workflow's. Ignored, it skips the node.
   */
  lemma FailureReaction(i: WorkflowInstance, n: NodeId, o: Outcome)
    requires Tracked(i) && i.status == WorkflowStatus.Running && n != "" && n in i.definition.graph.nodes
    requires o.Failure? || o.TimedOut? || o.TaskCancelled?
    ensures var r := EventStep(i, NodeEvent(n, o));
      var own := i.definition.graph.nodes[n].failureHandling;
      var fatal := own != Some(Ignore) && (own.Some? || i.definition.failureHandling != Ignore);
      && (r.inst.status == WorkflowStatus.Failed <==> fatal)
      && (fatal ==> r == Stepped(
            i.(status := WorkflowStatus.Failed, nodeStates := i.nodeStates[n := NodeState.Failed]), []))
      && (!fatal ==> WentOn(i.(nodeStates := i.nodeStates[n := NodeState.Skipped]), r))
  {
    var e := NodeEvent(n, o);
    if PolicyAt(i.definition, n) == Ignore {
      assert Recorded(i, e) == i.(nodeStates := i.nodeStates[n := NodeState.Skipped]);
      ConclusionGoesOn(Recorded(i, e));
    }
    hide WentOn;
  }

  /** A completion of any node, known or not, records its result and goes on. */
  lemma CompletionReaction(i: WorkflowInstance, n: NodeId, result: Value)
    requires Tracked(i) && i.status == WorkflowStatus.Running && n != ""
    ensures WentOn(
      i.(nodeStates := i.nodeStates[n := NodeState.Succeeded],
         nodeOutputs := i.nodeOutputs[n := map["result" := result]]),
      EventStep(i, NodeEvent(n, Completed(result))))
  {
    ConclusionGoesOn(Recorded(i, NodeEvent(n, Completed(result))));
    hide WentOn;
  }

  /** An event of another kind still concludes a workflow at rest. */
  lemma OtherReaction(i: WorkflowInstance, n: NodeId)
    requires Tracked(i) && i.status == WorkflowStatus.Running && n != ""
    ensures WentOn(i, EventStep(i, NodeEvent(n, Other)))
  {
    ConclusionGoesOn(i);
    hide WentOn;
  }

  /** Nothing comes of an event outside a running workflow, for a blank node, or of an unknown node's failure. */
  lemma IdleReaction(i: WorkflowInstance, e: NodeEvent)
    requires Tracked(i)
    requires
      || i.status != WorkflowStatus.Running || e.node == ""
      || (!e.outcome.Completed? && !e.outcome.Other? && e.node !in i.definition.graph.nodes)
    ensures EventStep(i, e) == Stepped(i, [])
  {
  }

  // ---------- commands ----------

  /** A started workflow runs exactly its nodes without parents, and knows only its inputs. */
  lemma StartReaction(id: string, definition: WorkflowDefinition, inputs: map<string, Value>, plan: ExecutionPlan)
    requires IsDag(definition.graph)
    ensures var r := StartStep(id, definition, inputs, plan); var g := definition.graph;
      && r.inst.id == id && r.inst.definition == definition && r.inst.plan == plan
      && r.inst.status == WorkflowStatus.Running && r.inst.nodeStates.Keys == g.nodes.Keys
      && (forall n :: n in g.nodes ==>
            r.inst.nodeStates[n] == if exists m :: HasEdge(g, m, n) then NodeState.Pending else NodeState.Running)
      && DispatchOrder(r.dispatches) == Select(g.order, n => !exists m :: HasEdge(g, m, n))
      && r.inst.nodeOutputs == if inputs == map[] then map[] else map["workflow_inputs" := inputs]
  {
    var i, g := Fresh(id, definition, inputs, plan), definition.graph;
    PassIsPassedOn(i);
    forall n | n in g.nodes ensures Ready(i, n) <==> !exists m :: HasEdge(g, m, n) {
    }
    SelectSame(g.order, n => Ready(i, n), n => !exists m :: HasEdge(g, m, n));
    hide DispatchEligible, Ready;
  }

  /** Pausing and resuming switch the status only, and resuming starts what became ready. */
  lemma PauseResumeReaction(i: WorkflowInstance)
    requires Tracked(i)
    ensures Step(i, Pause) ==
      Stepped(if i.status == WorkflowStatus.Running then i.(status := WorkflowStatus.Paused) else i, [])
    ensures i.status == WorkflowStatus.Paused ==> PassedOn(i.(status := WorkflowStatus.Running), Step(i, Resume))
    ensures i.status != WorkflowStatus.Paused ==> Step(i, Resume) == Stepped(i, [])
  {
    if i.status == WorkflowStatus.Paused {
      PassIsPassedOn(i.(status := WorkflowStatus.Running));
    }
    hide PassedOn, DispatchEligible;
  }

  /** Cancelling cancels exactly the pending and the running nodes of a workflow that is running or paused. */
  lemma CancelReaction(i: WorkflowInstance)
    requires Tracked(i)
    ensures var r := Step(i, Cancel);
      if i.status == WorkflowStatus.Running || i.status == WorkflowStatus.Paused then
        && r.inst == i.(status := WorkflowStatus.Cancelled, nodeStates := r.inst.nodeStates) && r.dispatches == []
        && r.inst.nodeStates.Keys == i.nodeStates.Keys
        && (forall n :: n in i.nodeStates ==>
              r.inst.nodeStates[n] ==
                if i.nodeStates[n] == NodeState.Pending || i.nodeStates[n] == NodeState.Running
                then NodeState.Cancelled else i.nodeStates[n])
      else r == Stepped(i, [])
  {
  }
}
