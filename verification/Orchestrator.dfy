/**
  The workflow orchestrator: a table of checkpointed instances and the log of what it handed to the
  scheduler. Every operation is proved to take exactly the step the safety and confluence results
  speak about.
 */
module Orchestrator {
  import opened Wrappers
  import opened Sequences
  import opened Graphs
  import opened Kahn
  import opened Planner
  import opened Workflow
  import opened WorkflowSafety

  datatype OrchestratorError = InstanceNotFound(id: string) | UnknownNode(node: NodeId)

  /** An event as it arrives: the correlation fields come from its metadata and may be absent. */
  datatype RuntimeEvent = RuntimeEvent(instanceId: Option<string>, node: Option<NodeId>, outcome: Outcome)

  predicate Correlated(e: RuntimeEvent) {
    e.instanceId.Some? && e.instanceId.value != "" && e.node.Some? && e.node.value != ""
  }

  /** The nodes whose queued task a cancellation withdraws. */
  function Withdrawn(i: WorkflowInstance, queued: set<string>): seq<NodeId> {
    Select(i.definition.graph.order, n => Withdraws(i, queued, n))
  }

  method ResolveNodeInputs(node: GraphNode, outputs: Outputs) returns (resolved: map<string, Value>)
    ensures resolved == ResolvedInputs(node, outputs)
  {
    resolved := node.payload;
    var keys := node.inputMappings.Keys;
    assert PartlyResolved(node, outputs, keys) == node.payload;
    while keys != {}
      invariant keys <= node.inputMappings.Keys && resolved == PartlyResolved(node, outputs, keys)
    {
      hide PartlyResolved, InputValue;
      var k :| k in keys;
      ResolveOne(node, outputs, keys, k);
      resolved := resolved[k := InputValue(node.inputMappings[k], outputs)];
      keys := keys - {k};
    }
  }

  /** The payload with all mapped inputs resolved except those under `keys`. */
  ghost function PartlyResolved(node: GraphNode, outputs: Outputs, keys: set<string>): map<string, Value> {
    node.payload + (map k | k in node.inputMappings && k !in keys :: InputValue(node.inputMappings[k], outputs))
  }

  lemma ResolveOne(node: GraphNode, outputs: Outputs, keys: set<string>, k: string)
    requires k in keys && k in node.inputMappings
    ensures PartlyResolved(node, outputs, keys - {k})
      == PartlyResolved(node, outputs, keys)[k := InputValue(node.inputMappings[k], outputs)]
  {
  }

  /** Whether every parent in the list is finished. */
  method ParentsReady(states: map<NodeId, NodeState>, parents: seq<NodeId>) returns (ready: bool)
    requires forall p :: p in parents ==> p in states
    ensures ready <==> forall p :: p in parents ==> Finished(states[p])
  {
    for k := 0 to |parents|
      invariant forall p :: p in parents[..k] ==> Finished(states[p])
    {
      if !Finished(states[parents[k]]) {
        assert parents[k] in parents;
        return false;
      }
    }
    assert parents[..|parents|] == parents;
    return true;
  }

  /** Whether no node of the instance is still pending or running. */
  method AllCompleted(i: WorkflowInstance) returns (done: bool)
    requires Tracked(i)
    ensures done <==> AllSettled(i.nodeStates)
  {
    var order := i.definition.graph.order;
    for k := 0 to |order|
      invariant forall n :: n in order[..k] ==> n in i.nodeStates && !Active(i.nodeStates[n])
    {
      assert order[k] in order;
      if Active(i.nodeStates[order[k]]) {
        return false;
      }
    }
    assert order[..|order|] == order;
    return true;
  }

  lemma ParentsAreSources(g: ExecutionGraph, states: map<NodeId, NodeState>, n: NodeId)
    requires IsDag(g) && n in g.nodes && forall m :: m in g.nodes ==> m in states
    ensures forall p :: p in Sources(g.edges, n) ==> p in states
    ensures ParentsFinished(g, states, n) <==> forall p :: p in Sources(g.edges, n) ==> Finished(states[p])
  {
    forall p ensures p in Sources(g.edges, n) <==> HasEdge(g, p, n) {
      SourcesAreEdges(g.edges, p, n);
    }
    forall p | HasEdge(g, p, n) ensures p in states {
      assert GraphEdge(p, n).source in g.nodes;
    }
  }

  /** The states once the eligible ones among the first nodes were marked running. */
  ghost function PartlyDispatched(
    g: ExecutionGraph, states: map<NodeId, NodeState>, visited: seq<NodeId>): map<NodeId, NodeState>
  {
    map n | n in states :: if n in visited && Eligible(g, states, n) then NodeState.Running else states[n]
  }

  /** The dispatch loop after visiting some of the nodes. */
  ghost predicate Visiting(
    i: WorkflowInstance, visited: seq<NodeId>, states: map<NodeId, NodeState>, tasks: seq<Dispatch>)
  {
    var g := i.definition.graph;
    var chosen := Select(visited, n => Eligible(g, i.nodeStates, n));
    && (forall n :: n in g.nodes ==> n in states)
    && states == PartlyDispatched(g, i.nodeStates, visited)
    && (forall n :: n in chosen ==> n in g.nodes)
    && tasks == DispatchesOf(i, chosen)
  }

  /** Marking earlier nodes running does not change who is eligible among the rest. */
  lemma PartStep(g: ExecutionGraph, states: map<NodeId, NodeState>, visited: seq<NodeId>, n: NodeId)
    requires n in states && n !in visited
    ensures var part := PartlyDispatched(g, states, visited);
      && (Eligible(g, part, n) <==> Eligible(g, states, n))
      && PartlyDispatched(g, states, visited + [n])
          == if Eligible(g, states, n) then part[n := NodeState.Running] else part
  {
    var part := PartlyDispatched(g, states, visited);
    assert forall m :: m in states ==> (Finished(part[m]) <==> Finished(states[m]));
    assert Eligible(g, part, n) <==> Eligible(g, states, n);
    hide Eligible;
  }

  lemma VisitNext(
    i: WorkflowInstance, visited: seq<NodeId>, states: map<NodeId, NodeState>, tasks: seq<Dispatch>, n: NodeId)
    requires Tracked(i) && Visiting(i, visited, states, tasks) && n in i.definition.graph.nodes && n !in visited
    ensures n in states
    ensures Eligible(i.definition.graph, states, n) ==>
      Visiting(i, visited + [n], states[n := NodeState.Running], tasks + [DispatchOf(i, n)])
    ensures !Eligible(i.definition.graph, states, n) ==> Visiting(i, visited + [n], states, tasks)
  {
    hide IsDag, DispatchOf, PartlyDispatched, Eligible;
    var g := i.definition.graph;
    PartStep(g, i.nodeStates, visited, n);
    SelectSnoc(visited, n, m => Eligible(g, i.nodeStates, m));
  }

  /** One turn of the loop, in the terms the loop tests. */
  lemma Visit(i: WorkflowInstance, k: nat, states: map<NodeId, NodeState>, tasks: seq<Dispatch>)
    requires Tracked(i) && k < |i.definition.graph.order|
    requires Visiting(i, i.definition.graph.order[..k], states, tasks)
    ensures var g := i.definition.graph; var n := g.order[k];
      && n in g.nodes && n in states && (forall p :: p in Sources(g.edges, n) ==> p in states)
      && (if states[n] == NodeState.Pending && forall p :: p in Sources(g.edges, n) ==> Finished(states[p])
          then Visiting(i, g.order[..k + 1], states[n := NodeState.Running], tasks + [DispatchOf(i, n)])
          else Visiting(i, g.order[..k + 1], states, tasks))
  {
    var g := i.definition.graph;
    var n := g.order[k];
    NextInOrder(g.order, k);
    assert n in g.nodes && forall m :: m in g.nodes ==> m in states;
    hide Visiting, DispatchOf, IsDag, Sources, Tracked, NoDup;
    VisitNext(i, g.order[..k], states, tasks, n);
    TrackedIsDag(i);
    ParentsAreSources(g, states, n);
  }

  lemma NextInOrder(order: seq<NodeId>, k: nat)
    requires NoDup(order) && k < |order|
    ensures order[k] in order && order[k] !in order[..k] && order[..k + 1] == order[..k] + [order[k]]
  {
  }

  lemma TrackedIsDag(i: WorkflowInstance)
    requires Tracked(i)
    ensures IsDag(i.definition.graph)
  {
  }

  lemma VisitedAll(i: WorkflowInstance, states: map<NodeId, NodeState>, tasks: seq<Dispatch>)
    requires Tracked(i) && i.status == WorkflowStatus.Running
    requires Visiting(i, i.definition.graph.order, states, tasks)
    ensures Stepped(i.(nodeStates := states), tasks) == DispatchEligible(i)
  {
    var g := i.definition.graph;
    forall n | n in i.nodeStates && Eligible(g, i.nodeStates, n) ensures n in g.order {
    }
    assert states == DispatchStates(g, i.nodeStates);
  }

  method BuildTask(i: WorkflowInstance, n: NodeId) returns (task: ScheduledTask)
    requires n in i.definition.graph.nodes
    ensures Dispatch(n, task) == DispatchOf(i, n)
  {
    var node := i.definition.graph.nodes[n];
    var payload := ResolveNodeInputs(node, i.nodeOutputs);
    task := ScheduledTask(
      i.id + "_" + n,
      i.definition.name + ":" + n,
      map["workflow_instance_id" := Plain(Text(i.id)), "node_id" := Plain(Text(n)), "payload" := Nested(payload)]
      + (map key | key in node.payload :: Plain(node.payload[key])));
  }

  /**
    Marks the eligible nodes running, in graph order, and builds their tasks. A state without a node is
    never pending, so visiting the graph's nodes visits every candidate.
   */
  method DispatchEligibleNodes(i: WorkflowInstance) returns (next: WorkflowInstance, tasks: seq<Dispatch>)
    requires Tracked(i)
    ensures Stepped(next, tasks) == DispatchEligible(i)
  {
    next, tasks := i, [];
    if i.status != WorkflowStatus.Running {
      return;
    }
    var g := i.definition.graph;
    var parents := IndexParents(g);
    var states := i.nodeStates;
    hide Visiting, DispatchOf, Acyclic, Sources, Keyed, ValidEdges, DispatchEligible;
    VisitNone(i);
    for k := 0 to |g.order|
      invariant Visiting(i, g.order[..k], states, tasks)
    {
      var n := g.order[k];
      Visit(i, k, states, tasks);
      if states[n] == NodeState.Pending {
        var ready := ParentsReady(states, parents[n]);
        if ready {
          states := states[n := NodeState.Running];
          var task := BuildTask(i, n);
          tasks := tasks + [Dispatch(n, task)];
        }
      }
    }
    assert g.order[..|g.order|] == g.order;
    VisitedAll(i, states, tasks);
    next := i.(nodeStates := states);
  }

  lemma VisitNone(i: WorkflowInstance)
    requires Tracked(i)
    ensures Visiting(i, [], i.nodeStates, [])
  {
  }

  predicate Withdraws(i: WorkflowInstance, queued: set<string>, n: NodeId) {
    n in i.nodeStates && Unfinished(i.nodeStates[n]) && i.id + "_" + n in queued
  }

  /** The cancellation loop after visiting some of the nodes. */
  ghost predicate Cancelling(
    i: WorkflowInstance, queued: set<string>, visited: seq<NodeId>,
    states: map<NodeId, NodeState>, withdrawn: seq<NodeId>)
  {
    && states == (map n | n in i.nodeStates :: if n in visited then CancelledState(i.nodeStates[n]) else i.nodeStates[n])
    && withdrawn == Select(visited, n => Withdraws(i, queued, n))
  }

  lemma CancelOne(
    i: WorkflowInstance, queued: set<string>, k: nat, states: map<NodeId, NodeState>, withdrawn: seq<NodeId>)
    requires Tracked(i) && k < |i.definition.graph.order|
    requires Cancelling(i, queued, i.definition.graph.order[..k], states, withdrawn)
    ensures var order := i.definition.graph.order; var n := order[k];
      && n in i.nodeStates
      && Cancelling(i, queued, order[..k + 1], states[n := CancelledState(i.nodeStates[n])],
           if Withdraws(i, queued, n) then withdrawn + [n] else withdrawn)
  {
    var order := i.definition.graph.order;
    assert order[k] in order && order[..k + 1] == order[..k] + [order[k]];
    hide IsDag;
    SelectSnoc(order[..k], order[k], n => Withdraws(i, queued, n));
  }

  lemma CancelStates(i: WorkflowInstance, queued: set<string>)
    requires Tracked(i)
    ensures Cancelling(i, queued, [], i.nodeStates, [])
    ensures forall states, withdrawn :: Cancelling(i, queued, i.definition.graph.order, states, withdrawn) ==>
      states == CancelledStates(i.nodeStates) && withdrawn == Withdrawn(i, queued)
  {
    forall n | n in i.nodeStates && n !in i.definition.graph.order
      ensures CancelledState(i.nodeStates[n]) == i.nodeStates[n]
    {
    }
  }

  method CancelNodes(i: WorkflowInstance, queued: set<string>)
    returns (states: map<NodeId, NodeState>, withdrawn: seq<NodeId>)
    requires Tracked(i)
    ensures states == CancelledStates(i.nodeStates)
    ensures withdrawn == Withdrawn(i, queued)
  {
    hide Tracked, Cancelling, Withdrawn, CancelledStates;
    var order := i.definition.graph.order;
    states, withdrawn := i.nodeStates, [];
    CancelStates(i, queued);
    for k := 0 to |order|
      invariant Cancelling(i, queued, order[..k], states, withdrawn)
    {
      var n := order[k];
      CancelOne(i, queued, k, states, withdrawn);
      states := states[n := CancelledState(i.nodeStates[n])];
      if Unfinished(i.nodeStates[n]) && i.id + "_" + n in queued {
        withdrawn := withdrawn + [n];
      }
    }
    assert order[..|order|] == order;
  }

  class WorkflowOrchestrator {
    var instances: map<string, WorkflowInstance>
    var scheduled: seq<Dispatch>

    ghost predicate Valid()
      reads this
    {
      forall id :: id in instances ==> instances[id].id == id && Tracked(instances[id])
    }

    constructor ()
      ensures Valid() && instances == map[] && scheduled == []
    {
      instances, scheduled := map[], [];
    }

    /** `instances` and `scheduled` after taking a step on one instance. */
    twostate predicate Took(id: string, step: Stepped)
      reads this
    {
      && instances == old(instances)[id := step.inst]
      && scheduled == old(scheduled) + step.dispatches
    }

    /** Saves a checkpoint and hands tasks to the scheduler. */
    method Save(i: WorkflowInstance, tasks: seq<Dispatch>)
      requires Valid() && Tracked(i)
      modifies this
      ensures Valid() && Took(i.id, Stepped(i, tasks))
    {
      instances := instances[i.id := i];
      scheduled := scheduled + tasks;
    }

    /** `id` stands for the freshly drawn instance id. */
    method StartWorkflow(definition: WorkflowDefinition, inputs: map<string, Value>, id: string)
      returns (i: WorkflowInstance)
      requires Valid() && IsDag(definition.graph) && id !in instances
      modifies this
      ensures Valid() && exists levels :: PlanOf(definition.graph, levels, i.plan)
      ensures Took(id, StartStep(id, definition, inputs, i.plan)) && instances[id] == i
    {
      var plan := Plan(definition);
      var states := map n | n in definition.graph.nodes :: NodeState.Pending;
      var outputs: Outputs := if inputs == map[] then map[] else map["workflow_inputs" := inputs];
      var initial := WorkflowInstance(id, definition, WorkflowStatus.Running, states, outputs, plan);
      assert initial == Fresh(id, definition, inputs, plan);
      var tasks;
      i, tasks := DispatchEligibleNodes(initial);
      Save(i, tasks);
    }

    method PauseWorkflow(id: string) returns (r: Result<WorkflowInstance, OrchestratorError>)
      requires Valid()
      modifies this
      ensures Valid()
      ensures id !in old(instances) ==> r == Err(InstanceNotFound(id)) && unchanged(this)
      ensures id in old(instances) ==> Took(id, PauseStep(old(instances[id]))) && r == Ok(instances[id])
    {
      if id !in instances {
        return Err(InstanceNotFound(id));
      }
      var i := instances[id];
      if i.status == WorkflowStatus.Running {
        i := i.(status := WorkflowStatus.Paused);
        Save(i, []);
      }
      return Ok(i);
    }

    method ResumeWorkflow(id: string) returns (r: Result<WorkflowInstance, OrchestratorError>)
      requires Valid()
      modifies this
      ensures Valid()
      ensures id !in old(instances) ==> r == Err(InstanceNotFound(id)) && unchanged(this)
      ensures id in old(instances) ==> Took(id, ResumeStep(old(instances[id]))) && r == Ok(instances[id])
    {
      if id !in instances {
        return Err(InstanceNotFound(id));
      }
      var i := instances[id];
      if i.status == WorkflowStatus.Paused {
        var resumed, tasks := DispatchEligibleNodes(i.(status := WorkflowStatus.Running));
        i := resumed;
        Save(i, tasks);
      }
      return Ok(i);
    }

    /** `queued` are the task ids the scheduler's queue holds; `withdrawn` the nodes whose task it drops. */
    method CancelWorkflow(id: string, queued: set<string>)
      returns (r: Result<WorkflowInstance, OrchestratorError>, withdrawn: seq<NodeId>)
      requires Valid()
      modifies this
      ensures Valid()
      ensures id !in old(instances) ==> r == Err(InstanceNotFound(id)) && withdrawn == [] && unchanged(this)
      ensures id in old(instances) ==> Took(id, CancelStep(old(instances[id]))) && r == Ok(instances[id])
      ensures id in old(instances) ==>
        withdrawn == if Terminal(old(instances[id])) then [] else Withdrawn(old(instances[id]), queued)
    {
      withdrawn := [];
      if id !in instances {
        return Err(InstanceNotFound(id)), [];
      }
      var i := instances[id];
      if i.status == WorkflowStatus.Running || i.status == WorkflowStatus.Paused {
        var states;
        states, withdrawn := CancelNodes(i, queued);
        i := i.(status := WorkflowStatus.Cancelled, nodeStates := states);
        assert i == CancelStep(instances[id]).inst;
        Save(i, []);
      }
      return Ok(i), withdrawn;
    }

    predicate Terminal(i: WorkflowInstance) {
      i.status != WorkflowStatus.Running && i.status != WorkflowStatus.Paused
    }

    /** Reacts to a runtime event: records the outcome, concludes the workflow, dispatches what became ready. */
    method OnRuntimeEvent(event: RuntimeEvent) returns (r: Result<(), OrchestratorError>)
      requires Valid()
      modifies this
      ensures Valid()
      ensures !Correlated(event) ==> r == Ok(()) && unchanged(this)
      ensures Correlated(event) && event.instanceId.value !in old(instances) ==>
        r == Err(InstanceNotFound(event.instanceId.value)) && unchanged(this)
      ensures Correlated(event) && event.instanceId.value in old(instances) ==>
        var i := old(instances[event.instanceId.value]);
        var e := NodeEvent(event.node.value, event.outcome);
        Took(i.id, EventStep(i, e)) && r == if Raises(i, e) then Err(UnknownNode(e.node)) else Ok(())
    {
      if event.instanceId == None || event.instanceId.value == "" || event.node == None || event.node.value == "" {
        return Ok(());
      }
      if event.instanceId.value !in instances {
        return Err(InstanceNotFound(event.instanceId.value));
      }
      var i := instances[event.instanceId.value];
      var n := event.node.value;
      if i.status != WorkflowStatus.Running {
        return Ok(());
      }
      ghost var e := NodeEvent(n, event.outcome);
      ghost var before := i;
      if event.outcome.Completed? {
        i := i.(nodeStates := i.nodeStates[n := NodeState.Succeeded],
                nodeOutputs := i.nodeOutputs[n := map["result" := event.outcome.result]]);
      } else if IsFailure(event.outcome) {
        if n !in i.definition.graph.nodes {
          return Err(UnknownNode(n));
        }
        if PolicyAt(i.definition, n) == Ignore {
          i := i.(nodeStates := i.nodeStates[n := NodeState.Skipped]);
        } else {
          i := i.(nodeStates := i.nodeStates[n := NodeState.Failed], status := WorkflowStatus.Failed);
        }
      }
      assert i == Recorded(before, e);
      var done := AllCompleted(i);
      if done && i.status == WorkflowStatus.Running {
        i := i.(status := WorkflowStatus.Succeeded);
      }
      assert i == Concluded(Recorded(before, e));
      var tasks: seq<Dispatch> := [];
      if i.status == WorkflowStatus.Running {
        i, tasks := DispatchEligibleNodes(i);
      }
      Save(i, tasks);
      return Ok(());
    }
  }
}
