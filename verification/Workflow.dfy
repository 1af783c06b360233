/**
  A workflow instance and the steps the orchestrator takes on it, as functions on values. Each public
  orchestrator operation runs under one lock, so it is one step.
 */
module Workflow {
  import opened Sequences
  import opened Graphs
  import opened Planner

  datatype WorkflowStatus = Pending | Running | Paused | Succeeded | Failed | Cancelled

  datatype NodeState =
    Pending | Preparing | Running | Succeeded | Failed | Skipped | Cancelled | WaitingApproval

  type Outputs = map<string, map<string, Value>>

  datatype WorkflowInstance = WorkflowInstance(
    id: string,
    definition: WorkflowDefinition,
    status: WorkflowStatus,
    nodeStates: map<NodeId, NodeState>,
    nodeOutputs: Outputs,
    plan: ExecutionPlan)

  datatype MetaValue = Plain(value: Value) | Nested(values: map<string, Value>)

  /** The task handed to the scheduler for a node. */
  datatype ScheduledTask = ScheduledTask(id: string, title: string, metadata: map<string, MetaValue>)

  datatype Dispatch = Dispatch(node: NodeId, task: ScheduledTask)

  datatype Outcome = Completed(result: Value) | Failure | TimedOut | TaskCancelled | Other

  /** A runtime event correlated with a node of this instance. */
  datatype NodeEvent = NodeEvent(node: NodeId, outcome: Outcome)

  // ---------- data mapping ----------

  function InputValue(input: NodeInput, outputs: Outputs): Value {
    var value :=
      if input.sourceNode.Some? && input.sourceNode.value != "" && input.sourceNode.value in outputs
        && input.outputKey.Some? && input.outputKey.value in outputs[input.sourceNode.value]
      then outputs[input.sourceNode.value][input.outputKey.value]
      else Null;
    if value == Null then input.default else value
  }

  function ResolvedInputs(node: GraphNode, outputs: Outputs): map<string, Value> {
    node.payload + (map k | k in node.inputMappings :: InputValue(node.inputMappings[k], outputs))
  }

  /** The node's own payload is spread last, over the correlation keys. */
  function TaskFor(id: string, name: string, n: NodeId, node: GraphNode, outputs: Outputs): ScheduledTask {
    ScheduledTask(
      id + "_" + n,
      name + ":" + n,
      map["workflow_instance_id" := Plain(Text(id)), "node_id" := Plain(Text(n)),
          "payload" := Nested(ResolvedInputs(node, outputs))]
      + (map k | k in node.payload :: Plain(node.payload[k])))
  }

  // ---------- dispatch ----------

  predicate Finished(s: NodeState) {
    s == NodeState.Succeeded || s == NodeState.Skipped
  }

  /** States that keep a workflow from being complete. */
  predicate Active(s: NodeState) {
    s == NodeState.Pending || s == NodeState.Running || s == NodeState.WaitingApproval
  }

  ghost predicate ParentsFinished(g: ExecutionGraph, states: map<NodeId, NodeState>, n: NodeId) {
    forall m :: HasEdge(g, m, n) ==> m in states && Finished(states[m])
  }

  ghost predicate Eligible(g: ExecutionGraph, states: map<NodeId, NodeState>, n: NodeId) {
    n in states && states[n] == NodeState.Pending && ParentsFinished(g, states, n)
  }

  ghost function DispatchStates(g: ExecutionGraph, states: map<NodeId, NodeState>): (r: map<NodeId, NodeState>)
    ensures r.Keys == states.Keys
  {
    map n | n in states :: if Eligible(g, states, n) then NodeState.Running else states[n]
  }

  ghost function EligibleNodes(g: ExecutionGraph, states: map<NodeId, NodeState>): seq<NodeId> {
    Select(g.order, n => Eligible(g, states, n))
  }

  lemma EligibleAreNodes(g: ExecutionGraph, states: map<NodeId, NodeState>)
    requires IsDag(g)
    ensures forall n :: n in EligibleNodes(g, states) ==> n in g.nodes && Eligible(g, states, n)
  {
  }

  ghost function DispatchOf(i: WorkflowInstance, n: NodeId): Dispatch
    requires n in i.definition.graph.nodes
  {
    Dispatch(n, TaskFor(i.id, i.definition.name, n, i.definition.graph.nodes[n], i.nodeOutputs))
  }

  ghost function DispatchesOf(i: WorkflowInstance, nodes: seq<NodeId>): (r: seq<Dispatch>)
    requires forall n :: n in nodes ==> n in i.definition.graph.nodes
    ensures |r| == |nodes|
  {
    seq(|nodes|, k requires 0 <= k < |nodes| => DispatchOf(i, nodes[k]))
  }

  // ---------- steps ----------

  datatype Stepped = Stepped(inst: WorkflowInstance, dispatches: seq<Dispatch>)

  /** Every graph node has a state; a state without a node is one a stray completion recorded. */
  ghost predicate Tracked(i: WorkflowInstance) {
    && IsDag(i.definition.graph)
    && (forall n :: n in i.definition.graph.nodes ==> n in i.nodeStates)
    && (forall n :: n in i.nodeStates && n !in i.definition.graph.nodes ==> i.nodeStates[n] == NodeState.Succeeded)
  }

  /** Same identity, definition and plan, and still tracked. */
  ghost predicate Follows(i: WorkflowInstance, next: WorkflowInstance) {
    && next.id == i.id && next.definition == i.definition && next.plan == i.plan
    && (Tracked(i) ==> Tracked(next))
  }

  ghost function DispatchEligible(i: WorkflowInstance): (r: Stepped)
    requires Tracked(i)
    ensures Follows(i, r.inst)
  {
    if i.status != WorkflowStatus.Running then Stepped(i, [])
    else
      Stepped(
        i.(nodeStates := DispatchStates(i.definition.graph, i.nodeStates)),
        DispatchesOf(i, EligibleNodes(i.definition.graph, i.nodeStates)))
  }

  ghost function Fresh(
    id: string, definition: WorkflowDefinition, inputs: map<string, Value>, plan: ExecutionPlan): WorkflowInstance
  {
    WorkflowInstance(id, definition, WorkflowStatus.Running,
      map n | n in definition.graph.nodes :: NodeState.Pending,
      if inputs == map[] then map[] else map["workflow_inputs" := inputs],
      plan)
  }

  ghost function StartStep(
    id: string, definition: WorkflowDefinition, inputs: map<string, Value>, plan: ExecutionPlan): Stepped
    requires IsDag(definition.graph)
  {
    DispatchEligible(Fresh(id, definition, inputs, plan))
  }

  ghost function PauseStep(i: WorkflowInstance): (r: Stepped)
    ensures Follows(i, r.inst)
  {
    Stepped(if i.status == WorkflowStatus.Running then i.(status := WorkflowStatus.Paused) else i, [])
  }

  ghost function ResumeStep(i: WorkflowInstance): (r: Stepped)
    requires Tracked(i)
    ensures Follows(i, r.inst)
  {
    if i.status == WorkflowStatus.Paused then DispatchEligible(i.(status := WorkflowStatus.Running))
    else Stepped(i, [])
  }

  function CancelledState(s: NodeState): NodeState {
    if s == NodeState.Pending || s == NodeState.Running then NodeState.Cancelled else s
  }

  ghost function CancelStep(i: WorkflowInstance): (r: Stepped)
    ensures Follows(i, r.inst)
  {
    if i.status == WorkflowStatus.Running || i.status == WorkflowStatus.Paused then
      Stepped(
        i.(status := WorkflowStatus.Cancelled,
           nodeStates := map n | n in i.nodeStates :: CancelledState(i.nodeStates[n])),
        [])
    else Stepped(i, [])
  }

  /** The failure policy in force at a node: its own, or else the workflow's. */
  function PolicyAt(definition: WorkflowDefinition, n: NodeId): FailurePolicy
    requires n in definition.graph.nodes
  {
    match definition.graph.nodes[n].failureHandling
    case Some(policy) => policy
    case None => definition.failureHandling
  }

  predicate IsFailure(o: Outcome) {
    o.Failure? || o.TimedOut? || o.TaskCancelled?
  }

  /** A failure that fails the whole workflow. Compensation is treated like failing. */
  predicate IsFatal(definition: WorkflowDefinition, e: NodeEvent) {
    IsFailure(e.outcome) && e.node in definition.graph.nodes && PolicyAt(definition, e.node) != Ignore
  }

  /** A failure of a node the graph does not know raises before anything is saved. */
  predicate Raises(i: WorkflowInstance, e: NodeEvent) {
    && i.status == WorkflowStatus.Running && e.node != ""
    && IsFailure(e.outcome) && e.node !in i.definition.graph.nodes
  }

  /** Events are dropped unless the workflow is running and the node id is non-empty. */
  predicate Dropped(i: WorkflowInstance, e: NodeEvent) {
    i.status != WorkflowStatus.Running || e.node == ""
  }

  ghost function Recorded(i: WorkflowInstance, e: NodeEvent): (r: WorkflowInstance)
    requires !Dropped(i, e) && !Raises(i, e)
    ensures Follows(i, r)
  {
    match e.outcome
    case Completed(value) =>
      i.(nodeStates := i.nodeStates[e.node := NodeState.Succeeded],
         nodeOutputs := i.nodeOutputs[e.node := map["result" := value]])
    case Other => i
    case _ =>
      if IsFatal(i.definition, e) then
        i.(nodeStates := i.nodeStates[e.node := NodeState.Failed], status := WorkflowStatus.Failed)
      else
        i.(nodeStates := i.nodeStates[e.node := NodeState.Skipped])
  }

  ghost predicate AllSettled(states: map<NodeId, NodeState>) {
    forall n :: n in states ==> !Active(states[n])
  }

  ghost function Concluded(i: WorkflowInstance): (r: WorkflowInstance)
    ensures Follows(i, r)
  {
    if i.status == WorkflowStatus.Running && AllSettled(i.nodeStates)
    then i.(status := WorkflowStatus.Succeeded)
    else i
  }

  ghost function EventStep(i: WorkflowInstance, e: NodeEvent): (r: Stepped)
    requires Tracked(i)
    ensures Follows(i, r.inst)
  {
    if Dropped(i, e) || Raises(i, e) then Stepped(i, [])
    else DispatchEligible(Concluded(Recorded(i, e)))
  }

  datatype Action = Pause | Resume | Cancel | Deliver(event: NodeEvent)

  ghost function Step(i: WorkflowInstance, a: Action): (r: Stepped)
    requires Tracked(i)
    ensures Follows(i, r.inst)
  {
    match a
    case Pause => PauseStep(i)
    case Resume => ResumeStep(i)
    case Cancel => CancelStep(i)
    case Deliver(e) => EventStep(i, e)
  }
}
