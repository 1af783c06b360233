/**
  The tasks a run hands out: what each of them says, that the events it leads to find their way back, where its
  inputs come from, and that a cancellation withdraws exactly those still queued.
 */
module WorkflowTasks {
  import opened Wrappers
  import opened Sequences
  import opened Graphs
  import opened Planner
  import opened Workflow
  import opened WorkflowRuns
  import opened Orchestrator

  // ---------- what a task says ----------

  const INSTANCE_KEY := "workflow_instance_id"
  const NODE_KEY := "node_id"
  const PAYLOAD_KEY := "payload"

  /** The source of a mapped input has this value under its key, and it is not null. */
  predicate Provides(outputs: Outputs, input: NodeInput, value: Value) {
    && input.sourceNode.Some? && input.sourceNode.value != "" && input.outputKey.Some?
    && input.sourceNode.value in outputs && input.outputKey.value in outputs[input.sourceNode.value]
    && outputs[input.sourceNode.value][input.outputKey.value] == value && value != Null
  }

  /** Mapped inputs hold what their sources provide or else their defaults; the rest is the node's own. */
  ghost predicate HoldsInputs(node: GraphNode, outputs: Outputs, values: map<string, Value>) {
    && values.Keys == node.payload.Keys + node.inputMappings.Keys
    && (forall k :: k in node.payload && k !in node.inputMappings ==> values[k] == node.payload[k])
    && (forall k :: k in node.inputMappings ==>
          || Provides(outputs, node.inputMappings[k], values[k])
          || (values[k] == node.inputMappings[k].default
              && forall v :: !Provides(outputs, node.inputMappings[k], v)))
  }

  /** The task is named after its node, and every entry its node does not bring itself says what it should. */
  ghost predicate Describes(id: string, definition: WorkflowDefinition, outputs: Outputs, x: Dispatch) {
    && x.node in definition.graph.nodes
    && x.task.id == id + "_" + x.node && x.task.title == definition.name + ":" + x.node
    && var own, metadata := definition.graph.nodes[x.node].payload, x.task.metadata;
    && metadata.Keys == own.Keys + {INSTANCE_KEY, NODE_KEY, PAYLOAD_KEY}
    && (forall k :: k in own ==> metadata[k] == Plain(own[k]))
    && (INSTANCE_KEY !in own ==> metadata[INSTANCE_KEY] == Plain(Text(id)))
    && (NODE_KEY !in own ==> metadata[NODE_KEY] == Plain(Text(x.node)))
    && (PAYLOAD_KEY !in own ==>
          && metadata[PAYLOAD_KEY].Nested?
          && HoldsInputs(definition.graph.nodes[x.node], outputs, metadata[PAYLOAD_KEY].values))
  }

  lemma ResolvedHoldsInputs(node: GraphNode, outputs: Outputs)
    ensures HoldsInputs(node, outputs, ResolvedInputs(node, outputs))
  {
  }

  lemma DispatchDescribes(i: WorkflowInstance, n: NodeId)
    requires n in i.definition.graph.nodes
    ensures Describes(i.id, i.definition, i.nodeOutputs, DispatchOf(i, n))
  {
    var node := i.definition.graph.nodes[n];
    var resolved := ResolvedInputs(node, i.nodeOutputs);
    ResolvedHoldsInputs(node, i.nodeOutputs);
    hide ResolvedInputs, HoldsInputs;
    MetadataSays(i.id, n, node.payload, resolved, DispatchOf(i, n).task.metadata);
  }

  /** Later entries hide earlier ones. */
  lemma MetadataSays(
    id: string, n: NodeId, own: map<string, Value>, resolved: map<string, Value>, metadata: map<string, MetaValue>)
    requires metadata == map["workflow_instance_id" := Plain(Text(id)), "node_id" := Plain(Text(n)),
                             "payload" := Nested(resolved)] + map k | k in own :: Plain(own[k])
    ensures metadata.Keys == own.Keys + {INSTANCE_KEY, NODE_KEY, PAYLOAD_KEY}
    ensures forall k :: k in own ==> metadata[k] == Plain(own[k])
    ensures INSTANCE_KEY !in own ==> metadata[INSTANCE_KEY] == Plain(Text(id))
    ensures NODE_KEY !in own ==> metadata[NODE_KEY] == Plain(Text(n))
    ensures PAYLOAD_KEY !in own ==> metadata[PAYLOAD_KEY] == Nested(resolved)
  {
  }

  // ---------- along a run ----------

  /** Everything in the list was described by these outputs. */
  ghost predicate AllDescribed(i: WorkflowInstance, dispatches: seq<Dispatch>) {
    forall j :: 0 <= j < |dispatches| ==> Describes(i.id, i.definition, i.nodeOutputs, dispatches[j])
  }

  lemma PassDescribes(i: WorkflowInstance)
    requires Tracked(i)
    ensures AllDescribed(DispatchEligible(i).inst, DispatchEligible(i).dispatches)
  {
    var r, nodes := DispatchEligible(i), EligibleNodes(i.definition.graph, i.nodeStates);
    hide Describes, DispatchOf, EligibleNodes;
    if i.status == WorkflowStatus.Running {
      forall j | 0 <= j < |r.dispatches| ensures Describes(i.id, i.definition, i.nodeOutputs, r.dispatches[j]) {
        EligibleAreNodes(i.definition.graph, i.nodeStates);
        assert nodes[j] in nodes;
        DispatchDescribes(i, nodes[j]);
      }
    }
  }

  lemma StepDescribes(i: WorkflowInstance, a: Action)
    requires Tracked(i)
    ensures AllDescribed(Step(i, a).inst, Step(i, a).dispatches)
  {
    hide Describes, DispatchEligible, Recorded, Concluded, Raises, IsDag;
    match a {
      case Pause =>
      case Resume =>
        if i.status == WorkflowStatus.Paused {
          PassDescribes(i.(status := WorkflowStatus.Running));
        }
      case Cancel =>
      case Deliver(e) =>
        if !Dropped(i, e) && !Raises(i, e) {
          PassDescribes(Concluded(Recorded(i, e)));
        }
    }
  }

  /** The `j`-th task came out with the last of the first `k` actions, or with the start if there are none. */
  ghost predicate HandedOutAt(s: RunState, actions: seq<Action>, j: int, k: int)
    requires Tracked(s.inst)
  {
    && 0 <= k <= |actions| && 0 <= j < |Run(s, actions[..k]).log|
    && (k > 0 ==> j >= |Run(s, actions[..k - 1]).log|)
  }

  lemma OneMoreAction(s: RunState, actions: seq<Action>)
    requires Tracked(s.inst) && actions != []
    ensures var before := Run(s, actions[..|actions| - 1]); var stepped := Step(before.inst, actions[|actions| - 1]);
      && Run(s, actions) == RunState(stepped.inst, before.log + stepped.dispatches)
      && stepped.inst.id == before.inst.id && stepped.inst.definition == before.inst.definition
  {
  }

  lemma StartDescribes(id: string, definition: WorkflowDefinition, inputs: map<string, Value>, plan: ExecutionPlan)
    requires IsDag(definition.graph)
    ensures var s := Begun(id, definition, inputs, plan); AllDescribed(s.inst, s.log)
  {
    PassDescribes(Fresh(id, definition, inputs, plan));
  }

  /** Every task in the log of any run says what it should, with the outputs of the moment it was handed out. */
  lemma {:induction false} LogDescribes(s: RunState, actions: seq<Action>, j: int) returns (k: int)
    requires Tracked(s.inst) && AllDescribed(s.inst, s.log) && 0 <= j < |Run(s, actions).log|
    ensures HandedOutAt(s, actions, j, k) && Run(s, actions[..k]).log[j] == Run(s, actions).log[j]
    ensures Describes(s.inst.id, s.inst.definition, Run(s, actions[..k]).inst.nodeOutputs, Run(s, actions).log[j])
  {
    hide Describes, Tracked, Step;
    if actions == [] {
      k := 0;
    } else {
      var n := |actions| - 1;
      var before := Run(s, actions[..n]);
      assert Follows(s.inst, before.inst);
      assert actions[..n + 1] == actions;
      OneMoreAction(s, actions);
      hide Run;
      if j < |before.log| {
        k := LogDescribes(s, actions[..n], j);
        assert actions[..n][..k] == actions[..k];
        if k > 0 {
          assert actions[..n][..k - 1] == actions[..k - 1];
        }
      } else {
        k := n + 1;
        StepDescribes(before.inst, actions[n]);
      }
    }
  }

  // ---------- finding the way back ----------

  /** A text kept under the key, if there is one. */
  function Entry(metadata: map<string, MetaValue>, key: string): Option<string> {
    if key in metadata && metadata[key].Plain? && metadata[key].value.Text? then Some(metadata[key].value.text)
    else None
  }

  /** The event that reports a task's outcome, correlated by the task's own metadata. */
  function EventFrom(task: ScheduledTask, outcome: Outcome): RuntimeEvent {
    RuntimeEvent(Entry(task.metadata, INSTANCE_KEY), Entry(task.metadata, NODE_KEY), outcome)
  }

  predicate Overrides(own: map<string, Value>, key: string, text: string) {
    key in own && own[key] != Text(text)
  }

  /**
    The events a task leads to reach its instance and its node exactly when neither id is blank and the node's
    own payload brings no other value under the two correlation keys.
   */
  lemma TaskFindsItsNodeIff(s: RunState, actions: seq<Action>, j: int, outcome: Outcome)
    requires Tracked(s.inst) && AllDescribed(s.inst, s.log) && 0 <= j < |Run(s, actions).log|
    ensures var x := Run(s, actions).log[j]; var e := EventFrom(x.task, outcome);
      && x.node in s.inst.definition.graph.nodes
      && var own := s.inst.definition.graph.nodes[x.node].payload;
         (Correlated(e) && e.instanceId == Some(s.inst.id) && e.node == Some(x.node) <==>
            && s.inst.id != "" && x.node != ""
            && !Overrides(own, INSTANCE_KEY, s.inst.id) && !Overrides(own, NODE_KEY, x.node))
  {
    var k := LogDescribes(s, actions, j);
    hide HoldsInputs, Run, HandedOutAt;
  }

  // ---------- where inputs come from ----------

  /** What the last completion that a running workflow took for the node left among the outputs. */
  ghost function OutputAfter(s: RunState, actions: seq<Action>, n: NodeId): Option<map<string, Value>>
    requires Tracked(s.inst)
  {
    if actions == [] then if n in s.inst.nodeOutputs then Some(s.inst.nodeOutputs[n]) else None
    else
      var front, last := actions[..|actions| - 1], actions[|actions| - 1];
      if last.Deliver? && last.event.outcome.Completed? && last.event.node == n && n != ""
        && Run(s, front).inst.status == WorkflowStatus.Running
      then Some(map["result" := last.event.outcome.result])
      else OutputAfter(s, front, n)
  }

  lemma StepOutputs(i: WorkflowInstance, a: Action)
    requires Tracked(i)
    ensures Step(i, a).inst.nodeOutputs ==
      if a.Deliver? && a.event.outcome.Completed? && a.event.node != "" && i.status == WorkflowStatus.Running
      then i.nodeOutputs[a.event.node := map["result" := a.event.outcome.result]]
      else i.nodeOutputs
  {
    hide IsDag, DispatchStates, DispatchesOf, AllSettled;
  }

  /** Over every run a node's outputs are the result of its last completion, or what the start put there. */
  lemma {:induction false} OutputsAreResults(s: RunState, actions: seq<Action>, n: NodeId)
    requires Tracked(s.inst)
    ensures OutputAfter(s, actions, n) ==
      var outputs := Run(s, actions).inst.nodeOutputs; if n in outputs then Some(outputs[n]) else None
  {
    if actions != [] {
      var front := actions[..|actions| - 1];
      OutputsAreResults(s, front, n);
      StepOutputs(Run(s, front).inst, actions[|actions| - 1]);
      hide Step, Tracked;
    }
  }

  // ---------- withdrawal ----------

  /** Still pending or running, and its task was handed out and is in the queue. */
  ghost predicate StillQueued(s: RunState, queued: set<string>, n: NodeId) {
    && n in s.inst.nodeStates
    && (s.inst.nodeStates[n] == NodeState.Pending || s.inst.nodeStates[n] == NodeState.Running)
    && exists j :: 0 <= j < |s.log| && s.log[j].node == n && s.log[j].task.id in queued
  }

  /** Whatever the queue holds of this workflow was handed out by it. */
  ghost predicate QueuedFrom(s: RunState, queued: set<string>) {
    forall n :: n in s.inst.definition.graph.nodes && s.inst.id + "_" + n in queued ==>
      exists j :: 0 <= j < |s.log| && s.log[j].task.id == s.inst.id + "_" + n
  }

  lemma SameSuffix(a: string, b: string, c: string)
    requires a + b == a + c
    ensures b == c
  {
    assert (a + b)[|a|..] == b && (a + c)[|a|..] == c;
  }

  /** Cancelling after any run withdraws exactly the unfinished nodes whose tasks are still queued, in graph order. */
  lemma CancelWithdrawsQueued(s: RunState, actions: seq<Action>, queued: set<string>)
    requires Tracked(s.inst) && AllDescribed(s.inst, s.log) && QueuedFrom(Run(s, actions), queued)
    ensures var r := Run(s, actions);
      Withdrawn(r.inst, queued) == Select(r.inst.definition.graph.order, n => StillQueued(r, queued, n))
  {
    var r := Run(s, actions);
    assert Follows(s.inst, r.inst);
    forall j | 0 <= j < |r.log| ensures r.log[j].task.id == r.inst.id + "_" + r.log[j].node {
      var k := LogDescribes(s, actions, j);
    }
    hide Run, Describes, IsDag;
    forall n | n in r.inst.definition.graph.order ensures Withdraws(r.inst, queued, n) <==> StillQueued(r, queued, n) {
      WithdrawsIffQueued(r, queued, n);
    }
    SelectSame(r.inst.definition.graph.order, n => Withdraws(r.inst, queued, n), n => StillQueued(r, queued, n));
  }

  lemma WithdrawsIffQueued(r: RunState, queued: set<string>, n: NodeId)
    requires n in r.inst.definition.graph.nodes && QueuedFrom(r, queued)
    requires forall j :: 0 <= j < |r.log| ==> r.log[j].task.id == r.inst.id + "_" + r.log[j].node
    ensures Withdraws(r.inst, queued, n) <==> StillQueued(r, queued, n)
  {
    if Withdraws(r.inst, queued, n) {
      var j :| 0 <= j < |r.log| && r.log[j].task.id == r.inst.id + "_" + n;
      SameSuffix(r.inst.id + "_", n, r.log[j].node);
    }
  }
}
