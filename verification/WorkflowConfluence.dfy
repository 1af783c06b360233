/**
  Order independence. The state after a legal run depends only on which outcome each node had, not on
  the order of delivery; two pending deliveries commute exactly when neither is fatal.
 */
module WorkflowConfluence {
  import opened Graphs
  import opened Planner
  import opened Workflow
  import opened WorkflowSafety
  import opened WorkflowRuns

  type Delivered = map<NodeId, Outcome>

  /** What a workflow is started with. */
  datatype Launch = Launch(
    id: string, definition: WorkflowDefinition, inputs: map<string, Value>, plan: ExecutionPlan)

  ghost function Start(l: Launch): (s: RunState)
    requires IsDag(l.definition.graph)
    ensures Tracked(s.inst) && s.inst.definition == l.definition && s.inst.id == l.id && s.inst.plan == l.plan
  {
    Begun(l.id, l.definition, l.inputs, l.plan)
  }

  // ---------- the canonical state ----------

  ghost function OutcomeState(definition: WorkflowDefinition, n: NodeId, o: Outcome): NodeState {
    if o.Completed? then NodeState.Succeeded
    else if IsFatal(definition, NodeEvent(n, o)) then NodeState.Failed
    else NodeState.Skipped
  }

  ghost predicate FinishedBy(definition: WorkflowDefinition, d: Delivered, n: NodeId) {
    n in d && Finished(OutcomeState(definition, n, d[n]))
  }

  ghost predicate Unblocked(definition: WorkflowDefinition, d: Delivered, n: NodeId) {
    forall m :: HasEdge(definition.graph, m, n) ==> FinishedBy(definition, d, m)
  }

  ghost function CanonicalState(definition: WorkflowDefinition, d: Delivered, n: NodeId): NodeState {
    if n in d then OutcomeState(definition, n, d[n])
    else if Unblocked(definition, d, n) then NodeState.Running
    else NodeState.Pending
  }

  ghost function CanonicalStates(definition: WorkflowDefinition, d: Delivered): map<NodeId, NodeState> {
    map n | n in definition.graph.nodes :: CanonicalState(definition, d, n)
  }

  ghost function LaunchOutputs(inputs: map<string, Value>): Outputs {
    if inputs == map[] then map[] else map["workflow_inputs" := inputs]
  }

  ghost function CanonicalOutputs(inputs: map<string, Value>, d: Delivered): Outputs {
    LaunchOutputs(inputs)
    + (map n | n in d && d[n].Completed? :: map["result" := d[n].result])
  }

  ghost predicate AnyFatal(definition: WorkflowDefinition, d: Delivered) {
    exists n :: n in d && IsFatal(definition, NodeEvent(n, d[n]))
  }

  ghost function CanonicalStatus(definition: WorkflowDefinition, d: Delivered): WorkflowStatus {
    if AnyFatal(definition, d) then WorkflowStatus.Failed
    else if d != map[] && definition.graph.nodes.Keys <= d.Keys then WorkflowStatus.Succeeded
    else WorkflowStatus.Running
  }

  /** The instance as a function of the launch and of each node's outcome. */
  ghost function Canonical(l: Launch, d: Delivered): WorkflowInstance {
    WorkflowInstance(l.id, l.definition, CanonicalStatus(l.definition, d), CanonicalStates(l.definition, d),
      CanonicalOutputs(l.inputs, d), l.plan)
  }

  lemma StartIsCanonical(l: Launch)
    requires IsDag(l.definition.graph)
    ensures Start(l).inst == Canonical(l, map[])
  {
    var i := Fresh(l.id, l.definition, l.inputs, l.plan);
    StartStates(l.definition, i.nodeStates);
    NothingDelivered(l);
    assert Start(l).inst == i.(nodeStates := DispatchStates(l.definition.graph, i.nodeStates));
    hide IsDag, DispatchStates, CanonicalStates, CanonicalOutputs, CanonicalStatus, EligibleNodes, Start;
  }

  lemma NothingDelivered(l: Launch)
    ensures CanonicalOutputs(l.inputs, map[]) == LaunchOutputs(l.inputs)
    ensures CanonicalStatus(l.definition, map[]) == WorkflowStatus.Running
  {
  }

  lemma StartStates(definition: WorkflowDefinition, states: map<NodeId, NodeState>)
    requires IsDag(definition.graph)
    requires states.Keys == definition.graph.nodes.Keys && forall m :: m in states ==> states[m] == NodeState.Pending
    ensures DispatchStates(definition.graph, states) == CanonicalStates(definition, map[])
  {
    forall n | n in definition.graph.nodes
      ensures Eligible(definition.graph, states, n) <==> Unblocked(definition, map[], n)
    {
      RootsAreUnblocked(definition, states, n);
    }
    hide IsDag, Eligible, Unblocked;
    assert DispatchStates(definition.graph, states).Keys == CanonicalStates(definition, map[]).Keys;
  }

  lemma RootsAreUnblocked(definition: WorkflowDefinition, states: map<NodeId, NodeState>, n: NodeId)
    requires IsDag(definition.graph) && n in definition.graph.nodes
    requires states.Keys == definition.graph.nodes.Keys && forall m :: m in states ==> states[m] == NodeState.Pending
    ensures Eligible(definition.graph, states, n) <==> Unblocked(definition, map[], n)
  {
    hide Acyclic, Keyed;
    var g := definition.graph;
    forall m | HasEdge(g, m, n) ensures m in states && !Finished(states[m]) && !FinishedBy(definition, map[], m) {
      assert GraphEdge(m, n).source in g.nodes;
    }
  }

  /** The node states just after recording an outcome, before dispatch. */
  ghost function RecordedStates(definition: WorkflowDefinition, d: Delivered, e: NodeEvent): map<NodeId, NodeState> {
    CanonicalStates(definition, d)[e.node := OutcomeState(definition, e.node, e.outcome)]
  }

  ghost predicate Pending(definition: WorkflowDefinition, d: Delivered, e: NodeEvent) {
    && IsDag(definition.graph)
    && e.node in definition.graph.nodes && e.node !in d && !e.outcome.Other?
  }

  lemma ParentsOfRecorded(definition: WorkflowDefinition, d: Delivered, e: NodeEvent, n: NodeId)
    requires Pending(definition, d, e) && n in definition.graph.nodes
    ensures ParentsFinished(definition.graph, RecordedStates(definition, d, e), n)
      <==> Unblocked(definition, d[e.node := e.outcome], n)
  {
    hide Acyclic, Keyed;
    var states := RecordedStates(definition, d, e);
    var next := d[e.node := e.outcome];
    forall m | HasEdge(definition.graph, m, n)
      ensures m in states && (Finished(states[m]) <==> FinishedBy(definition, next, m))
    {
      assert GraphEdge(m, n).source in definition.graph.nodes;
    }
  }

  lemma UnblockedGrows(definition: WorkflowDefinition, d: Delivered, e: NodeEvent, n: NodeId)
    requires Pending(definition, d, e)
    ensures Unblocked(definition, d, n) ==> Unblocked(definition, d[e.node := e.outcome], n)
    ensures IsFatal(definition, e) && Unblocked(definition, d[e.node := e.outcome], n) ==> Unblocked(definition, d, n)
  {
    var next := d[e.node := e.outcome];
    assert forall m :: m != e.node ==> (FinishedBy(definition, d, m) <==> FinishedBy(definition, next, m));
    assert IsFatal(definition, e) ==> !FinishedBy(definition, next, e.node);
  }

  lemma FatalStates(definition: WorkflowDefinition, d: Delivered, e: NodeEvent)
    requires Pending(definition, d, e) && IsFatal(definition, e)
    ensures RecordedStates(definition, d, e) == CanonicalStates(definition, d[e.node := e.outcome])
  {
    hide IsDag, Unblocked;
    var next := d[e.node := e.outcome];
    forall n | n in definition.graph.nodes
      ensures RecordedStates(definition, d, e)[n] == CanonicalState(definition, next, n)
    {
      UnblockedGrows(definition, d, e, n);
    }
  }

  lemma DispatchedStates(definition: WorkflowDefinition, d: Delivered, e: NodeEvent)
    requires Pending(definition, d, e) && !IsFatal(definition, e)
    ensures DispatchStates(definition.graph, RecordedStates(definition, d, e))
      == CanonicalStates(definition, d[e.node := e.outcome])
  {
    hide IsDag, Unblocked, ParentsFinished;
    var next := d[e.node := e.outcome];
    var states := RecordedStates(definition, d, e);
    forall n | n in definition.graph.nodes
      ensures DispatchStates(definition.graph, states)[n] == CanonicalState(definition, next, n)
    {
      UnblockedGrows(definition, d, e, n);
      ParentsOfRecorded(definition, d, e, n);
    }
    assert DispatchStates(definition.graph, states).Keys == definition.graph.nodes.Keys;
  }

  lemma ConcludedStates(definition: WorkflowDefinition, d: Delivered, e: NodeEvent)
    requires Pending(definition, d, e)
    ensures AllSettled(RecordedStates(definition, d, e)) <==> definition.graph.nodes.Keys <= d[e.node := e.outcome].Keys
    ensures definition.graph.nodes.Keys <= d[e.node := e.outcome].Keys ==>
      RecordedStates(definition, d, e) == CanonicalStates(definition, d[e.node := e.outcome])
  {
    hide IsDag, Unblocked;
    var next := d[e.node := e.outcome];
    var states := RecordedStates(definition, d, e);
    forall n | n in definition.graph.nodes ensures Active(states[n]) <==> n !in next {
    }
  }

  /** Delivering one more outcome to a canonical state gives the next canonical state. */
  lemma LegalEventIsCanonical(l: Launch, d: Delivered, e: NodeEvent)
    requires IsDag(l.definition.graph) && Tracked(Canonical(l, d)) && Legal(Canonical(l, d), e)
    ensures e.node !in d
    ensures EventStep(Canonical(l, d), e).inst == Canonical(l, d[e.node := e.outcome])
  {
    hide IsDag, Unblocked, AllSettled, DispatchStates, EligibleNodes, CanonicalStates, CanonicalOutputs;
    var i := Canonical(l, d);
    var next := d[e.node := e.outcome];
    assert e.node !in d by {
      NotYetDelivered(l.definition, d, e.node);
    }
    var recorded := Recorded(i, e);
    assert recorded.nodeStates == RecordedStates(l.definition, d, e);
    OutputsGrow(l.inputs, d, e);
    assert recorded.nodeOutputs == CanonicalOutputs(l.inputs, next);
    if IsFatal(l.definition, e) {
      FatalStates(l.definition, d, e);
      assert IsFatal(l.definition, NodeEvent(e.node, next[e.node]));
    } else {
      DispatchedStates(l.definition, d, e);
      ConcludedStates(l.definition, d, e);
      FatalStaysOut(l.definition, d, e);
    }
  }

  lemma OutputsGrow(inputs: map<string, Value>, d: Delivered, e: NodeEvent)
    requires e.node !in d
    ensures CanonicalOutputs(inputs, d[e.node := e.outcome]) ==
      if e.outcome.Completed?
      then CanonicalOutputs(inputs, d)[e.node := map["result" := e.outcome.result]]
      else CanonicalOutputs(inputs, d)
  {
  }

  lemma NotYetDelivered(definition: WorkflowDefinition, d: Delivered, n: NodeId)
    requires n in definition.graph.nodes && CanonicalStates(definition, d)[n] == NodeState.Running
    ensures n !in d && Unblocked(definition, d, n)
  {
  }

  lemma FatalStaysOut(definition: WorkflowDefinition, d: Delivered, e: NodeEvent)
    requires !AnyFatal(definition, d) && !IsFatal(definition, e) && e.node !in d
    ensures !AnyFatal(definition, d[e.node := e.outcome])
  {
  }

  // ---------- confluence ----------

  /** Which outcome each event of a run carried. */
  ghost function DeliveredBy(events: seq<NodeEvent>): Delivered {
    if events == [] then map[]
    else DeliveredBy(events[..|events| - 1])[events[|events| - 1].node := events[|events| - 1].outcome]
  }

  /** A legal run names each node at most once and ends in the canonical state of its outcomes. */
  lemma {:induction false} LegalRunIsCanonical(l: Launch, events: seq<NodeEvent>)
    requires IsDag(l.definition.graph) && LegalRun(Start(l), events)
    ensures RunEvents(Start(l), events).inst == Canonical(l, DeliveredBy(events))
    ensures forall n, o :: NodeEvent(n, o) in events <==> n in DeliveredBy(events) && DeliveredBy(events)[n] == o
  {
    hide IsDag, Legal, EventStep, Canonical;
    if events == [] {
      StartIsCanonical(l);
    } else {
      var front, e := events[..|events| - 1], events[|events| - 1];
      LegalRunIsCanonical(l, front);
      LegalEventIsCanonical(l, DeliveredBy(front), e);
      assert events == front + [e];
    }
  }

  /** `d` holds exactly the outcomes in `events`. */
  ghost predicate Holds(d: Delivered, events: seq<NodeEvent>) {
    forall n, o :: NodeEvent(n, o) in events <==> n in d && d[n] == o
  }

  lemma SameEventsSameOutcomes(d: Delivered, events: seq<NodeEvent>, d': Delivered, events': seq<NodeEvent>)
    requires Holds(d, events) && Holds(d', events') && multiset(events) == multiset(events')
    ensures d == d'
  {
    forall e ensures e in events <==> e in events' {
      assert e in events <==> e in multiset(events);
      assert e in events' <==> e in multiset(events');
    }
    forall n ensures n in d ==> n in d' && d'[n] == d[n] {
      if n in d {
        assert NodeEvent(n, d[n]) in events;
        assert NodeEvent(n, d[n]) in events';
      }
    }
    forall n ensures n in d' ==> n in d {
      if n in d' {
        assert NodeEvent(n, d'[n]) in events';
        assert NodeEvent(n, d'[n]) in events;
      }
    }
  }

  /**
    Confluence: two legal runs that deliver the same outcomes, in whatever order, end in the same
    instance: same node states, outputs and status.
   */
  lemma Confluence(l: Launch, events: seq<NodeEvent>, events': seq<NodeEvent>)
    requires IsDag(l.definition.graph)
    requires LegalRun(Start(l), events) && LegalRun(Start(l), events')
    requires multiset(events) == multiset(events')
    ensures RunEvents(Start(l), events).inst == RunEvents(Start(l), events').inst
  {
    hide LegalRun, RunEvents, IsDag, DeliveredBy, Canonical;
    LegalRunIsCanonical(l, events);
    LegalRunIsCanonical(l, events');
    SameEventsSameOutcomes(DeliveredBy(events), events, DeliveredBy(events'), events');
  }

  // ---------- two pending deliveries ----------

  /** Delivers `e` and then `e'`. */
  ghost function Both(i: WorkflowInstance, e: NodeEvent, e': NodeEvent): WorkflowInstance
    requires Tracked(i)
  {
    EventStep(EventStep(i, e).inst, e').inst
  }

  lemma FatalComesFirst(i: WorkflowInstance, e: NodeEvent, e': NodeEvent)
    requires Tracked(i) && Legal(i, e) && Legal(i, e') && e.node != e'.node && IsFatal(i.definition, e)
    ensures Both(i, e, e').nodeStates[e'.node] == NodeState.Running
    ensures Both(i, e, e').nodeStates[e.node] == NodeState.Failed
  {
    hide IsDag;
  }

  /** A finished node keeps its state through an event for another node. */
  lemma FinishedStays(i: WorkflowInstance, e: NodeEvent, n: NodeId)
    requires Tracked(i) && n in i.nodeStates && Finished(i.nodeStates[n]) && n != e.node
    ensures n in EventStep(i, e).inst.nodeStates && EventStep(i, e).inst.nodeStates[n] == i.nodeStates[n]
  {
    hide IsDag, EligibleNodes, ParentsFinished, IsFatal;
  }

  lemma NonFatalFinishes(i: WorkflowInstance, e: NodeEvent)
    requires Tracked(i) && Legal(i, e) && !IsFatal(i.definition, e)
    ensures e.node in EventStep(i, e).inst.nodeStates && Finished(EventStep(i, e).inst.nodeStates[e.node])
  {
    hide IsDag, EligibleNodes, ParentsFinished;
  }

  lemma RecordedStays(i: WorkflowInstance, e: NodeEvent, e': NodeEvent)
    requires Tracked(i) && Legal(i, e) && Legal(i, e') && e.node != e'.node && !IsFatal(i.definition, e)
    ensures e.node in Both(i, e, e').nodeStates && Both(i, e, e').nodeStates[e.node] != NodeState.Running
  {
    NonFatalFinishes(i, e);
    FinishedStays(EventStep(i, e).inst, e', e.node);
    hide Tracked, EventStep, IsFatal, Legal;
  }

  /** Dispatching between two recordings changes nothing that dispatching after both does not. */
  lemma DispatchAbsorbs(g: ExecutionGraph, states: map<NodeId, NodeState>, n: NodeId, s: NodeState)
    requires n in states && states[n] == NodeState.Running && Finished(s)
    ensures DispatchStates(g, DispatchStates(g, states)[n := s]) == DispatchStates(g, states[n := s])
    ensures AllSettled(DispatchStates(g, states)[n := s]) <==> AllSettled(states[n := s])
    ensures AllSettled(states[n := s]) ==> DispatchStates(g, states)[n := s] == states[n := s]
  {
    var early := DispatchStates(g, states)[n := s];
    var late := states[n := s];
    assert early.Keys == late.Keys;
    forall m | m in states ensures ParentsFinished(g, early, m) <==> ParentsFinished(g, late, m) {
    }
    forall m | m in states ensures ParentsFinished(g, states, m) ==> ParentsFinished(g, late, m) {
    }
    forall m | m in states ensures Active(early[m]) <==> Active(late[m]) {
    }
  }

  ghost function RecordedBoth(i: WorkflowInstance, e: NodeEvent, e': NodeEvent): WorkflowInstance
    requires Legal(i, e) && Legal(i, e') && !IsFatal(i.definition, e)
  {
    Recorded(Recorded(i, e), e')
  }

  lemma BothIsOnePass(i: WorkflowInstance, e: NodeEvent, e': NodeEvent)
    requires Tracked(i) && Legal(i, e) && Legal(i, e') && e.node != e'.node
    requires !IsFatal(i.definition, e) && !IsFatal(i.definition, e')
    ensures Tracked(RecordedBoth(i, e, e'))
    ensures Both(i, e, e') == DispatchEligible(Concluded(RecordedBoth(i, e, e'))).inst
  {
    hide IsDag, DispatchStates, EligibleNodes;
    var r := Recorded(i, e);
    assert Active(r.nodeStates[e'.node]);
    DispatchAbsorbs(i.definition.graph, r.nodeStates, e'.node, Recorded(i, e').nodeStates[e'.node]);
    hide AllSettled;
    assert EventStep(i, e).inst == r.(nodeStates := DispatchStates(i.definition.graph, r.nodeStates));
  }

  function SettledState(o: Outcome): NodeState {
    if o.Completed? then NodeState.Succeeded else NodeState.Skipped
  }

  function WithOutput(outputs: Outputs, e: NodeEvent): Outputs {
    if e.outcome.Completed? then outputs[e.node := map["result" := e.outcome.result]] else outputs
  }

  lemma NonFatalRecords(i: WorkflowInstance, e: NodeEvent)
    requires !Dropped(i, e) && !Raises(i, e) && !e.outcome.Other? && !IsFatal(i.definition, e)
    ensures Recorded(i, e) ==
      i.(nodeStates := i.nodeStates[e.node := SettledState(e.outcome)], nodeOutputs := WithOutput(i.nodeOutputs, e))
  {
    hide IsFatal;
  }

  lemma OutputsCommute(outputs: Outputs, e: NodeEvent, e': NodeEvent)
    requires e.node != e'.node
    ensures WithOutput(WithOutput(outputs, e), e') == WithOutput(WithOutput(outputs, e'), e)
  {
  }

  lemma RecordingsCommute(i: WorkflowInstance, e: NodeEvent, e': NodeEvent)
    requires Legal(i, e) && Legal(i, e') && e.node != e'.node
    requires !IsFatal(i.definition, e) && !IsFatal(i.definition, e')
    ensures RecordedBoth(i, e, e') == RecordedBoth(i, e', e)
  {
    hide IsFatal, Recorded, WithOutput, SettledState;
    NonFatalRecords(i, e);
    NonFatalRecords(i, e');
    NonFatalRecords(Recorded(i, e), e');
    NonFatalRecords(Recorded(i, e'), e);
    OutputsCommute(i.nodeOutputs, e, e');
    var s, s' := SettledState(e.outcome), SettledState(e'.outcome);
    assert i.nodeStates[e.node := s][e'.node := s'] == i.nodeStates[e'.node := s'][e.node := s];
  }

  /** Two events for different running nodes commute if and only if neither fails the workflow. */
  lemma DeliveriesCommuteIff(i: WorkflowInstance, e: NodeEvent, e': NodeEvent)
    requires Tracked(i) && Legal(i, e) && Legal(i, e') && e.node != e'.node
    ensures Both(i, e, e') == Both(i, e', e) <==> !IsFatal(i.definition, e) && !IsFatal(i.definition, e')
  {
    hide Tracked, Legal, Both, IsFatal, RecordedBoth;
    if IsFatal(i.definition, e) {
      FatalComesFirst(i, e, e');
      if IsFatal(i.definition, e') {
        FatalComesFirst(i, e', e);
      } else {
        RecordedStays(i, e', e);
      }
    } else if IsFatal(i.definition, e') {
      FatalComesFirst(i, e', e);
      RecordedStays(i, e, e');
    } else {
      BothIsOnePass(i, e, e');
      BothIsOnePass(i, e', e);
      RecordingsCommute(i, e, e');
    }
  }
}
