/**
  Payloads. A node's task is built from the outputs present at the moment of its dispatch. This module
  says when that moment cannot matter, and shows by constructing two runs that otherwise it can.
 */
module WorkflowPayloads {
  import opened Wrappers
  import opened Sequences
  import opened Graphs
  import opened Ancestry
  import Kahn
  import Planner
  import opened Workflow
  import opened WorkflowSafety
  import opened WorkflowRuns
  import opened WorkflowConfluence

  ghost predicate RunsFrom(l: Launch, events: seq<NodeEvent>) {
    IsDag(l.definition.graph) && LegalRun(Start(l), events)
  }

  ghost function At(l: Launch, events: seq<NodeEvent>): (i: WorkflowInstance)
    requires IsDag(l.definition.graph)
    ensures i.definition == l.definition && i.id == l.id
  {
    RunEvents(Start(l), events).inst
  }

  ghost function Log(l: Launch, events: seq<NodeEvent>): seq<Dispatch>
    requires IsDag(l.definition.graph)
  {
    RunEvents(Start(l), events).log
  }

  // ---------- prefixes and delivered outcomes ----------

  lemma NewOutcome(l: Launch, front: seq<NodeEvent>, e: NodeEvent)
    requires RunsFrom(l, front) && Legal(At(l, front), e)
    ensures e.node !in DeliveredBy(front)
  {
    hide IsDag, Canonical, EventStep, Legal, LegalRun, RunEvents, DeliveredBy;
    LegalRunIsCanonical(l, front);
    LegalEventIsCanonical(l, DeliveredBy(front), e);
  }

  lemma LastIsLegal(l: Launch, events: seq<NodeEvent>)
    requires RunsFrom(l, events) && events != []
    ensures var front, e := events[..|events| - 1], events[|events| - 1];
      && RunsFrom(l, front) && Legal(At(l, front), e)
      && DeliveredBy(events) == DeliveredBy(front)[e.node := e.outcome]
  {
    hide IsDag, Legal, EventStep;
  }

  lemma {:induction false} PrefixRuns(l: Launch, events: seq<NodeEvent>, j: nat)
    requires RunsFrom(l, events) && j <= |events|
    ensures RunsFrom(l, events[..j])
    ensures forall n :: n in DeliveredBy(events[..j]) ==>
      n in DeliveredBy(events) && DeliveredBy(events)[n] == DeliveredBy(events[..j])[n]
  {
    if j == |events| {
      assert events[..j] == events;
    } else {
      var front, e := events[..|events| - 1], events[|events| - 1];
      LastIsLegal(l, events);
      hide *;
      assert front[..j] == events[..j];
      PrefixRuns(l, front, j);
      NewOutcome(l, front, e);
    }
  }

  /** The delivered nodes of a legal run, and their parents, all finished in time. */
  ghost predicate DeliveredInOrder(definition: WorkflowDefinition, d: Delivered) {
    forall n :: n in d ==> n in definition.graph.nodes && Unblocked(definition, d, n)
  }

  lemma {:induction false} RunsDeliverInOrder(l: Launch, events: seq<NodeEvent>)
    requires RunsFrom(l, events)
    ensures DeliveredInOrder(l.definition, DeliveredBy(events))
  {
    if events != [] {
      var front, e := events[..|events| - 1], events[|events| - 1];
      RunsDeliverInOrder(l, front);
      LegalRunIsCanonical(l, front);
      var d := DeliveredBy(front);
      LegalEventIsCanonical(l, d, e);
      NotYetDelivered(l.definition, d, e.node);
      forall n | n in DeliveredBy(events) ensures Unblocked(l.definition, DeliveredBy(events), n) {
        UnblockedGrows(l.definition, d, e, n);
      }
    }
  }

  /** Ancestors of an unblocked node have been delivered. */
  lemma {:induction false} AncestorsDelivered(
    definition: WorkflowDefinition, d: Delivered, p: seq<NodeId>, a: NodeId, n: NodeId)
    requires DeliveredInOrder(definition, d) && Unblocked(definition, d, n)
    requires Connects(definition.graph, p, a, n)
    ensures FinishedBy(definition, d, a)
    decreases |p|
  {
    var m := p[|p| - 2];
    assert HasEdge(definition.graph, m, n);
    if |p| > 2 {
      AncestorsDelivered(definition, d, p[..|p| - 1], a, m);
    }
  }

  // ---------- the moment of dispatch ----------

  /** After `j` events node `n` is running, and it was not before. */
  ghost predicate DispatchedAt(l: Launch, events: seq<NodeEvent>, n: NodeId, j: nat)
    requires IsDag(l.definition.graph)
  {
    && j <= |events| && n in l.definition.graph.nodes
    && n !in DeliveredBy(events[..j]) && Unblocked(l.definition, DeliveredBy(events[..j]), n)
    && (j > 0 ==> !Unblocked(l.definition, DeliveredBy(events[..j - 1]), n))
  }

  ghost function TaskAt(l: Launch, n: NodeId, d: Delivered): Dispatch
    requires n in l.definition.graph.nodes
  {
    Dispatch(n, TaskFor(l.id, l.definition.name, n, l.definition.graph.nodes[n], CanonicalOutputs(l.inputs, d)))
  }

  ghost predicate LoggedAt(l: Launch, events: seq<NodeEvent>, x: Dispatch, j: nat)
    requires IsDag(l.definition.graph)
  {
    DispatchedAt(l, events, x.node, j) && x == TaskAt(l, x.node, DeliveredBy(events[..j]))
  }

  lemma NewlyEligible(definition: WorkflowDefinition, d: Delivered, e: NodeEvent, n: NodeId)
    requires WorkflowConfluence.Pending(definition, d, e) && n in definition.graph.nodes
    requires Eligible(definition.graph, RecordedStates(definition, d, e), n)
    ensures n !in d[e.node := e.outcome] && Unblocked(definition, d[e.node := e.outcome], n)
    ensures !Unblocked(definition, d, n)
  {
    hide IsDag, Unblocked;
    ParentsOfRecorded(definition, d, e, n);
  }

  /** What one more outcome leaves to dispatch from. */
  lemma ConcludedIs(l: Launch, d: Delivered, e: NodeEvent)
    requires IsDag(l.definition.graph) && Tracked(Canonical(l, d)) && Legal(Canonical(l, d), e)
    ensures e.node !in d && WorkflowConfluence.Pending(l.definition, d, e)
    ensures var c := Concluded(Recorded(Canonical(l, d), e));
      && c.id == l.id && c.definition == l.definition && c.nodeStates == RecordedStates(l.definition, d, e)
      && c.nodeOutputs == CanonicalOutputs(l.inputs, d[e.node := e.outcome])
  {
    hide IsDag, Unblocked, AllSettled, CanonicalOutputs, CanonicalStatus;
    NotYetDelivered(l.definition, d, e.node);
    OutputsGrow(l.inputs, d, e);
  }

  lemma DispatchIsEligible(i: WorkflowInstance, x: Dispatch)
    requires Tracked(i) && x in DispatchEligible(i).dispatches
    ensures x.node in i.definition.graph.nodes && Eligible(i.definition.graph, i.nodeStates, x.node)
    ensures x == DispatchOf(i, x.node)
  {
    hide IsDag, Eligible;
    var nodes := EligibleNodes(i.definition.graph, i.nodeStates);
    EligibleAreNodes(i.definition.graph, i.nodeStates);
    var k :| 0 <= k < |nodes| && DispatchesOf(i, nodes)[k] == x;
    assert nodes[k] in nodes && x.node == nodes[k];
  }

  lemma LastDispatches(l: Launch, d: Delivered, e: NodeEvent, x: Dispatch)
    requires IsDag(l.definition.graph) && Tracked(Canonical(l, d)) && Legal(Canonical(l, d), e)
    requires x in EventStep(Canonical(l, d), e).dispatches
    ensures x.node in l.definition.graph.nodes && x.node !in d[e.node := e.outcome]
    ensures Unblocked(l.definition, d[e.node := e.outcome], x.node) && !Unblocked(l.definition, d, x.node)
    ensures x == TaskAt(l, x.node, d[e.node := e.outcome])
  {
    var i := Canonical(l, d);
    var concluded := Concluded(Recorded(i, e));
    assert EventStep(i, e) == DispatchEligible(concluded);
    hide IsDag, Unblocked, DispatchEligible, Eligible, CanonicalOutputs, Recorded, Concluded, Tracked, Canonical;
    ConcludedIs(l, d, e);
    DispatchIsEligible(concluded, x);
    NewlyEligible(l.definition, d, e, x.node);
  }

  lemma EarlierEntry(l: Launch, front: seq<NodeEvent>, e: NodeEvent, x: Dispatch, j: nat)
    requires IsDag(l.definition.graph) && LoggedAt(l, front, x, j)
    ensures LoggedAt(l, front + [e], x, j)
  {
    assert (front + [e])[..j] == front[..j];
    assert j > 0 ==> (front + [e])[..j - 1] == front[..j - 1];
  }

  lemma LastEntry(l: Launch, front: seq<NodeEvent>, e: NodeEvent, x: Dispatch)
    requires RunsFrom(l, front) && Legal(At(l, front), e) && x in EventStep(At(l, front), e).dispatches
    ensures LoggedAt(l, front + [e], x, |front| + 1)
  {
    hide LegalRun, RunEvents, EventStep, IsDag, CanonicalOutputs, Unblocked, Legal, Canonical, TaskAt, DeliveredBy;
    LegalRunIsCanonical(l, front);
    LastDispatches(l, DeliveredBy(front), e, x);
    DeliveredSnoc(front, e);
    assert (front + [e])[..|front|] == front && (front + [e])[..|front| + 1] == front + [e];
  }

  lemma DeliveredSnoc(front: seq<NodeEvent>, e: NodeEvent)
    ensures DeliveredBy(front + [e]) == DeliveredBy(front)[e.node := e.outcome]
  {
    assert (front + [e])[..|front + [e]| - 1] == front;
  }

  /** Every logged task was built from the outputs present at its node's moment of dispatch. */
  lemma {:induction false} LogEntryHasMoment(l: Launch, events: seq<NodeEvent>, x: Dispatch) returns (j: nat)
    requires RunsFrom(l, events) && x in Log(l, events)
    ensures LoggedAt(l, events, x, j)
  {
    hide IsDag, LoggedAt, EventStep, Legal;
    if events == [] {
      j := 0;
      FirstEntry(l, x);
    } else {
      var front, e := events[..|events| - 1], events[|events| - 1];
      assert events == front + [e];
      if x in Log(l, front) {
        j := LogEntryHasMoment(l, front, x);
        EarlierEntry(l, front, e, x, j);
      } else {
        LastEntry(l, front, e, x);
        j := |events|;
      }
    }
  }

  lemma FirstEntry(l: Launch, x: Dispatch)
    requires IsDag(l.definition.graph) && x in Start(l).log
    ensures LoggedAt(l, [], x, 0)
  {
    hide IsDag, Unblocked, CanonicalOutputs;
    StartDispatches(l, x);
  }

  lemma StartDispatches(l: Launch, x: Dispatch)
    requires IsDag(l.definition.graph) && x in Start(l).log
    ensures x.node in l.definition.graph.nodes && Unblocked(l.definition, map[], x.node)
    ensures x == TaskAt(l, x.node, map[])
  {
    var initial := Fresh(l.id, l.definition, l.inputs, l.plan);
    assert Start(l).log == DispatchEligible(initial).dispatches;
    NothingDelivered(l);
    hide IsDag, DispatchEligible, Eligible, Unblocked, CanonicalOutputs;
    DispatchIsEligible(initial, x);
    RootsAreUnblocked(l.definition, initial.nodeStates, x.node);
  }

  // ---------- when the moment cannot matter ----------

  /** All parents of `n` are ancestors of `source`: `source` cannot finish before `n` is dispatched. */
  ghost predicate AlwaysLater(g: ExecutionGraph, source: NodeId, n: NodeId) {
    forall p :: HasEdge(g, p, n) ==> Ancestor(g, p, source)
  }

  /** Events for a blank id are dropped, so what waits for the node with the blank id waits for ever. */
  ghost predicate Held(g: ExecutionGraph, n: NodeId) {
    Ancestor(g, "", n)
  }

  /**
    The mapped value is the same in every legal run: its source is no node, an ancestor, never finished in
    time, or never finished at all; or the key is not one that a finished node provides.
   */
  ghost predicate SteadyInput(g: ExecutionGraph, n: NodeId, input: NodeInput) {
    || input.sourceNode.None? || input.sourceNode.value == "" || input.outputKey.None?
    || input.sourceNode.value !in g.nodes
    || Ancestor(g, input.sourceNode.value, n)
    || AlwaysLater(g, input.sourceNode.value, n)
    || Held(g, input.sourceNode.value)
    || (input.sourceNode.value != "workflow_inputs" && input.outputKey.value != "result")
  }

  /** A node with an outcome, or the one the next event is about, has all its ancestors finished. */
  lemma AncestorsFinished(l: Launch, front: seq<NodeEvent>, e: NodeEvent, p: NodeId, source: NodeId)
    requires RunsFrom(l, front) && Legal(At(l, front), e) && Ancestor(l.definition.graph, p, source)
    requires source in DeliveredBy(front) || source == e.node
    ensures FinishedBy(l.definition, DeliveredBy(front), p)
  {
    RunsDeliverInOrder(l, front);
    LegalRunIsCanonical(l, front);
    if source !in DeliveredBy(front) {
      NotYetDelivered(l.definition, DeliveredBy(front), e.node);
    }
    hide RunsFrom, DeliveredBy, Canonical, Legal, RunEvents;
    var walk :| Connects(l.definition.graph, walk, p, source);
    AncestorsDelivered(l.definition, DeliveredBy(front), walk, p, source);
  }

  lemma StepBefore(l: Launch, events: seq<NodeEvent>, j: nat)
    requires RunsFrom(l, events) && 0 < j <= |events|
    ensures RunsFrom(l, events[..j - 1]) && Legal(At(l, events[..j - 1]), events[j - 1])
    ensures DeliveredBy(events[..j]) == DeliveredBy(events[..j - 1])[events[j - 1].node := events[j - 1].outcome]
  {
    PrefixRuns(l, events, j);
    assert events[..j][..|events[..j]| - 1] == events[..j - 1];
    LastIsLegal(l, events[..j]);
    hide RunsFrom, DeliveredBy, Legal;
  }

  lemma AlwaysLaterIsAbsent(l: Launch, events: seq<NodeEvent>, n: NodeId, j: nat, source: NodeId)
    requires RunsFrom(l, events) && DispatchedAt(l, events, n, j) && AlwaysLater(l.definition.graph, source, n)
    ensures source !in DeliveredBy(events[..j])
  {
    if j > 0 {
      var front, e := events[..j - 1], events[j - 1];
      StepBefore(l, events, j);
      var p :| HasEdge(l.definition.graph, p, n) && !FinishedBy(l.definition, DeliveredBy(front), p);
      hide RunsFrom, DeliveredBy, Legal, Ancestor, FinishedBy;
      if source in DeliveredBy(front) || source == e.node {
        AncestorsFinished(l, front, e, p, source);
      }
    }
  }

  lemma AncestorIsPresent(l: Launch, events: seq<NodeEvent>, n: NodeId, j: nat, source: NodeId)
    requires RunsFrom(l, events) && DispatchedAt(l, events, n, j) && Ancestor(l.definition.graph, source, n)
    ensures source in DeliveredBy(events[..j]) && source in DeliveredBy(events)
    ensures DeliveredBy(events[..j])[source] == DeliveredBy(events)[source]
  {
    PrefixRuns(l, events, j);
    RunsDeliverInOrder(l, events[..j]);
    var walk :| Connects(l.definition.graph, walk, source, n);
    AncestorsDelivered(l.definition, DeliveredBy(events[..j]), walk, source, n);
  }

  lemma StrangerIsAbsent(l: Launch, events: seq<NodeEvent>, j: nat, source: NodeId)
    requires RunsFrom(l, events) && j <= |events| && source !in l.definition.graph.nodes
    ensures source !in DeliveredBy(events[..j])
  {
    PrefixRuns(l, events, j);
    RunsDeliverInOrder(l, events[..j]);
  }

  lemma {:induction false} BlankIsNeverDelivered(l: Launch, events: seq<NodeEvent>)
    requires RunsFrom(l, events)
    ensures "" !in DeliveredBy(events)
  {
    hide IsDag, EventStep;
    if events != [] {
      LastIsLegal(l, events);
      BlankIsNeverDelivered(l, events[..|events| - 1]);
    }
  }

  lemma HeldIsNeverUnblocked(l: Launch, events: seq<NodeEvent>, n: NodeId)
    requires RunsFrom(l, events) && Held(l.definition.graph, n)
    ensures !Unblocked(l.definition, DeliveredBy(events), n)
    ensures n !in DeliveredBy(events)
  {
    BlankIsNeverDelivered(l, events);
    RunsDeliverInOrder(l, events);
    var walk :| Connects(l.definition.graph, walk, "", n);
    hide RunsFrom, DeliveredBy, Unblocked;
    if Unblocked(l.definition, DeliveredBy(events), n) {
      AncestorsDelivered(l.definition, DeliveredBy(events), walk, "", n);
    }
  }

  lemma HeldIsAbsent(l: Launch, events: seq<NodeEvent>, j: nat, source: NodeId)
    requires RunsFrom(l, events) && j <= |events| && Held(l.definition.graph, source)
    ensures source !in DeliveredBy(events[..j])
  {
    PrefixRuns(l, events, j);
    HeldIsNeverUnblocked(l, events[..j], source);
  }

  /** So such a node is never dispatched. */
  lemma HeldIsNeverDispatched(l: Launch, events: seq<NodeEvent>, x: Dispatch)
    requires RunsFrom(l, events) && x in Log(l, events)
    ensures !Held(l.definition.graph, x.node)
  {
    var j := LogEntryHasMoment(l, events, x);
    PrefixRuns(l, events, j);
    if Held(l.definition.graph, x.node) {
      HeldIsNeverUnblocked(l, events[..j], x.node);
    }
  }

  /** The two sets of outcomes say the same about `source`. */
  ghost predicate AgreeAt(d: Delivered, d': Delivered, source: NodeId) {
    if source in d then source in d' && d'[source] == d[source] else source !in d'
  }

  lemma AgreementIsEnough(inputs: map<string, Value>, input: NodeInput, d: Delivered, d': Delivered)
    requires
      || input.sourceNode.None? || input.sourceNode.value == "" || input.outputKey.None?
      || AgreeAt(d, d', input.sourceNode.value)
      || (input.sourceNode.value != "workflow_inputs" && input.outputKey.value != "result")
    ensures InputValue(input, CanonicalOutputs(inputs, d)) == InputValue(input, CanonicalOutputs(inputs, d'))
  {
  }

  lemma SourceAgrees(
    l: Launch, n: NodeId, source: NodeId, events: seq<NodeEvent>, j: nat, events': seq<NodeEvent>, j': nat)
    requires RunsFrom(l, events) && RunsFrom(l, events') && DeliveredBy(events) == DeliveredBy(events')
    requires DispatchedAt(l, events, n, j) && DispatchedAt(l, events', n, j')
    requires
      || source !in l.definition.graph.nodes
      || Ancestor(l.definition.graph, source, n)
      || AlwaysLater(l.definition.graph, source, n)
      || Held(l.definition.graph, source)
    ensures j <= |events| && j' <= |events'|
    ensures AgreeAt(DeliveredBy(events[..j]), DeliveredBy(events'[..j']), source)
  {
    MomentIsWithin(l, events, n, j);
    MomentIsWithin(l, events', n, j');
    var g := l.definition.graph;
    hide RunsFrom, DispatchedAt, DeliveredBy, Held;
    if Ancestor(g, source, n) {
      AncestorIsPresent(l, events, n, j, source);
      AncestorIsPresent(l, events', n, j', source);
    } else if AlwaysLater(g, source, n) {
      AlwaysLaterIsAbsent(l, events, n, j, source);
      AlwaysLaterIsAbsent(l, events', n, j', source);
    } else if Held(g, source) {
      HeldIsAbsent(l, events, j, source);
      HeldIsAbsent(l, events', j', source);
    } else {
      StrangerIsAbsent(l, events, j, source);
      StrangerIsAbsent(l, events', j', source);
    }
  }

  lemma SteadyValue(
    l: Launch, n: NodeId, input: NodeInput, events: seq<NodeEvent>, j: nat, events': seq<NodeEvent>, j': nat)
    requires RunsFrom(l, events) && RunsFrom(l, events') && DeliveredBy(events) == DeliveredBy(events')
    requires DispatchedAt(l, events, n, j) && DispatchedAt(l, events', n, j')
    requires SteadyInput(l.definition.graph, n, input)
    ensures j <= |events| && j' <= |events'|
    ensures InputValue(input, CanonicalOutputs(l.inputs, DeliveredBy(events[..j])))
      == InputValue(input, CanonicalOutputs(l.inputs, DeliveredBy(events'[..j'])))
  {
    MomentIsWithin(l, events, n, j);
    MomentIsWithin(l, events', n, j');
    hide RunsFrom, DispatchedAt, DeliveredBy, CanonicalOutputs, InputValue, AgreeAt, AlwaysLater, Held;
    if input.sourceNode.Some? && input.sourceNode.value != "" && input.outputKey.Some?
      && !(input.sourceNode.value != "workflow_inputs" && input.outputKey.value != "result")
    {
      SourceAgrees(l, n, input.sourceNode.value, events, j, events', j');
    }
    AgreementIsEnough(l.inputs, input, DeliveredBy(events[..j]), DeliveredBy(events'[..j']));
  }

  lemma MomentIsWithin(l: Launch, events: seq<NodeEvent>, n: NodeId, j: nat)
    requires IsDag(l.definition.graph) && DispatchedAt(l, events, n, j)
    ensures j <= |events|
  {
  }

  ghost predicate SteadyInputs(g: ExecutionGraph, n: NodeId)
    requires n in g.nodes
  {
    forall k :: k in g.nodes[n].inputMappings ==> SteadyInput(g, n, g.nodes[n].inputMappings[k])
  }

  /** With steady inputs, every order of the same outcomes dispatches the node with the same task. */
  lemma SteadyTask(l: Launch, events: seq<NodeEvent>, events': seq<NodeEvent>, x: Dispatch, x': Dispatch)
    requires RunsFrom(l, events) && RunsFrom(l, events') && multiset(events) == multiset(events')
    requires x in Log(l, events) && x' in Log(l, events') && x.node == x'.node && x.node in l.definition.graph.nodes
    requires SteadyInputs(l.definition.graph, x.node)
    ensures x == x'
  {
    hide IsDag, LegalRun, DeliveredBy, CanonicalOutputs, SteadyInput, Unblocked, Log;
    LegalRunIsCanonical(l, events);
    LegalRunIsCanonical(l, events');
    SameEventsSameOutcomes(DeliveredBy(events), events, DeliveredBy(events'), events');
    var j := LogEntryHasMoment(l, events, x);
    var j' := LogEntryHasMoment(l, events', x');
    var node := l.definition.graph.nodes[x.node];
    forall k | k in node.inputMappings
      ensures InputValue(node.inputMappings[k], CanonicalOutputs(l.inputs, DeliveredBy(events[..j])))
        == InputValue(node.inputMappings[k], CanonicalOutputs(l.inputs, DeliveredBy(events'[..j'])))
    {
      SteadyValue(l, x.node, node.inputMappings[k], events, j, events', j');
    }
    SameResolution(node,
      CanonicalOutputs(l.inputs, DeliveredBy(events[..j])), CanonicalOutputs(l.inputs, DeliveredBy(events'[..j'])));
  }

  lemma SameResolution(node: GraphNode, a: Outputs, b: Outputs)
    ensures ResolvedInputs(node, a) == ResolvedInputs(node, b) <==>
      forall k :: k in node.inputMappings ==> InputValue(node.inputMappings[k], a) == InputValue(node.inputMappings[k], b)
  {
    if ResolvedInputs(node, a) == ResolvedInputs(node, b) {
      forall k | k in node.inputMappings
        ensures InputValue(node.inputMappings[k], a) == InputValue(node.inputMappings[k], b)
      {
        assert ResolvedInputs(node, a)[k] == ResolvedInputs(node, b)[k];
      }
    }
  }

  // ---------- when it can ----------

  /** Every event completes its node, with the result `f` gives it. */
  ghost predicate AllCompleted(events: seq<NodeEvent>, f: NodeId -> Value) {
    forall e :: e in events ==> e.outcome == Completed(f(e.node))
  }

  lemma CompletedOutcome(l: Launch, events: seq<NodeEvent>, f: NodeId -> Value)
    requires RunsFrom(l, events) && AllCompleted(events, f)
    ensures forall n :: n in DeliveredBy(events) ==> DeliveredBy(events)[n] == Completed(f(n))
    ensures Holds(DeliveredBy(events), events)
  {
    LegalRunIsCanonical(l, events);
    var d := DeliveredBy(events);
    forall n | n in d ensures d[n] == Completed(f(n)) {
      assert NodeEvent(n, d[n]) in events;
    }
  }

  lemma ReadyToComplete(l: Launch, events: seq<NodeEvent>, f: NodeId -> Value, n: NodeId)
    requires RunsFrom(l, events) && AllCompleted(events, f)
    requires n in l.definition.graph.nodes && n != "" && n !in DeliveredBy(events)
    requires forall m :: HasEdge(l.definition.graph, m, n) ==> m in DeliveredBy(events)
    ensures Legal(At(l, events), NodeEvent(n, Completed(f(n))))
  {
    hide IsDag, LegalRun, DeliveredBy;
    CompletedOutcome(l, events, f);
    LegalRunIsCanonical(l, events);
    var d := DeliveredBy(events);
    assert !AnyFatal(l.definition, d);
    assert Unblocked(l.definition, d, n);
    assert n in l.definition.graph.nodes.Keys && n !in d.Keys;
  }

  lemma CompleteNext(l: Launch, events: seq<NodeEvent>, s: set<NodeId>, f: NodeId -> Value) returns (e: NodeEvent)
    requires RunsFrom(l, events) && AllCompleted(events, f)
    requires ParentClosed(l.definition.graph, s) && s <= l.definition.graph.nodes.Keys && "" !in s
    requires !(s <= DeliveredBy(events).Keys)
    ensures RunsFrom(l, events + [e]) && AllCompleted(events + [e], f)
    ensures e.node in s - DeliveredBy(events).Keys
    ensures DeliveredBy(events + [e]).Keys == DeliveredBy(events).Keys + {e.node}
  {
    hide IsDag, Legal, ParentClosed;
    var n := NextOfClosed(l.definition.graph, s, DeliveredBy(events).Keys);
    e := NodeEvent(n, Completed(f(n)));
    ReadyToComplete(l, events, f, n);
    assert (events + [e])[..|events|] == events;
  }

  lemma TakeOne(s: set<NodeId>, taken: set<NodeId>, n: NodeId)
    requires n in s - taken
    ensures |s - (taken + {n})| < |s - taken|
    ensures taken + {n} + s == taken + s
  {
    assert s - (taken + {n}) == (s - taken) - {n};
  }

  /** Extends a run by completing the nodes of a parent-closed set that it has not delivered yet. */
  lemma {:induction false} CompleteSet(l: Launch, events: seq<NodeEvent>, s: set<NodeId>, f: NodeId -> Value)
    returns (all: seq<NodeEvent>)
    requires RunsFrom(l, events) && AllCompleted(events, f)
    requires ParentClosed(l.definition.graph, s) && s <= l.definition.graph.nodes.Keys && "" !in s
    ensures RunsFrom(l, all) && AllCompleted(all, f)
    ensures events <= all
    ensures DeliveredBy(all).Keys == DeliveredBy(events).Keys + s
    decreases |s - DeliveredBy(events).Keys|
  {
    hide *;
    var taken := DeliveredBy(events).Keys;
    if s <= taken {
      all := events;
      assert taken + s == taken;
    } else {
      var e := CompleteNext(l, events, s, f);
      TakeOne(s, taken, e.node);
      all := CompleteSet(l, events + [e], s, f);
    }
  }

  // The construction below fixes a node, a source that is neither an ancestor nor always later, and a
  // parent of the node that is no ancestor of the source; neither node nor source is held up.

  ghost predicate Unsteady(g: ExecutionGraph, source: NodeId, n: NodeId, p: NodeId) {
    && IsDag(g) && source in g.nodes && n in g.nodes && source != "" && !Held(g, source) && !Held(g, n)
    && !Ancestor(g, source, n) && HasEdge(g, p, n) && !Ancestor(g, p, source)
  }

  lemma UnsteadySets(g: ExecutionGraph, source: NodeId, n: NodeId, p: NodeId)
    requires Unsteady(g, source, n, p)
    ensures p !in Ancestors(g, source) + {source} && n !in Ancestors(g, source) + {source}
    ensures source !in Ancestors(g, n) && n !in Ancestors(g, n) && p in Ancestors(g, n)
    ensures "" !in Ancestors(g, source) + {source} && "" !in Ancestors(g, n)
  {
    ParentIsAncestor(g, p, n);
    AncestorsAreProper(g, n);
    if Ancestor(g, n, source) {
      ParentOfAncestor(g, p, n, source);
    }
  }

  /** A first block of completions, then another, up to a common end. */
  lemma TwoBlocks(l: Launch, s: set<NodeId>, t: set<NodeId>, f: NodeId -> Value)
    returns (half: seq<NodeEvent>, all: seq<NodeEvent>)
    requires IsDag(l.definition.graph) && "" !in s && "" !in t
    requires ParentClosed(l.definition.graph, s) && ParentClosed(l.definition.graph, t)
    requires s <= l.definition.graph.nodes.Keys && t <= l.definition.graph.nodes.Keys
    ensures RunsFrom(l, half) && AllCompleted(half, f) && DeliveredBy(half).Keys == s
    ensures RunsFrom(l, all) && AllCompleted(all, f) && DeliveredBy(all).Keys == s + t && half <= all
  {
    hide IsDag, ParentClosed;
    half := CompleteSet(l, [], s, f);
    all := CompleteSet(l, half, t, f);
  }

  lemma PrefixGrows(l: Launch, all: seq<NodeEvent>, i: nat, j: nat, m: NodeId)
    requires RunsFrom(l, all) && i <= j <= |all|
    ensures FinishedBy(l.definition, DeliveredBy(all[..i]), m) ==> FinishedBy(l.definition, DeliveredBy(all[..j]), m)
    ensures m in DeliveredBy(all[..i]) ==> m in DeliveredBy(all[..j])
  {
    PrefixRuns(l, all, j);
    PrefixRuns(l, all[..j], i);
    assert all[..j][..i] == all[..i];
  }

  /** While a parent is missing, the node's moment has not come. */
  lemma MomentAfter(l: Launch, half: seq<NodeEvent>, all: seq<NodeEvent>, n: NodeId, p: NodeId, j: nat)
    requires RunsFrom(l, all) && half <= all && DispatchedAt(l, all, n, j)
    requires HasEdge(l.definition.graph, p, n) && p !in DeliveredBy(half)
    ensures |half| < j <= |all|
  {
    assert all[..|half|] == half;
    assert FinishedBy(l.definition, DeliveredBy(all[..j]), p);
    if j <= |half| {
      PrefixGrows(l, all, j, |half|, p);
    }
  }

  /** Once all parents are there, the node's moment is past. */
  lemma MomentBefore(l: Launch, half: seq<NodeEvent>, all: seq<NodeEvent>, n: NodeId, j: nat)
    requires RunsFrom(l, all) && half <= all && DispatchedAt(l, all, n, j)
    requires Unblocked(l.definition, DeliveredBy(half), n)
    ensures j <= |half|
  {
    hide RunsFrom, DeliveredBy;
    assert all[..|half|] == half;
    if j > |half| {
      var m :| HasEdge(l.definition.graph, m, n) && !FinishedBy(l.definition, DeliveredBy(all[..j - 1]), m);
      PrefixGrows(l, all, |half|, j - 1, m);
    }
  }

  lemma RunningIsLogged(s: RunState, n: NodeId) returns (x: Dispatch)
    requires SafeState(s) && n in s.inst.nodeStates && s.inst.nodeStates[n] == NodeState.Running
    ensures x in s.log && x.node == n
  {
    hide Consistent, Kahn.Topological;
    var order := DispatchOrder(s.log);
    assert n in order;
    var k :| 0 <= k < |order| && order[k] == n;
    x := s.log[k];
  }

  /** A node with all parents delivered, itself not delivered, has been dispatched. */
  lemma IsLogged(l: Launch, events: seq<NodeEvent>, f: NodeId -> Value, n: NodeId) returns (x: Dispatch, j: nat)
    requires RunsFrom(l, events) && AllCompleted(events, f) && n in l.definition.graph.nodes
    requires n !in DeliveredBy(events) && Unblocked(l.definition, DeliveredBy(events), n)
    ensures x in Log(l, events) && x.node == n && LoggedAt(l, events, x, j)
  {
    StartIsSafe(l.id, l.definition, l.inputs, l.plan);
    LegalRunIsSafe(Start(l), events);
    LegalRunIsCanonical(l, events);
    hide LegalRun, RunEvents, DeliveredBy, IsDag, LoggedAt, Unblocked, SafeState;
    x := RunningIsLogged(RunEvents(Start(l), events), n);
    j := LogEntryHasMoment(l, events, x);
  }

  ghost predicate DisagreeOn(
    l: Launch, n: NodeId, events: seq<NodeEvent>, events': seq<NodeEvent>, x: Dispatch, x': Dispatch)
  {
    && RunsFrom(l, events) && RunsFrom(l, events') && multiset(events) == multiset(events')
    && x in Log(l, events) && x' in Log(l, events') && x.node == n && x'.node == n && x != x'
  }

  /** No two orders of the same outcomes ever dispatch `n` with different tasks, whatever the inputs. */
  ghost predicate OrderIndependent(id: string, definition: WorkflowDefinition, plan: Planner.ExecutionPlan, n: NodeId) {
    forall inputs, events, events', x, x' ::
      !DisagreeOn(Launch(id, definition, inputs, plan), n, events, events', x, x')
  }

  lemma LastIsNew(l: Launch, front: seq<NodeEvent>, e: NodeEvent)
    requires RunsFrom(l, front + [e])
    ensures RunsFrom(l, front) && e !in front
  {
    assert (front + [e])[..|front|] == front;
    LegalRunIsCanonical(l, front);
    LegalEventIsCanonical(l, DeliveredBy(front), e);
    hide LegalRun, DeliveredBy, IsDag, Canonical;
    assert NodeEvent(e.node, e.outcome) !in front;
  }

  lemma {:induction false} LegalRunNoDup(l: Launch, events: seq<NodeEvent>)
    requires RunsFrom(l, events)
    ensures NoDup(events)
  {
    hide RunsFrom;
    if events != [] {
      var front, e := events[..|events| - 1], events[|events| - 1];
      assert events == front + [e];
      LastIsNew(l, front, e);
      LegalRunNoDup(l, front);
      NoDupAppend(front, e);
    }
  }

  lemma {:induction false} NoDupMultiset<T(!new)>(s: seq<T>, x: T)
    requires NoDup(s)
    ensures multiset(s)[x] == if x in s then 1 else 0
  {
    if s != [] {
      var front := s[..|s| - 1];
      NoDupMultiset(front, x);
      assert s == front + [s[|s| - 1]];
    }
  }

  lemma SameOutcomesSameEvents(l: Launch, events: seq<NodeEvent>, events': seq<NodeEvent>)
    requires RunsFrom(l, events) && RunsFrom(l, events') && DeliveredBy(events) == DeliveredBy(events')
    ensures multiset(events) == multiset(events')
  {
    LegalRunIsCanonical(l, events);
    LegalRunIsCanonical(l, events');
    LegalRunNoDup(l, events);
    LegalRunNoDup(l, events');
    hide RunsFrom, DeliveredBy;
    forall e ensures multiset(events)[e] == multiset(events')[e] {
      assert e == NodeEvent(e.node, e.outcome);
      assert e in events <==> e in events';
      NoDupMultiset(events, e);
      NoDupMultiset(events', e);
    }
  }

  lemma AllParentsDelivered(l: Launch, events: seq<NodeEvent>, f: NodeId -> Value, n: NodeId)
    requires RunsFrom(l, events) && AllCompleted(events, f)
    requires Ancestors(l.definition.graph, n) <= DeliveredBy(events).Keys
    ensures Unblocked(l.definition, DeliveredBy(events), n)
  {
    CompletedOutcome(l, events, f);
    forall m | HasEdge(l.definition.graph, m, n) ensures m in DeliveredBy(events).Keys {
      ParentIsAncestor(l.definition.graph, m, n);
      assert m in Ancestors(l.definition.graph, n);
    }
  }

  ghost function Involved(g: ExecutionGraph, source: NodeId, n: NodeId): set<NodeId> {
    Ancestors(g, source) + {source} + Ancestors(g, n)
  }

  /** Everything `n` waits for, and `source`, but not `n`: the source's side goes first or last. */
  lemma SourceBlocks(l: Launch, source: NodeId, n: NodeId, p: NodeId, f: NodeId -> Value, first: bool)
    returns (half: seq<NodeEvent>, all: seq<NodeEvent>)
    requires Unsteady(l.definition.graph, source, n, p)
    ensures RunsFrom(l, half) && RunsFrom(l, all) && AllCompleted(all, f) && half <= all
    ensures DeliveredBy(all).Keys == Involved(l.definition.graph, source, n)
    ensures n !in DeliveredBy(all) && Unblocked(l.definition, DeliveredBy(all), n)
    ensures first ==> source in DeliveredBy(half) && p !in DeliveredBy(half)
    ensures !first ==> source !in DeliveredBy(half) && Unblocked(l.definition, DeliveredBy(half), n)
  {
    hide *;
    var g := l.definition.graph;
    var s, t := Ancestors(g, source) + {source}, Ancestors(g, n);
    UnsteadyParts(g, source, n, p);
    if first {
      half, all := TwoBlocks(l, s, t, f);
    } else {
      half, all := TwoBlocks(l, t, s, f);
      AllParentsDelivered(l, half, f, n);
    }
    AllParentsDelivered(l, all, f, n);
    BlocksAreInvolved(g, source, n);
  }

  lemma BlocksAreInvolved(g: ExecutionGraph, source: NodeId, n: NodeId)
    ensures Involved(g, source, n) == Ancestors(g, source) + {source} + Ancestors(g, n)
  {
  }

  lemma UnsteadyParts(g: ExecutionGraph, source: NodeId, n: NodeId, p: NodeId)
    requires Unsteady(g, source, n, p)
    ensures var s, t := Ancestors(g, source) + {source}, Ancestors(g, n);
      && IsDag(g) && "" !in s && "" !in t && ParentClosed(g, s) && ParentClosed(g, t)
      && s <= g.nodes.Keys && t <= g.nodes.Keys
      && p !in s && n !in s && source !in t && n !in t
  {
    UnsteadySets(g, source, n, p);
    AncestorsAreClosed(g, source);
    AncestorsAreClosed(g, n);
  }

  /** A run that finishes `source` before `n` is dispatched. */
  lemma SourceFirst(l: Launch, source: NodeId, n: NodeId, p: NodeId, f: NodeId -> Value)
    returns (all: seq<NodeEvent>, x: Dispatch, j: nat)
    requires Unsteady(l.definition.graph, source, n, p)
    ensures RunsFrom(l, all) && AllCompleted(all, f)
    ensures DeliveredBy(all).Keys == Involved(l.definition.graph, source, n)
    ensures x in Log(l, all) && x.node == n && LoggedAt(l, all, x, j) && j <= |all|
    ensures source in DeliveredBy(all[..j]) && DeliveredBy(all[..j])[source] == Completed(f(source))
  {
    var half;
    half, all := SourceBlocks(l, source, n, p, f, true);
    hide LegalRun, DeliveredBy, IsDag, Log, Unblocked, TaskAt, AllCompleted, Involved;
    x, j := IsLogged(l, all, f, n);
    AlreadyPresent(l, half, all, n, p, j, source, f);
  }

  lemma AlreadyPresent(
    l: Launch, half: seq<NodeEvent>, all: seq<NodeEvent>, n: NodeId, p: NodeId, j: nat, source: NodeId, f: NodeId -> Value)
    requires RunsFrom(l, all) && AllCompleted(all, f) && half <= all && DispatchedAt(l, all, n, j)
    requires HasEdge(l.definition.graph, p, n) && p !in DeliveredBy(half) && source in DeliveredBy(half)
    ensures j <= |all| && source in DeliveredBy(all[..j]) && DeliveredBy(all[..j])[source] == Completed(f(source))
  {
    hide RunsFrom, DeliveredBy, AllCompleted, DispatchedAt;
    MomentAfter(l, half, all, n, p, j);
    assert all[..|half|] == half;
    PrefixGrows(l, all, |half|, j, source);
    PrefixRuns(l, all, j);
    CompletedOutcome(l, all, f);
  }

  /** A run with the same outcomes that finishes `source` only afterwards. */
  lemma SourceLast(l: Launch, source: NodeId, n: NodeId, p: NodeId, f: NodeId -> Value)
    returns (all: seq<NodeEvent>, x: Dispatch, j: nat)
    requires Unsteady(l.definition.graph, source, n, p)
    ensures RunsFrom(l, all) && AllCompleted(all, f)
    ensures DeliveredBy(all).Keys == Involved(l.definition.graph, source, n)
    ensures x in Log(l, all) && x.node == n && LoggedAt(l, all, x, j) && j <= |all|
    ensures source !in DeliveredBy(all[..j])
  {
    var half;
    half, all := SourceBlocks(l, source, n, p, f, false);
    hide LegalRun, DeliveredBy, IsDag, Log, Unblocked, TaskAt, AllCompleted, Involved;
    x, j := IsLogged(l, all, f, n);
    StillAbsent(l, half, all, n, j, source);
  }

  lemma StillAbsent(l: Launch, half: seq<NodeEvent>, all: seq<NodeEvent>, n: NodeId, j: nat, source: NodeId)
    requires RunsFrom(l, all) && half <= all && DispatchedAt(l, all, n, j)
    requires source !in DeliveredBy(half) && Unblocked(l.definition, DeliveredBy(half), n)
    ensures j <= |all| && source !in DeliveredBy(all[..j])
  {
    MomentBefore(l, half, all, n, j);
    assert all[..|half|] == half;
    PrefixGrows(l, all, j, |half|, source);
  }

  lemma SameCompletions(l: Launch, events: seq<NodeEvent>, events': seq<NodeEvent>, f: NodeId -> Value)
    requires RunsFrom(l, events) && RunsFrom(l, events') && AllCompleted(events, f) && AllCompleted(events', f)
    requires DeliveredBy(events).Keys == DeliveredBy(events').Keys
    ensures multiset(events) == multiset(events')
  {
    CompletedOutcome(l, events, f);
    CompletedOutcome(l, events', f);
    assert DeliveredBy(events) == DeliveredBy(events');
    SameOutcomesSameEvents(l, events, events');
  }

  function OtherThan(v: Value): (r: Value)
    ensures r != v && r != Null
  {
    if v == Number(0) then Number(1) else Number(0)
  }

  /** Launch inputs under which presence or absence of `source` decides the mapped value. */
  function TellingInputs(input: NodeInput): map<string, Value>
    requires input.outputKey.Some?
  {
    if input.outputKey.value == "result" then map[] else map[input.outputKey.value := OtherThan(input.default)]
  }

  lemma ValuesDiffer(input: NodeInput, source: NodeId, d: Delivered, d': Delivered)
    requires input.sourceNode == Some(source) && source != "" && input.outputKey.Some?
    requires source == "workflow_inputs" || input.outputKey.value == "result"
    requires source in d && d[source] == Completed(OtherThan(input.default)) && source !in d'
    ensures InputValue(input, CanonicalOutputs(TellingInputs(input), d))
      != InputValue(input, CanonicalOutputs(TellingInputs(input), d'))
  {
    var inputs := TellingInputs(input);
    assert CanonicalOutputs(inputs, d)[source] == map["result" := OtherThan(input.default)];
    if input.outputKey.value == "result" {
      assert source !in CanonicalOutputs(inputs, d');
    } else {
      assert input.outputKey.value in inputs;
      assert CanonicalOutputs(inputs, d')[source] == inputs;
    }
  }

  lemma TasksDiffer(l: Launch, n: NodeId, k: string, d: Delivered, d': Delivered)
    requires n in l.definition.graph.nodes && k in l.definition.graph.nodes[n].inputMappings
    requires "payload" !in l.definition.graph.nodes[n].payload
    requires var input := l.definition.graph.nodes[n].inputMappings[k];
      InputValue(input, CanonicalOutputs(l.inputs, d)) != InputValue(input, CanonicalOutputs(l.inputs, d'))
    ensures TaskAt(l, n, d) != TaskAt(l, n, d')
  {
    var node := l.definition.graph.nodes[n];
    SameResolution(node, CanonicalOutputs(l.inputs, d), CanonicalOutputs(l.inputs, d'));
    assert TaskAt(l, n, d).task.metadata["payload"] == Nested(ResolvedInputs(node, CanonicalOutputs(l.inputs, d)));
    assert TaskAt(l, n, d').task.metadata["payload"] == Nested(ResolvedInputs(node, CanonicalOutputs(l.inputs, d')));
  }

  lemma UnsteadyDisagrees(id: string, definition: WorkflowDefinition, plan: Planner.ExecutionPlan, n: NodeId, k: string)
    requires IsDag(definition.graph) && n in definition.graph.nodes && !Held(definition.graph, n)
    requires "payload" !in definition.graph.nodes[n].payload && k in definition.graph.nodes[n].inputMappings
    requires !SteadyInput(definition.graph, n, definition.graph.nodes[n].inputMappings[k])
    ensures !OrderIndependent(id, definition, plan, n)
  {
    var input := definition.graph.nodes[n].inputMappings[k];
    var source := input.sourceNode.value;
    var p :| HasEdge(definition.graph, p, n) && !Ancestor(definition.graph, p, source);
    assert Unsteady(definition.graph, source, n, p);
    var l := Launch(id, definition, TellingInputs(input), plan);
    var f := (m: NodeId) => OtherThan(input.default);
    hide IsDag, LegalRun, DeliveredBy, Log, Unsteady, AllCompleted, DispatchedAt, CanonicalOutputs, TaskAt, InputValue;
    var events, x, j := SourceFirst(l, source, n, p, f);
    var events', x', j' := SourceLast(l, source, n, p, f);
    SameCompletions(l, events, events', f);
    ValuesDiffer(input, source, DeliveredBy(events[..j]), DeliveredBy(events'[..j']));
    TasksDiffer(l, n, k, DeliveredBy(events[..j]), DeliveredBy(events'[..j']));
    assert DisagreeOn(l, n, events, events', x, x');
  }

  /** An entry called payload of the node's own payload is spread over the resolved inputs. */
  lemma OwnPayloadHidesInputs(id: string, name: string, n: NodeId, node: GraphNode, a: Outputs, b: Outputs)
    requires "payload" in node.payload
    ensures TaskFor(id, name, n, node, a) == TaskFor(id, name, n, node, b)
  {
    var own := map k | k in node.payload :: Plain(node.payload[k]);
    assert "payload" in own;
    hide ResolvedInputs;
    assert TaskFor(id, name, n, node, a).metadata == TaskFor(id, name, n, node, b).metadata;
  }

  lemma OwnPayloadIsSteady(l: Launch, events: seq<NodeEvent>, events': seq<NodeEvent>, x: Dispatch, x': Dispatch)
    requires RunsFrom(l, events) && RunsFrom(l, events')
    requires x in Log(l, events) && x' in Log(l, events') && x.node == x'.node && x.node in l.definition.graph.nodes
    requires "payload" in l.definition.graph.nodes[x.node].payload
    ensures x == x'
  {
    var j := LogEntryHasMoment(l, events, x);
    var j' := LogEntryHasMoment(l, events', x');
    assert j <= |events| && j' <= |events'|;
    hide RunsFrom, DispatchedAt, CanonicalOutputs, Log, DeliveredBy;
    OwnPayloadHidesInputs(l.id, l.definition.name, x.node, l.definition.graph.nodes[x.node],
      CanonicalOutputs(l.inputs, DeliveredBy(events[..j])), CanonicalOutputs(l.inputs, DeliveredBy(events'[..j'])));
  }

  /** Never dispatched, dispatched without its inputs, or with inputs the order of deliveries cannot change. */
  ghost predicate SteadyNode(g: ExecutionGraph, n: NodeId)
    requires n in g.nodes
  {
    Held(g, n) || "payload" in g.nodes[n].payload || SteadyInputs(g, n)
  }

  lemma SteadyNodeAgrees(l: Launch, n: NodeId, events: seq<NodeEvent>, events': seq<NodeEvent>, x: Dispatch, x': Dispatch)
    requires n in l.definition.graph.nodes && SteadyNode(l.definition.graph, n)
    ensures !DisagreeOn(l, n, events, events', x, x')
  {
    hide LegalRun, Log, Held, SteadyInputs;
    if DisagreeOn(l, n, events, events', x, x') {
      HeldIsNeverDispatched(l, events, x);
      if "payload" in l.definition.graph.nodes[n].payload {
        OwnPayloadIsSteady(l, events, events', x, x');
      } else {
        SteadyTask(l, events, events', x, x');
      }
    }
  }

  /**
    The task a node is dispatched with is independent of the order of deliveries, for all launch inputs, if and
    only if the node waits for the blank id, has an entry called payload of its own, or has only steady inputs.
   */
  lemma PayloadOrderIndependentIff(id: string, definition: WorkflowDefinition, plan: Planner.ExecutionPlan, n: NodeId)
    requires IsDag(definition.graph) && n in definition.graph.nodes
    ensures OrderIndependent(id, definition, plan, n) <==> SteadyNode(definition.graph, n)
  {
    hide IsDag, SteadyInput, Held;
    if SteadyNode(definition.graph, n) {
      forall inputs, events, events', x, x'
        ensures !DisagreeOn(Launch(id, definition, inputs, plan), n, events, events', x, x')
      {
        SteadyNodeAgrees(Launch(id, definition, inputs, plan), n, events, events', x, x');
      }
    } else {
      var k :| k in definition.graph.nodes[n].inputMappings
        && !SteadyInput(definition.graph, n, definition.graph.nodes[n].inputMappings[k]);
      UnsteadyDisagrees(id, definition, plan, n, k);
    }
  }
}
