/**
  The fluent workflow builder: nodes and edges accumulate in place, and `Build` accepts exactly the
  graphs whose edges join known nodes and which have no cycle.
 */
module Builder {
  import opened Wrappers
  import opened Sequences
  import opened Graphs
  import opened Kahn

  datatype BuildError =
    | DuplicateNode(node: NodeId)
    | UnknownSource(node: NodeId)
    | UnknownTarget(node: NodeId)
    | CyclicDependency

  /** Kahn's cycle check. `relaxations` counts the turns of the inner loop. */
  method ValidateDag(g: ExecutionGraph) returns (r: Result<seq<NodeId>, BuildError>, relaxations: nat)
    requires WellFormed(g)
    ensures r.Ok? <==> Acyclic(g)
    ensures r.Ok? ==> TopologicalOrder(g, r.value) && relaxations == |g.edges|
    ensures r.Err? ==> r.error == CyclicDependency
  {
    hide *;
    var adj, inDegree := IndexEdges(g);
    var queue := Select(g.order, n => HasZeroDegree(inDegree, n));
    var topoOrder: seq<NodeId> := [];
    relaxations := 0;
    ghost var seen := queue;
    Start(g, queue, inDegree);
    while queue != []
      invariant |topoOrder| <= |seen| && topoOrder == seen[..|topoOrder|] && queue == seen[|topoOrder|..]
      invariant Settled(g, seen, |topoOrder|, inDegree)
      invariant relaxations == Leaving(g.edges, Done(seen, |topoOrder|))
      decreases |g.nodes| - |topoOrder|
    {
      ghost var i, before := |topoOrder|, relaxations;
      Pop(g, seen, i, inDegree);
      var u := queue[0];
      queue, topoOrder := queue[1..], topoOrder + [u];
      for k := 0 to |adj[u]|
        invariant i < |seen| && seen[i] == u
        invariant topoOrder == seen[..i + 1] && queue == seen[i + 1..]
        invariant Relaxing(g, seen, i, k, inDegree)
        invariant Leaving(g.edges, Done(seen, i)) == before && relaxations == before + k
      {
        TargetIsFresh(g, seen, i, k, inDegree);
        ghost var seen0, inDegree0 := seen, inDegree;
        var v := adj[u][k];
        inDegree := inDegree[v := inDegree[v] - 1];
        if inDegree[v] == 0 {
          Discover(seen, v, i);
          queue, seen := queue + [v], seen + [v];
        }
        relaxations := relaxations + 1;
        Relax(g, seen0, i, k, inDegree0, seen, inDegree);
      }
      Finish(g, seen, i, inDegree);
    }
    DoneAll(seen);
    assert topoOrder == seen;
    if |topoOrder| != |g.nodes| {
      ExhaustedEarly(g, topoOrder, inDegree);
      return Err(CyclicDependency), relaxations;
    }
    ExhaustedComplete(g, topoOrder, inDegree);
    return Ok(topoOrder), relaxations;
  }

  /** The complaint `Build` raises about the first edge naming an unknown node, if there is one. */
  function EdgeComplaint(nodes: map<NodeId, GraphNode>, edges: seq<GraphEdge>): (r: Option<BuildError>)
    ensures r.None? <==> forall e :: e in edges ==> e.source in nodes && e.target in nodes
  {
    if edges == [] then None
    else if edges[0].source !in nodes then Some(UnknownSource(edges[0].source))
    else if edges[0].target !in nodes then Some(UnknownTarget(edges[0].target))
    else EdgeComplaint(nodes, edges[1..])
  }

  /** Up to the `i`-th edge all ends are known. */
  predicate KnownBefore(nodes: map<NodeId, GraphNode>, edges: seq<GraphEdge>, i: nat)
    requires i <= |edges|
  {
    forall j :: 0 <= j < i ==> edges[j].source in nodes && edges[j].target in nodes
  }

  /** The complaint names the first bad edge: its source if that is unknown, else its target. */
  lemma {:induction false} ComplaintNamesFirstBadEdge(nodes: map<NodeId, GraphNode>, edges: seq<GraphEdge>, i: nat)
    requires i < |edges| && KnownBefore(nodes, edges, i)
    ensures edges[i].source !in nodes ==> EdgeComplaint(nodes, edges) == Some(UnknownSource(edges[i].source))
    ensures edges[i].source in nodes && edges[i].target !in nodes ==>
      EdgeComplaint(nodes, edges) == Some(UnknownTarget(edges[i].target))
  {
    if i > 0 {
      assert edges[0].source in nodes && edges[0].target in nodes;
      assert forall j :: 0 <= j < i - 1 ==> edges[1..][j] == edges[j + 1];
      ComplaintNamesFirstBadEdge(nodes, edges[1..], i - 1);
    }
  }

  class WorkflowBuilder {
    const name: string
    var order: seq<NodeId>
    var nodes: map<NodeId, GraphNode>
    var edges: seq<GraphEdge>
    var failureHandling: FailurePolicy

    function Graph(): ExecutionGraph
      reads this
    {
      ExecutionGraph(order, nodes, edges)
    }

    ghost predicate Valid()
      reads this
    {
      Keyed(Graph())
    }

    constructor (name: string)
      ensures Valid() && this.name == name
      ensures Graph() == ExecutionGraph([], map[], []) && failureHandling == Fail
    {
      this.name := name;
      order, nodes, edges := [], map[], [];
      failureHandling := Fail;
    }

    method AddNode(id: NodeId, node: GraphNode) returns (r: Result<(), BuildError>)
      requires Valid()
      modifies this
      ensures Valid() && failureHandling == old(failureHandling)
      ensures r == if id in old(nodes) then Err(DuplicateNode(id)) else Ok(())
      ensures Graph() == if r.Err? then old(Graph())
        else ExecutionGraph(old(order) + [id], old(nodes)[id := node], old(edges))
    {
      if id in nodes {
        return Err(DuplicateNode(id));
      }
      NoDupAppend(order, id);
      order, nodes := order + [id], nodes[id := node];
      return Ok(());
    }

    /** Edges are recorded unchecked: an unknown endpoint is only reported by `Build`. */
    method Connect(source: NodeId, target: NodeId)
      requires Valid()
      modifies this
      ensures Valid() && failureHandling == old(failureHandling)
      ensures Graph() == old(Graph()).(edges := old(edges) + [GraphEdge(source, target)])
    {
      edges := edges + [GraphEdge(source, target)];
    }

    method Parallel(source: NodeId, targets: seq<NodeId>)
      requires Valid()
      modifies this
      ensures Valid() && failureHandling == old(failureHandling)
      ensures Graph() == old(Graph()).(edges :=
        old(edges) + seq(|targets|, i requires 0 <= i < |targets| => GraphEdge(source, targets[i])))
    {
      for i := 0 to |targets|
        invariant Valid() && failureHandling == old(failureHandling)
        invariant Graph() == old(Graph()).(edges :=
          old(edges) + seq(i, j requires 0 <= j < i => GraphEdge(source, targets[j])))
      {
        Connect(source, targets[i]);
      }
    }

    method ConfigureWorkflowPolicy(policy: FailurePolicy)
      requires Valid()
      modifies this
      ensures Valid() && Graph() == old(Graph()) && failureHandling == policy
    {
      failureHandling := policy;
    }

    /** Accepts iff the accumulated graph is a DAG over known nodes, and then hands over that graph. */
    method Build() returns (r: Result<WorkflowDefinition, BuildError>)
      requires Valid()
      ensures r.Ok? <==> IsDag(Graph())
      ensures r.Ok? ==> r.value == WorkflowDefinition(name, Graph(), failureHandling)
      ensures r.Err? ==>
        Some(r.error) == if ValidEdges(Graph()) then Some(CyclicDependency) else EdgeComplaint(nodes, edges)
    {
      for i := 0 to |edges|
        invariant forall e :: e in edges[..i] ==> e.source in nodes && e.target in nodes
        invariant EdgeComplaint(nodes, edges) == EdgeComplaint(nodes, edges[i..])
      {
        var e := edges[i];
        if e.source !in nodes {
          return Err(UnknownSource(e.source));
        }
        if e.target !in nodes {
          return Err(UnknownTarget(e.target));
        }
      }
      assert edges[..|edges|] == edges;
      var checked, _ := ValidateDag(Graph());
      if checked.Err? {
        return Err(checked.error);
      }
      return Ok(WorkflowDefinition(name, Graph(), failureHandling));
    }
  }
}
