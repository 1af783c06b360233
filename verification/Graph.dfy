/**
  Execution graphs: nodes kept in insertion order (as a dictionary keeps them), edges as a list
  in which duplicates and self-loops may occur, and the walks through such a graph.
 */
module Graphs {
  import opened Sequences
  import opened Wrappers

  type NodeId = string

  datatype GraphEdge = GraphEdge(source: NodeId, target: NodeId)

  datatype Value = Null | Text(text: string) | Number(number: int)

  datatype FailurePolicy = Fail | Ignore | Compensate

  datatype NodeInput = NodeInput(sourceNode: Option<NodeId>, outputKey: Option<string>, default: Value)

  datatype GraphNode = GraphNode(
    executorType: string,
    payload: map<string, Value>,
    failureHandling: Option<FailurePolicy>,
    inputMappings: map<string, NodeInput>)

  datatype ExecutionGraph = ExecutionGraph(
    order: seq<NodeId>, nodes: map<NodeId, GraphNode>, edges: seq<GraphEdge>)

  datatype WorkflowDefinition = WorkflowDefinition(
    name: string, graph: ExecutionGraph, failureHandling: FailurePolicy)

  /** `order` lists the keys of `nodes`, each once. */
  ghost predicate Keyed(g: ExecutionGraph) {
    && NoDup(g.order)
    && (forall n :: n in g.order <==> n in g.nodes)
  }

  ghost predicate ValidEdges(g: ExecutionGraph) {
    forall e :: e in g.edges ==> e.source in g.nodes && e.target in g.nodes
  }

  ghost predicate WellFormed(g: ExecutionGraph) {
    Keyed(g) && ValidEdges(g)
  }

  predicate HasEdge(g: ExecutionGraph, source: NodeId, target: NodeId) {
    GraphEdge(source, target) in g.edges
  }

  ghost predicate IsWalk(g: ExecutionGraph, p: seq<NodeId>) {
    && |p| > 0
    && (forall i :: 0 <= i < |p| ==> p[i] in g.nodes)
    && (forall i, j :: 0 <= i && j == i + 1 && j < |p| ==> HasEdge(g, p[i], p[j]))
  }

  ghost predicate IsCycle(g: ExecutionGraph, p: seq<NodeId>) {
    IsWalk(g, p) && |p| >= 2 && p[0] == p[|p| - 1]
  }

  ghost predicate Acyclic(g: ExecutionGraph) {
    forall p :: !IsCycle(g, p)
  }

  ghost predicate IsDag(g: ExecutionGraph) {
    WellFormed(g) && Acyclic(g)
  }

  /** `rank` grows along every edge. */
  ghost predicate Ranked(g: ExecutionGraph, rank: map<NodeId, int>) {
    && (forall n :: n in g.nodes ==> n in rank)
    && (forall a, b :: HasEdge(g, a, b) && a in g.nodes && b in g.nodes ==> rank[a] < rank[b])
  }

  lemma {:induction false} RankGrowsAlongWalk(g: ExecutionGraph, rank: map<NodeId, int>, p: seq<NodeId>)
    requires Ranked(g, rank) && IsWalk(g, p)
    ensures rank[p[0]] + |p| - 1 <= rank[p[|p| - 1]]
  {
    if |p| > 1 {
      var front := p[..|p| - 1];
      RankGrowsAlongWalk(g, rank, front);
      assert HasEdge(g, p[|p| - 2], p[|p| - 1]);
    }
  }

  lemma RankedIsAcyclic(g: ExecutionGraph, rank: map<NodeId, int>)
    requires Ranked(g, rank)
    ensures Acyclic(g)
  {
    forall p ensures !IsCycle(g, p) {
      if IsCycle(g, p) {
        RankGrowsAlongWalk(g, rank, p);
      }
    }
  }

  ghost predicate HasPredecessorIn(g: ExecutionGraph, s: set<NodeId>, n: NodeId) {
    exists m :: m in s && HasEdge(g, m, n)
  }

  /** Every node of `s` has a predecessor inside `s`. */
  ghost predicate BackwardClosed(g: ExecutionGraph, s: set<NodeId>) {
    && (forall n :: n in s ==> n in g.nodes)
    && (forall n {:trigger HasPredecessorIn(g, s, n)} :: n in s ==> HasPredecessorIn(g, s, n))
  }

  lemma {:induction false} WalkInside(g: ExecutionGraph, s: set<NodeId>, k: nat) returns (p: seq<NodeId>)
    requires BackwardClosed(g, s) && s != {}
    ensures IsWalk(g, p) && |p| == k + 1 && forall i :: 0 <= i < |p| ==> p[i] in s
  {
    if k == 0 {
      var n :| n in s;
      p := [n];
    } else {
      var q := WalkInside(g, s, k - 1);
      assert HasPredecessorIn(g, s, q[0]);
      var m :| m in s && HasEdge(g, m, q[0]);
      p := [m] + q;
    }
  }

  /** A non-empty set of nodes closed under "has a predecessor in it" contains a cycle. */
  lemma BackwardClosedHasCycle(g: ExecutionGraph, s: set<NodeId>)
    requires BackwardClosed(g, s) && s != {}
    ensures !Acyclic(g)
  {
    var p := WalkInside(g, s, |s|);
    if NoDup(p) {
      NoDupBound(p, s);
      assert false;
    } else {
      var i, j :| 0 <= i < j < |p| && p[i] == p[j];
      assert IsCycle(g, p[i..j + 1]);
    }
  }
}
