/**
  The bookkeeping of Kahn's algorithm over a multigraph, shared by the builder's cycle check and
  the planner's level resolution: adjacency lists, in-degrees, and the state of the queue-driven
  loop between two relaxations.
 */
module Kahn {
  import opened Sequences
  import opened Graphs

  type Adjacency = map<NodeId, seq<NodeId>>
  type Degrees = map<NodeId, nat>

  /** The targets of the edges leaving `u`, in edge order, once per edge. */
  function Targets(edges: seq<GraphEdge>, u: NodeId): seq<NodeId> {
    if edges == [] then []
    else
      var e := edges[|edges| - 1];
      var rest := Targets(edges[..|edges| - 1], u);
      if e.source == u then rest + [e.target] else rest
  }

  /** How many edges into `v` leave a node outside `done`. */
  ghost function Waiting(edges: seq<GraphEdge>, done: set<NodeId>, v: NodeId): nat {
    if edges == [] then 0
    else
      var e := edges[|edges| - 1];
      Waiting(edges[..|edges| - 1], done, v) + if e.target == v && e.source !in done then 1 else 0
  }

  /** How many edges leave a node of `done`. */
  ghost function Leaving(edges: seq<GraphEdge>, done: set<NodeId>): nat {
    if edges == [] then 0
    else
      Leaving(edges[..|edges| - 1], done) + if edges[|edges| - 1].source in done then 1 else 0
  }

  lemma {:induction false} TargetsAreEdges(edges: seq<GraphEdge>, u: NodeId, v: NodeId)
    ensures v in Targets(edges, u) <==> GraphEdge(u, v) in edges
  {
    if edges != [] {
      TargetsAreEdges(edges[..|edges| - 1], u, v);
      assert edges == edges[..|edges| - 1] + [edges[|edges| - 1]];
    }
  }

  lemma {:induction false} WaitingIsZero(edges: seq<GraphEdge>, done: set<NodeId>, v: NodeId)
    ensures Waiting(edges, done, v) == 0 <==> forall m :: GraphEdge(m, v) in edges ==> m in done
  {
    if edges != [] {
      var front, e := edges[..|edges| - 1], edges[|edges| - 1];
      WaitingIsZero(front, done, v);
      assert edges == front + [e];
      assert e == GraphEdge(e.source, e.target);
      if Waiting(edges, done, v) == 0 {
        forall m | GraphEdge(m, v) in edges ensures m in done {
          assert GraphEdge(m, v) in front || GraphEdge(m, v) == e;
        }
      } else if Waiting(front, done, v) == 0 {
        assert GraphEdge(e.source, v) in edges;
      } else {
        var m :| GraphEdge(m, v) in front && m !in done;
        assert GraphEdge(m, v) in edges;
      }
    }
  }

  lemma {:induction false} WaitingAfter(edges: seq<GraphEdge>, done: set<NodeId>, u: NodeId, v: NodeId)
    requires u !in done
    ensures Waiting(edges, done, v) == Waiting(edges, done + {u}, v) + multiset(Targets(edges, u))[v]
  {
    if edges != [] {
      WaitingAfter(edges[..|edges| - 1], done, u, v);
    }
  }

  lemma {:induction false} LeavingAfter(edges: seq<GraphEdge>, done: set<NodeId>, u: NodeId)
    requires u !in done
    ensures Leaving(edges, done + {u}) == Leaving(edges, done) + |Targets(edges, u)|
  {
    if edges != [] {
      LeavingAfter(edges[..|edges| - 1], done, u);
    }
  }

  lemma {:induction false} LeavingAll(edges: seq<GraphEdge>, done: set<NodeId>)
    requires forall e :: e in edges ==> e.source in done
    ensures Leaving(edges, done) == |edges|
  {
    if edges != [] {
      assert edges[|edges| - 1] in edges;
      LeavingAll(edges[..|edges| - 1], done);
    }
  }

  lemma {:induction false} LeavingNone(edges: seq<GraphEdge>)
    ensures Leaving(edges, {}) == 0
  {
    if edges != [] {
      LeavingNone(edges[..|edges| - 1]);
    }
  }

  /** Every edge into a node of `s` leaves a node that stands earlier in `s`. */
  ghost predicate Topological(g: ExecutionGraph, s: seq<NodeId>) {
    forall i, m :: 0 <= i < |s| && HasEdge(g, m, s[i]) ==> m in s[..i]
  }

  /** `s` lists every node once, every edge going forward. */
  ghost predicate TopologicalOrder(g: ExecutionGraph, s: seq<NodeId>) {
    && NoDup(s)
    && (forall n :: n in s <==> n in g.nodes)
    && Topological(g, s)
  }

  ghost function Position(s: seq<NodeId>, n: NodeId): (i: int)
    requires n in s
    ensures 0 <= i < |s| && s[i] == n
  {
    var i :| 0 <= i < |s| && s[i] == n;
    i
  }

  lemma TopologicalOrderIsAcyclic(g: ExecutionGraph, s: seq<NodeId>)
    requires TopologicalOrder(g, s)
    ensures Acyclic(g)
  {
    var rank := map n | n in g.nodes :: Position(s, n);
    forall a, b | HasEdge(g, a, b) && a in g.nodes && b in g.nodes ensures rank[a] < rank[b] {
      assert HasEdge(g, a, s[rank[b]]);
      var k :| 0 <= k < rank[b] && s[k] == a;
    }
    RankedIsAcyclic(g, rank);
  }

  /** The nodes processed before position `i` of the discovery order. */
  ghost function Done(seen: seq<NodeId>, i: nat): set<NodeId>
    requires i <= |seen|
  {
    Elems(seen[..i])
  }

  lemma DoneGrows(seen: seq<NodeId>, i: nat)
    requires i < |seen|
    ensures Done(seen, i + 1) == Done(seen, i) + {seen[i]}
    ensures Done(seen, i) <= Elems(seen)
  {
    assert seen[..i + 1] == seen[..i] + [seen[i]];
  }

  lemma DoneAll(seen: seq<NodeId>)
    ensures Done(seen, |seen|) == Elems(seen)
  {
    assert seen[..|seen|] == seen;
  }

  lemma Discover(seen: seq<NodeId>, v: NodeId, i: nat)
    requires i < |seen|
    ensures Done(seen + [v], i) == Done(seen, i) && Elems(seen + [v]) == Elems(seen) + {v}
    ensures (seen + [v])[i] == seen[i] && (seen + [v])[i + 1..] == seen[i + 1..] + [v]
  {
    assert (seen + [v])[..i] == seen[..i];
  }

  /**
    The loop between two relaxations. `seen` lists the nodes in the order they reached in-degree
    zero: those before `i` are processed, `seen[i]` has had its first `k` targets relaxed, and the
    queue is what follows.
   */
  ghost predicate Relaxing(g: ExecutionGraph, seen: seq<NodeId>, i: nat, k: nat, inDegree: Degrees) {
    && i < |seen|
    && k <= |Targets(g.edges, seen[i])|
    && NoDup(seen)
    && Topological(g, seen[..i + 1])
    && inDegree.Keys == g.nodes.Keys
    && (forall n :: n in g.nodes ==>
          inDegree[n] + multiset(Targets(g.edges, seen[i])[..k])[n] == Waiting(g.edges, Done(seen, i), n))
    && (forall n :: n in seen <==> n in g.nodes && inDegree[n] == 0)
  }

  /** The loop between two nodes: everything before `i` is fully relaxed. */
  ghost predicate Settled(g: ExecutionGraph, seen: seq<NodeId>, i: nat, inDegree: Degrees) {
    && i <= |seen|
    && NoDup(seen)
    && Topological(g, seen[..i])
    && inDegree.Keys == g.nodes.Keys
    && (forall n :: n in g.nodes ==> inDegree[n] == Waiting(g.edges, Done(seen, i), n))
    && (forall n :: n in seen <==> n in g.nodes && inDegree[n] == 0)
  }

  lemma SeenBound(g: ExecutionGraph, seen: seq<NodeId>)
    requires NoDup(seen) && forall n :: n in seen ==> n in g.nodes
    ensures |seen| <= |g.nodes|
    ensures |seen| == |g.nodes| <==> Elems(seen) == g.nodes.Keys
  {
    assert |g.nodes.Keys| == |g.nodes|;
    NoDupBound(seen, g.nodes.Keys);
    NoDupCardinality(seen);
  }

  lemma Pop(g: ExecutionGraph, seen: seq<NodeId>, i: nat, inDegree: Degrees)
    requires WellFormed(g) && Settled(g, seen, i, inDegree) && i < |seen|
    ensures Relaxing(g, seen, i, 0, inDegree)
    ensures |seen| <= |g.nodes| && seen[i] in g.nodes
  {
    var u := seen[i];
    assert u in seen;
    WaitingIsZero(g.edges, Done(seen, i), u);
    var front := seen[..i + 1];
    forall j, m | 0 <= j < |front| && HasEdge(g, m, front[j]) ensures m in front[..j] {
      assert front[..j] == seen[..j];
      if j == i {
        assert GraphEdge(m, u) in g.edges;
      } else {
        assert HasEdge(g, m, seen[..i][j]);
        assert seen[..i][..j] == seen[..j];
      }
    }
    SeenBound(g, seen);
  }

  /** A target about to be relaxed has not been discovered yet. */
  lemma TargetIsFresh(g: ExecutionGraph, seen: seq<NodeId>, i: nat, k: nat, inDegree: Degrees)
    requires WellFormed(g) && Relaxing(g, seen, i, k, inDegree) && k < |Targets(g.edges, seen[i])|
    ensures var v := Targets(g.edges, seen[i])[k];
      HasEdge(g, seen[i], v) && v in g.nodes && v in inDegree && inDegree[v] > 0 && v !in seen
  {
    var u := seen[i];
    var adj := Targets(g.edges, u);
    var v := adj[k];
    TargetsAreEdges(g.edges, u, v);
    assert GraphEdge(u, v).target in g.nodes;
    WaitingAfter(g.edges, Done(seen, i), u, v);
    assert adj == adj[..k] + ([v] + adj[k + 1..]);
    assert multiset(adj)[v] == multiset(adj[..k])[v] + (1 + multiset(adj[k + 1..])[v]);
  }

  lemma OneMoreTarget(adj: seq<NodeId>, k: nat)
    requires k < |adj|
    ensures multiset(adj[..k + 1]) == multiset(adj[..k]) + multiset{adj[k]}
  {
    assert adj[..k + 1] == adj[..k] + [adj[k]];
  }

  lemma Relax(
    g: ExecutionGraph, seen: seq<NodeId>, i: nat, k: nat, inDegree: Degrees,
    seen': seq<NodeId>, inDegree': Degrees)
    requires WellFormed(g) && Relaxing(g, seen, i, k, inDegree) && k < |Targets(g.edges, seen[i])|
    requires var v := Targets(g.edges, seen[i])[k];
      && v in inDegree && inDegree[v] > 0
      && inDegree' == inDegree[v := inDegree[v] - 1]
      && seen' == if inDegree[v] == 1 then seen + [v] else seen
    ensures Relaxing(g, seen', i, k + 1, inDegree')
  {
    hide Targets, Waiting, Topological, WellFormed;
    var adj := Targets(g.edges, seen[i]);
    var v := adj[k];
    TargetIsFresh(g, seen, i, k, inDegree);
    assert seen'[..i + 1] == seen[..i + 1] && seen'[..i] == seen[..i];
    OneMoreTarget(adj, k);
    forall n | n in g.nodes
      ensures inDegree'[n] + multiset(adj[..k + 1])[n] == Waiting(g.edges, Done(seen', i), n)
    {
    }
  }

  lemma Finish(g: ExecutionGraph, seen: seq<NodeId>, i: nat, inDegree: Degrees)
    requires WellFormed(g) && i < |seen|
    requires Relaxing(g, seen, i, |Targets(g.edges, seen[i])|, inDegree)
    ensures Settled(g, seen, i + 1, inDegree)
    ensures Leaving(g.edges, Done(seen, i + 1)) == Leaving(g.edges, Done(seen, i)) + |Targets(g.edges, seen[i])|
  {
    var u := seen[i];
    var adj := Targets(g.edges, u);
    assert adj[..|adj|] == adj;
    assert seen[..i + 1] == seen[..i] + [u];
    assert Done(seen, i + 1) == Done(seen, i) + {u};
    LeavingAfter(g.edges, Done(seen, i), u);
    forall n | n in g.nodes ensures inDegree[n] == Waiting(g.edges, Done(seen, i + 1), n) {
      WaitingAfter(g.edges, Done(seen, i), u, n);
    }
  }

  lemma ExhaustedComplete(g: ExecutionGraph, seen: seq<NodeId>, inDegree: Degrees)
    requires WellFormed(g) && Settled(g, seen, |seen|, inDegree) && |seen| == |g.nodes|
    ensures TopologicalOrder(g, seen) && Leaving(g.edges, Elems(seen)) == |g.edges| && Acyclic(g)
  {
    SeenBound(g, seen);
    assert seen[..|seen|] == seen;
    forall n ensures n in seen <==> n in g.nodes {
      assert n in Elems(seen) <==> n in g.nodes.Keys;
    }
    LeavingAll(g.edges, Elems(seen));
    TopologicalOrderIsAcyclic(g, seen);
  }

  lemma ExhaustedEarly(g: ExecutionGraph, seen: seq<NodeId>, inDegree: Degrees)
    requires WellFormed(g) && Settled(g, seen, |seen|, inDegree) && |seen| != |g.nodes|
    ensures !Acyclic(g)
  {
    SeenBound(g, seen);
    assert seen[..|seen|] == seen;
    var rest := g.nodes.Keys - Elems(seen);
    assert g.nodes.Keys == Elems(seen) + rest;
    forall n | n in rest ensures HasPredecessorIn(g, rest, n) {
      assert n !in seen;
      WaitingIsZero(g.edges, Elems(seen), n);
      var m :| GraphEdge(m, n) in g.edges && m !in Elems(seen);
      assert GraphEdge(m, n).source in g.nodes;
      assert HasEdge(g, m, n);
    }
    BackwardClosedHasCycle(g, rest);
  }

  /** The index of the edges read so far. */
  ghost predicate Indexed(
    nodes: set<NodeId>, edges: seq<GraphEdge>, adj: Adjacency, inDegree: Degrees)
  {
    && adj.Keys == nodes && inDegree.Keys == nodes
    && (forall n :: n in nodes ==> adj[n] == Targets(edges, n))
    && (forall n :: n in nodes ==> inDegree[n] == Waiting(edges, {}, n))
  }

  lemma IndexOne(nodes: set<NodeId>, edges: seq<GraphEdge>, e: GraphEdge, adj: Adjacency, inDegree: Degrees)
    requires Indexed(nodes, edges, adj, inDegree) && e.source in nodes && e.target in nodes
    ensures e.source in adj && e.target in inDegree
    ensures Indexed(nodes, edges + [e],
      adj[e.source := adj[e.source] + [e.target]], inDegree[e.target := inDegree[e.target] + 1])
  {
    assert (edges + [e])[..|edges|] == edges;
  }

  /** Reads the edge list once, collecting adjacency lists and in-degrees. */
  method IndexEdges(g: ExecutionGraph) returns (adj: Adjacency, inDegree: Degrees)
    requires WellFormed(g)
    ensures adj.Keys == g.nodes.Keys && inDegree.Keys == g.nodes.Keys
    ensures forall n :: n in g.nodes ==> adj[n] == Targets(g.edges, n)
    ensures forall n :: n in g.nodes ==> inDegree[n] == Waiting(g.edges, {}, n)
  {
    hide Indexed, Waiting, Targets, WellFormed;
    adj := map n | n in g.nodes :: [];
    inDegree := map n | n in g.nodes :: 0;
    IndexedMeans(g.nodes.Keys, [], adj, inDegree);
    for i := 0 to |g.edges|
      invariant Indexed(g.nodes.Keys, g.edges[..i], adj, inDegree)
    {
      var e := g.edges[i];
      assert g.edges[..i + 1] == g.edges[..i] + [e];
      EdgeEnds(g, e);
      IndexOne(g.nodes.Keys, g.edges[..i], e, adj, inDegree);
      adj := adj[e.source := adj[e.source] + [e.target]];
      inDegree := inDegree[e.target := inDegree[e.target] + 1];
    }
    assert g.edges[..|g.edges|] == g.edges;
    IndexedMeans(g.nodes.Keys, g.edges, adj, inDegree);
  }

  lemma EdgeEnds(g: ExecutionGraph, e: GraphEdge)
    requires WellFormed(g) && e in g.edges
    ensures e.source in g.nodes && e.target in g.nodes
  {
  }

  lemma IndexedMeans(nodes: set<NodeId>, edges: seq<GraphEdge>, adj: Adjacency, inDegree: Degrees)
    ensures adj == (map n | n in nodes :: []) && inDegree == (map n | n in nodes :: 0) && edges == [] ==>
      Indexed(nodes, edges, adj, inDegree)
    ensures Indexed(nodes, edges, adj, inDegree) ==>
      && adj.Keys == nodes && inDegree.Keys == nodes
      && (forall n :: n in nodes ==> adj[n] == Targets(edges, n) && inDegree[n] == Waiting(edges, {}, n))
  {
  }

  /** The sources of the edges into `n`, in edge order, once per edge. */
  function Sources(edges: seq<GraphEdge>, n: NodeId): seq<NodeId> {
    if edges == [] then []
    else
      var e := edges[|edges| - 1];
      var rest := Sources(edges[..|edges| - 1], n);
      if e.target == n then rest + [e.source] else rest
  }

  lemma {:induction false} SourcesAreEdges(edges: seq<GraphEdge>, m: NodeId, n: NodeId)
    ensures m in Sources(edges, n) <==> GraphEdge(m, n) in edges
  {
    if edges != [] {
      SourcesAreEdges(edges[..|edges| - 1], m, n);
      assert edges == edges[..|edges| - 1] + [edges[|edges| - 1]];
    }
  }

  /** The reverse index: each node's parents. */
  method IndexParents(g: ExecutionGraph) returns (parents: Adjacency)
    requires WellFormed(g)
    ensures parents.Keys == g.nodes.Keys
    ensures forall n :: n in g.nodes ==> parents[n] == Sources(g.edges, n)
  {
    parents := map n | n in g.nodes :: [];
    for i := 0 to |g.edges|
      invariant parents.Keys == g.nodes.Keys
      invariant forall n :: n in g.nodes ==> parents[n] == Sources(g.edges[..i], n)
    {
      var e := g.edges[i];
      assert e in g.edges;
      assert g.edges[..i + 1][..i] == g.edges[..i];
      parents := parents[e.target := parents[e.target] + [e.source]];
    }
    assert g.edges[..|g.edges|] == g.edges;
  }

  predicate HasZeroDegree(inDegree: Degrees, n: NodeId) {
    n in inDegree && inDegree[n] == 0
  }

  lemma Start(g: ExecutionGraph, queue: seq<NodeId>, inDegree: Degrees)
    requires WellFormed(g) && inDegree.Keys == g.nodes.Keys
    requires forall n :: n in g.nodes ==> inDegree[n] == Waiting(g.edges, {}, n)
    requires queue == Select(g.order, n => HasZeroDegree(inDegree, n))
    ensures Settled(g, queue, 0, inDegree)
    ensures forall n :: n in queue ==> n in g.nodes
    ensures Leaving(g.edges, Done(queue, 0)) == 0
  {
    SelectNoDup(g.order, n => HasZeroDegree(inDegree, n));
    assert Done(queue, 0) == {};
    LeavingNone(g.edges);
  }
}
