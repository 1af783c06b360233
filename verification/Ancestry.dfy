/** Proper ancestors in an execution graph. */
module Ancestry {
  import opened Graphs

  ghost predicate Connects(g: ExecutionGraph, p: seq<NodeId>, a: NodeId, b: NodeId) {
    IsWalk(g, p) && |p| >= 2 && p[0] == a && p[|p| - 1] == b
  }

  /** A walk of at least one edge leads from `a` to `b`. */
  ghost predicate Ancestor(g: ExecutionGraph, a: NodeId, b: NodeId) {
    exists p :: Connects(g, p, a, b)
  }

  lemma ParentIsAncestor(g: ExecutionGraph, a: NodeId, b: NodeId)
    requires ValidEdges(g) && HasEdge(g, a, b)
    ensures Ancestor(g, a, b) && a in g.nodes && b in g.nodes
  {
    assert GraphEdge(a, b).source in g.nodes && GraphEdge(a, b).target in g.nodes;
    assert Connects(g, [a, b], a, b);
  }

  lemma ParentOfAncestor(g: ExecutionGraph, m: NodeId, a: NodeId, b: NodeId)
    requires ValidEdges(g) && HasEdge(g, m, a) && Ancestor(g, a, b)
    ensures Ancestor(g, m, b)
  {
    ParentIsAncestor(g, m, a);
    var p :| Connects(g, p, a, b);
    assert Connects(g, [m] + p, m, b);
  }

  lemma AncestorsAreProper(g: ExecutionGraph, a: NodeId)
    requires Acyclic(g)
    ensures !Ancestor(g, a, a)
  {
    forall p ensures !Connects(g, p, a, a) {
      assert !IsCycle(g, p);
    }
  }

  ghost function Ancestors(g: ExecutionGraph, n: NodeId): set<NodeId> {
    set a | a in g.nodes && Ancestor(g, a, n)
  }

  /** `s` contains the parents of its members. */
  ghost predicate ParentClosed(g: ExecutionGraph, s: set<NodeId>) {
    forall m, n :: HasEdge(g, m, n) && n in s ==> m in s
  }

  lemma AncestorsAreClosed(g: ExecutionGraph, n: NodeId)
    requires ValidEdges(g)
    ensures ParentClosed(g, Ancestors(g, n)) && ParentClosed(g, Ancestors(g, n) + {n})
  {
    forall m, a | HasEdge(g, m, a) && a in Ancestors(g, n) ensures m in Ancestors(g, n) {
      ParentIsAncestor(g, m, a);
      ParentOfAncestor(g, m, a, n);
    }
    forall m | HasEdge(g, m, n) ensures m in Ancestors(g, n) {
      ParentIsAncestor(g, m, n);
    }
  }

  /** Among nodes not yet taken of a parent-closed set, one has all its parents taken. */
  lemma NextOfClosed(g: ExecutionGraph, s: set<NodeId>, taken: set<NodeId>) returns (n: NodeId)
    requires IsDag(g) && ParentClosed(g, s) && s <= g.nodes.Keys && !(s <= taken)
    ensures n in s && n !in taken && forall m :: HasEdge(g, m, n) ==> m in taken
  {
    var rest := s - taken;
    var w :| w in s && w !in taken;
    assert w in rest;
    if BackwardClosed(g, rest) {
      BackwardClosedHasCycle(g, rest);
      assert false;
    }
    n :| n in rest && !HasPredecessorIn(g, rest, n);
  }
}
