/**
  The workflow planner: parallel phases by level and the critical path by backtracking. The phases
  are proved to be a smallest layering of the graph, the critical path to be a longest walk.
 */
module Planner {
  import opened Sequences
  import opened Graphs
  import opened Kahn
  import opened LevelResolution

  datatype ExecutionPhase = ExecutionPhase(nodeIds: seq<NodeId>, phaseIndex: nat)

  datatype ExecutionPlan = ExecutionPlan(phases: seq<ExecutionPhase>, criticalPath: seq<NodeId>)

  // ---------- phases ----------

  predicate AtLevel(levels: Levels, l: nat, n: NodeId) {
    n in levels && levels[n] == l
  }

  function NodesAtLevel(order: seq<NodeId>, levels: Levels, l: nat): seq<NodeId> {
    Select(order, n => AtLevel(levels, l, n))
  }

  ghost predicate IsMaxLevel(levels: Levels, top: nat) {
    && (exists n :: n in levels && levels[n] == top)
    && (forall n :: n in levels ==> levels[n] <= top)
  }

  /** Phase `l` lists the nodes of level `l` in graph order, for every level in use. */
  ghost predicate PhasesByLevel(g: ExecutionGraph, levels: Levels, phases: seq<ExecutionPhase>) {
    && (g.order == [] ==> phases == [])
    && (g.order != [] ==> |phases| > 0 && IsMaxLevel(levels, |phases| - 1))
    && (forall l :: 0 <= l < |phases| ==> phases[l] == ExecutionPhase(NodesAtLevel(g.order, levels, l), l))
  }

  ghost predicate InPhase(phases: seq<ExecutionPhase>, l: nat, n: NodeId) {
    l < |phases| && n in phases[l].nodeIds
  }

  /** A layering: any assignment of nodes to `k` layers under which every edge goes to a later layer. */
  ghost predicate Layering(g: ExecutionGraph, layer: map<NodeId, int>, k: int) {
    Ranked(g, layer) && forall n :: n in g.nodes ==> 0 <= layer[n] < k
  }

  /** Every node stands in exactly one phase, once, and no phase is empty. */
  lemma PhasesPartition(g: ExecutionGraph, levels: Levels, phases: seq<ExecutionPhase>)
    requires WellFormed(g) && LevelMap(g, levels) && PhasesByLevel(g, levels, phases)
    ensures forall n :: n in g.nodes ==> InPhase(phases, levels[n], n)
    ensures forall l: nat, n :: InPhase(phases, l, n) ==> n in g.nodes && l == levels[n]
    ensures forall l :: 0 <= l < |phases| ==> NoDup(phases[l].nodeIds) && phases[l].nodeIds != []
  {
    forall l | 0 <= l < |phases| ensures NoDup(phases[l].nodeIds) && phases[l].nodeIds != [] {
      SelectNoDup(g.order, n => AtLevel(levels, l, n));
      var top :| top in levels && levels[top] == |phases| - 1;
      var n := AncestorAtLevel(g, levels, top, l);
      assert n in g.order;
    }
  }

  lemma {:induction false} AncestorAtLevel(g: ExecutionGraph, levels: Levels, n: NodeId, l: nat) returns (m: NodeId)
    requires LevelMap(g, levels) && n in levels && l <= levels[n]
    ensures m in levels && levels[m] == l
    decreases levels[n]
  {
    if levels[n] == l {
      m := n;
    } else {
      assert HasLevelParent(g, levels, n);
      var p :| p in levels && HasEdge(g, p, n) && levels[p] + 1 == levels[n];
      m := AncestorAtLevel(g, levels, p, l);
    }
  }

  /** Edges go to strictly later phases. */
  lemma PhasesRespectEdges(
    g: ExecutionGraph, levels: Levels, phases: seq<ExecutionPhase>, a: NodeId, b: NodeId, i: nat, j: nat)
    requires WellFormed(g) && LevelMap(g, levels) && PhasesByLevel(g, levels, phases)
    requires HasEdge(g, a, b) && InPhase(phases, i, a) && InPhase(phases, j, b)
    ensures i < j
  {
    PhasesPartition(g, levels, phases);
  }

  /** No layering uses fewer layers, and none can place a node earlier than its phase. */
  lemma PhasesAreMinimal(
    g: ExecutionGraph, levels: Levels, phases: seq<ExecutionPhase>, layer: map<NodeId, int>, k: int)
    requires WellFormed(g) && LevelMap(g, levels) && PhasesByLevel(g, levels, phases)
    requires Layering(g, layer, k) && k >= 0
    ensures |phases| <= k
    ensures forall n :: n in g.nodes ==> levels[n] <= layer[n]
  {
    forall n | n in g.nodes ensures levels[n] <= layer[n] {
      var p := LongestWalk(g, levels, n);
      RankGrowsAlongWalk(g, layer, p);
    }
    if g.order != [] {
      var top :| top in levels && levels[top] == |phases| - 1;
    }
  }

  // ---------- critical path ----------

  /** Every parent listed before the `i`-th is on a lower level. */
  predicate LowerBefore(parents: seq<NodeId>, levels: Levels, i: nat)
    requires forall p :: p in parents ==> p in levels
  {
    forall j :: 0 <= j < i && i < |parents| ==> levels[parents[j]] < levels[parents[i]]
  }

  /** The first parent among those of the highest level. */
  function BestParent(parents: seq<NodeId>, levels: Levels): (r: NodeId)
    requires parents != [] && forall p :: p in parents ==> p in levels
    ensures r in parents && forall p :: p in parents ==> levels[p] <= levels[r]
    ensures exists i :: 0 <= i < |parents| && parents[i] == r && LowerBefore(parents, levels, i)
  {
    var last := parents[|parents| - 1];
    if |parents| == 1 then last
    else
      var front := parents[..|parents| - 1];
      assert parents == front + [last];
      var best := BestParent(front, levels);
      if levels[last] > levels[best] then last else best
  }

  lemma ParentLevels(g: ExecutionGraph, levels: Levels, n: NodeId)
    requires WellFormed(g) && LevelMap(g, levels) && n in levels
    ensures forall p :: p in Sources(g.edges, n) ==> p in levels
    ensures Sources(g.edges, n) == [] <==> levels[n] == 0
    ensures Sources(g.edges, n) != [] ==>
      var p := BestParent(Sources(g.edges, n), levels); levels[p] + 1 == levels[n] && HasEdge(g, p, n)
  {
    var parents := Sources(g.edges, n);
    forall p | p in parents ensures p in levels && levels[p] < levels[n] && HasEdge(g, p, n) {
      SourcesAreEdges(g.edges, p, n);
      assert GraphEdge(p, n).source in g.nodes;
      assert HasEdge(g, p, n);
    }
    if levels[n] > 0 {
      assert HasLevelParent(g, levels, n);
      var m :| m in levels && HasEdge(g, m, n) && levels[m] + 1 == levels[n];
      SourcesAreEdges(g.edges, m, n);
    }
    if parents != [] {
      assert parents[0] in parents;
    }
  }

  /** The nodes met when backtracking from `n` through best parents to a parentless node. */
  ghost function Trace(g: ExecutionGraph, levels: Levels, n: NodeId): seq<NodeId>
    requires WellFormed(g) && LevelMap(g, levels) && n in levels
    decreases levels[n]
  {
    ParentLevels(g, levels, n);
    var parents := Sources(g.edges, n);
    if parents == [] then [n] else [n] + Trace(g, levels, BestParent(parents, levels))
  }

  lemma TraceStep(g: ExecutionGraph, levels: Levels, n: NodeId)
    requires WellFormed(g) && LevelMap(g, levels) && n in levels
    ensures var parents := Sources(g.edges, n);
      && (forall p :: p in parents ==> p in levels)
      && (parents == [] ==> Trace(g, levels, n) == [n])
      && (parents != [] ==>
            var best := BestParent(parents, levels);
            levels[best] < levels[n] && Trace(g, levels, n) == [n] + Trace(g, levels, best))
  {
    ParentLevels(g, levels, n);
  }

  /** The backtracking loop runs while its current node id is a non-empty string. */
  ghost function UntilBlank(s: seq<NodeId>): seq<NodeId> {
    if s == [] || s[0] == "" then [] else [s[0]] + UntilBlank(s[1..])
  }

  lemma {:induction false} UntilBlankIsWhole(s: seq<NodeId>)
    ensures |UntilBlank(s)| <= |s|
    ensures UntilBlank(s) == s <==> "" !in s
    ensures |UntilBlank(s)| == |s| <==> "" !in s
  {
    if s != [] {
      UntilBlankIsWhole(s[1..]);
      assert s == [s[0]] + s[1..];
    }
  }

  /** Backtracking falls by exactly one level a step and ends at a node without parents. */
  lemma {:induction false} TraceDescends(g: ExecutionGraph, levels: Levels, n: NodeId)
    requires WellFormed(g) && LevelMap(g, levels) && n in levels
    ensures var t := Trace(g, levels, n);
      && |t| == levels[n] + 1 && t[0] == n
      && (forall i :: 0 <= i < |t| ==> t[i] in levels && levels[t[i]] == levels[n] - i)
      && (forall i, j :: 0 <= i && j == i + 1 && j < |t| ==> HasEdge(g, t[j], t[i]))
      && Parentless(g, t[|t| - 1])
    decreases levels[n]
  {
    ParentLevels(g, levels, n);
    var parents := Sources(g.edges, n);
    if parents != [] {
      TraceDescends(g, levels, BestParent(parents, levels));
    } else {
      forall m | m in g.nodes ensures !HasEdge(g, m, n) {
        SourcesAreEdges(g.edges, m, n);
      }
    }
  }

  /** The `i`-th parent comes from an edge before which the edges into the node name only earlier parents. */
  lemma {:induction false} SourcesKeepOrder(edges: seq<GraphEdge>, n: NodeId, i: nat) returns (e: nat)
    requires i < |Sources(edges, n)|
    ensures e < |edges| && edges[e] == GraphEdge(Sources(edges, n)[i], n)
    ensures forall d :: 0 <= d < e && edges[d].target == n ==> edges[d].source in Sources(edges, n)[..i]
  {
    var front, last := edges[..|edges| - 1], edges[|edges| - 1];
    if i < |Sources(front, n)| {
      e := SourcesKeepOrder(front, n, i);
      assert Sources(edges, n)[..i] == Sources(front, n)[..i];
    } else {
      e := |edges| - 1;
      assert Sources(edges, n)[..i] == Sources(front, n);
      forall d | 0 <= d < e && edges[d].target == n ensures edges[d].source in Sources(front, n) {
        assert front[d] == edges[d] && GraphEdge(edges[d].source, n) in front;
        SourcesAreEdges(front, edges[d].source, n);
      }
    }
  }

  /** The `e`-th edge leads from `p` to `n`, and no edge into `n` before it starts as high as `p`. */
  ghost predicate FirstHighest(g: ExecutionGraph, levels: Levels, p: NodeId, n: NodeId, e: int) {
    && 0 <= e < |g.edges| && g.edges[e] == GraphEdge(p, n) && p in levels
    && forall d :: 0 <= d < e && g.edges[d].target == n ==>
         g.edges[d].source in levels && levels[g.edges[d].source] < levels[p]
  }

  lemma BestParentIsFirstHighest(g: ExecutionGraph, levels: Levels, n: NodeId) returns (e: int)
    requires WellFormed(g) && LevelMap(g, levels) && n in levels && Sources(g.edges, n) != []
    ensures (forall p :: p in Sources(g.edges, n) ==> p in levels)
      && FirstHighest(g, levels, BestParent(Sources(g.edges, n), levels), n, e)
  {
    ParentLevels(g, levels, n);
    var parents := Sources(g.edges, n);
    var best := BestParent(parents, levels);
    var i :| 0 <= i < |parents| && parents[i] == best && LowerBefore(parents, levels, i);
    e := SourcesKeepOrder(g.edges, n, i);
    hide LevelMap, WellFormed, Sources;
  }

  /** Each step of the backtracking follows the first, in the order of the edges, of those from a highest parent. */
  lemma {:induction false} TraceFollowsFirstHighest(g: ExecutionGraph, levels: Levels, n: NodeId, k: nat)
    returns (e: int)
    requires WellFormed(g) && LevelMap(g, levels) && n in levels && k + 1 < |Trace(g, levels, n)|
    ensures FirstHighest(g, levels, Trace(g, levels, n)[k + 1], Trace(g, levels, n)[k], e)
    decreases k
  {
    hide LevelMap, WellFormed, FirstHighest, Sources, BestParent, Trace;
    TraceStep(g, levels, n);
    var best := BestParent(Sources(g.edges, n), levels);
    TraceDescends(g, levels, best);
    if k == 0 {
      e := BestParentIsFirstHighest(g, levels, n);
    } else {
      e := TraceFollowsFirstHighest(g, levels, best, k - 1);
    }
  }

  /** A longest walk of the graph, from a parentless node. */
  ghost predicate IsCriticalPath(g: ExecutionGraph, path: seq<NodeId>) {
    && IsWalk(g, path)
    && Parentless(g, path[0])
    && (forall q :: IsWalk(g, q) ==> |q| <= |path|)
  }

  lemma TraceIsCritical(g: ExecutionGraph, levels: Levels, n: NodeId)
    requires WellFormed(g) && LevelMap(g, levels) && n in levels && IsMaxLevel(levels, levels[n])
    ensures IsCriticalPath(g, Reverse(Trace(g, levels, n)))
    ensures |Trace(g, levels, n)| == levels[n] + 1
  {
    hide LevelMap, Trace, WellFormed, Reverse;
    TraceDescends(g, levels, n);
    LevelMapKeys(g, levels);
    var t := Trace(g, levels, n);
    var path := Reverse(t);
    forall i, j | 0 <= i && j == i + 1 && j < |path| ensures HasEdge(g, path[i], path[j]) {
      assert path[i] == t[|t| - 1 - i] && path[j] == t[|t| - 1 - j];
    }
    forall q | IsWalk(g, q) ensures |q| <= |path| {
      assert EndsAt(g, q, q[|q| - 1]);
      WalkIsBounded(g, levels, q, q[|q| - 1]);
    }
  }

  /** Where the backtracking starts: the first node, in graph order, of the highest level. */
  ghost predicate IsFarthest(order: seq<NodeId>, levels: Levels, end: NodeId) {
    && end in levels && IsMaxLevel(levels, levels[end])
    && exists i :: 0 <= i < |order| && order[i] == end && NoneBefore(order, levels, levels[end], i)
  }

  ghost predicate NoneBefore(order: seq<NodeId>, levels: Levels, top: nat, i: nat) {
    forall j :: 0 <= j < i && j < |order| ==> !AtLevel(levels, top, order[j])
  }

  method Farthest(order: seq<NodeId>, levels: Levels, top: nat) returns (end: NodeId)
    requires IsMaxLevel(levels, top) && exists n :: n in order && AtLevel(levels, top, n)
    ensures IsFarthest(order, levels, end) && levels[end] == top
  {
    var ends := NodesAtLevel(order, levels, top);
    assert ends != [] by {
      var n :| n in order && AtLevel(levels, top, n);
      assert n in ends;
    }
    end := ends[0];
    assert end in ends;
    ghost var i := SelectFirst(order, n => AtLevel(levels, top, n));
    assert NoneBefore(order, levels, top, i);
  }

  lemma FarthestIsUnique(order: seq<NodeId>, levels: Levels, a: NodeId, b: NodeId)
    requires IsFarthest(order, levels, a) && IsFarthest(order, levels, b)
    ensures a == b
  {
    var i :| 0 <= i < |order| && order[i] == a && NoneBefore(order, levels, levels[a], i);
    var j :| 0 <= j < |order| && order[j] == b && NoneBefore(order, levels, levels[b], j);
    assert levels[a] == levels[b];
  }

  method MaxLevel(g: ExecutionGraph, levels: Levels) returns (top: nat)
    requires WellFormed(g) && levels.Keys == g.nodes.Keys && g.order != []
    ensures IsMaxLevel(levels, top)
    ensures exists n :: n in g.order && AtLevel(levels, top, n)
  {
    assert g.order[0] in g.order;
    top := levels[g.order[0]];
    for i := 1 to |g.order|
      invariant exists n :: n in g.order && AtLevel(levels, top, n)
      invariant forall j :: 0 <= j < i ==> g.order[j] in levels && levels[g.order[j]] <= top
    {
      assert g.order[i] in g.order;
      if levels[g.order[i]] > top {
        top := levels[g.order[i]];
      }
    }
    forall n | n in levels ensures levels[n] <= top {
      assert n in g.order;
    }
  }

  /** `path` is the traced path from the farthest node `end`, reversed, as far as its first blank id. */
  ghost predicate TracedFrom(g: ExecutionGraph, levels: Levels, end: NodeId, path: seq<NodeId>)
    requires WellFormed(g) && LevelMap(g, levels)
  {
    && IsFarthest(g.order, levels, end)
    && path == Reverse(UntilBlank(Trace(g, levels, end)))
  }

  /** Graph and levels leave no choice of the path. */
  lemma TracedPathIsUnique(
    g: ExecutionGraph, levels: Levels, end: NodeId, path: seq<NodeId>, end': NodeId, path': seq<NodeId>)
    requires WellFormed(g) && LevelMap(g, levels)
    requires TracedFrom(g, levels, end, path) && TracedFrom(g, levels, end', path')
    ensures end == end' && path == path'
  {
    FarthestIsUnique(g.order, levels, end, end');
  }

  /** The traced path is a longest walk exactly when the backtracking met no blank node id. */
  lemma CriticalPathIff(g: ExecutionGraph, levels: Levels, end: NodeId, path: seq<NodeId>)
    requires WellFormed(g) && LevelMap(g, levels) && TracedFrom(g, levels, end, path)
    ensures IsCriticalPath(g, path) <==> "" !in Trace(g, levels, end)
    ensures "" !in g.nodes ==> IsCriticalPath(g, path) && |path| == levels[end] + 1
  {
    hide Trace, LevelMap, WellFormed;
    var t := Trace(g, levels, end);
    TraceDescends(g, levels, end);
    TraceIsCritical(g, levels, end);
    UntilBlankIsWhole(t);
    if IsCriticalPath(g, path) {
      assert |Reverse(t)| <= |path|;
    }
    LevelMapKeys(g, levels);
    if "" !in g.nodes {
      assert "" !in t;
    }
  }

  /** The backtracking loop's state: the path so far continues at `current`. */
  ghost predicate Tracing(g: ExecutionGraph, levels: Levels, end: NodeId, path: seq<NodeId>, current: NodeId)
    requires WellFormed(g) && LevelMap(g, levels) && end in levels
  {
    current in levels && UntilBlank(Trace(g, levels, end)) == path + UntilBlank(Trace(g, levels, current))
  }

  lemma UntilBlankCons(n: NodeId, rest: seq<NodeId>)
    ensures UntilBlank([n] + rest) == if n == "" then [] else [n] + UntilBlank(rest)
    ensures UntilBlank([]) == []
  {
    assert ([n] + rest)[1..] == rest;
  }

  lemma TraceOn(g: ExecutionGraph, levels: Levels, end: NodeId, path: seq<NodeId>, current: NodeId)
    requires WellFormed(g) && LevelMap(g, levels) && end in levels && Tracing(g, levels, end, path, current)
    ensures current == "" ==> path == UntilBlank(Trace(g, levels, end))
    ensures current in levels
    ensures var parents := Sources(g.edges, current);
      && (forall p :: p in parents ==> p in levels)
      && (current != "" && parents == [] ==> path + [current] == UntilBlank(Trace(g, levels, end)))
      && (current != "" && parents != [] ==>
            var best := BestParent(parents, levels);
            levels[best] < levels[current] && Tracing(g, levels, end, path + [current], best))
  {
    hide LevelMap, Sources, Trace, WellFormed, BestParent, UntilBlank;
    TraceStep(g, levels, current);
    var parents := Sources(g.edges, current);
    if parents == [] {
      UntilBlankCons(current, []);
      assert [current] + [] == [current] && path + [] == path;
    } else {
      var best := BestParent(parents, levels);
      UntilBlankCons(current, Trace(g, levels, best));
      assert path + ([current] + UntilBlank(Trace(g, levels, best)))
        == (path + [current]) + UntilBlank(Trace(g, levels, best));
    }
  }

  /**
    Backtracks from a deepest node, taking a highest parent at each step. The loop ends early at a
    blank node id.
   */
  method CalculateCriticalPath(g: ExecutionGraph, levels: Levels) returns (path: seq<NodeId>)
    requires WellFormed(g) && LevelMap(g, levels) && g.order != []
    ensures exists end :: TracedFrom(g, levels, end, path)
  {
    hide LevelMap, Sources, Trace, WellFormed, BestParent, Reverse, IsMaxLevel, UntilBlank, NoneBefore;
    LevelMapKeys(g, levels);
    var top := MaxLevel(g, levels);
    var end := Farthest(g.order, levels, top);
    var parents := IndexParents(g);
    var current := end;
    path := [];
    assert Tracing(g, levels, end, path, current);
    hide Tracing;
    while current != ""
      invariant current in levels && Tracing(g, levels, end, path, current)
      decreases levels[current]
    {
      TraceOn(g, levels, end, path, current);
      path := path + [current];
      if parents[current] == [] {
        break;
      }
      current := BestParent(parents[current], levels);
    }
    if current == "" {
      TraceOn(g, levels, end, path, current);
    }
    path := Reverse(path);
    assert TracedFrom(g, levels, end, path);
  }

  // ---------- the plan ----------

  /** What a plan says about its graph, given the graph's levels. */
  ghost predicate PlanOf(g: ExecutionGraph, levels: Levels, plan: ExecutionPlan)
    requires WellFormed(g)
  {
    && LevelMap(g, levels)
    && PhasesByLevel(g, levels, plan.phases)
    && (g.order == [] ==> plan.criticalPath == [])
    && (g.order != [] ==> exists end :: TracedFrom(g, levels, end, plan.criticalPath))
  }

  /** The planner. Its backtracking is only guaranteed to end on the DAGs that the builder lets through. */
  method Plan(definition: WorkflowDefinition) returns (plan: ExecutionPlan)
    requires IsDag(definition.graph)
    ensures exists levels :: PlanOf(definition.graph, levels, plan)
  {
    hide LevelMap, NodesAtLevel, TracedFrom, Trace;
    var g := definition.graph;
    var levels, _ := ResolveLevels(g);
    if g.order == [] {
      plan := ExecutionPlan([], []);
      assert PlanOf(g, levels, plan);
      return;
    }
    var top := MaxLevel(g, levels);
    var phases: seq<ExecutionPhase> := [];
    for l := 0 to top + 1
      invariant |phases| == l
      invariant forall k :: 0 <= k < l ==> phases[k] == ExecutionPhase(NodesAtLevel(g.order, levels, k), k)
    {
      phases := phases + [ExecutionPhase(NodesAtLevel(g.order, levels, l), l)];
    }
    var path := CalculateCriticalPath(g, levels);
    plan := ExecutionPlan(phases, path);
    assert PlanOf(g, levels, plan);
  }

  // ---------- a path cut short ----------

  /** The edge leads from a node with a blank id to a node called a. */
  function BlankChain(node: GraphNode): ExecutionGraph {
    ExecutionGraph(["", "a"], map["" := node, "a" := node], [GraphEdge("", "a")])
  }

  lemma BlankChainLevels(node: GraphNode, levels: Levels)
    requires LevelMap(BlankChain(node), levels)
    ensures levels.Keys == {"", "a"} && levels[""] == 0 && levels["a"] == 1
  {
    var g := BlankChain(node);
    assert HasEdge(g, "", "a") && forall m :: !HasEdge(g, m, "");
    assert levels[""] > 0 ==> HasLevelParent(g, levels, "");
    assert HasLevelParent(g, levels, "a");
  }

  lemma BlankChainSources(node: GraphNode)
    ensures Sources(BlankChain(node).edges, "a") == [""] && Sources(BlankChain(node).edges, "") == []
  {
    assert BlankChain(node).edges[..0] == [];
  }

  lemma BlankChainTrace(node: GraphNode, levels: Levels)
    requires IsDag(BlankChain(node)) && LevelMap(BlankChain(node), levels)
    ensures "a" in levels && Trace(BlankChain(node), levels, "a") == ["a", ""]
  {
    BlankChainLevels(node, levels);
    BlankChainSources(node);
    hide LevelMap, Trace, Sources, Acyclic;
    TraceStep(BlankChain(node), levels, "a");
    TraceStep(BlankChain(node), levels, "");
  }

  lemma BlankChainIsDag(node: GraphNode)
    ensures IsDag(BlankChain(node))
  {
    RankedIsAcyclic(BlankChain(node), map["" := 0, "a" := 1]);
  }

  /** The builder lets this graph through, and every plan of it reports a path that is not a longest one. */
  lemma BlankIdCutsPath(node: GraphNode, levels: Levels, plan: ExecutionPlan)
    requires PlanOf(BlankChain(node), levels, plan)
    ensures IsDag(BlankChain(node))
    ensures plan.criticalPath == ["a"] && !IsCriticalPath(BlankChain(node), plan.criticalPath)
  {
    var g := BlankChain(node);
    BlankChainIsDag(node);
    BlankChainLevels(node, levels);
    BlankChainTrace(node, levels);
    var end :| TracedFrom(g, levels, end, plan.criticalPath);
    assert end == "a";
    UntilBlankCons("a", [""]);
    UntilBlankCons("", []);
    assert ["a"] + [""] == ["a", ""] && [""] + [] == [""] && ["a"] + [] == ["a"];
    CriticalPathIff(g, levels, end, plan.criticalPath);
    hide LevelMap, Trace, IsCriticalPath;
  }
}
