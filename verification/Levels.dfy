/**
  Level resolution, the first half of the workflow planner: a variant of Kahn's loop whose result is
  proved to be the length of the longest walk ending at each node.
 */
module LevelResolution {
  import opened Sequences
  import opened Graphs
  import opened Kahn

  type Levels = map<NodeId, nat>

  ghost predicate HasLevelParent(g: ExecutionGraph, levels: Levels, n: NodeId)
    requires n in levels
  {
    exists m :: m in levels && HasEdge(g, m, n) && levels[m] + 1 == levels[n]
  }

  /** The local description of levels: they grow along edges and every positive one is attained. */
  ghost predicate LevelMap(g: ExecutionGraph, levels: Levels) {
    && levels.Keys == g.nodes.Keys
    && (forall a, b :: HasEdge(g, a, b) && a in levels && b in levels ==> levels[a] < levels[b])
    && (forall n {:trigger HasLevelParent(g, levels, n)} ::
          n in levels && levels[n] > 0 ==> HasLevelParent(g, levels, n))
  }

  lemma LevelMapKeys(g: ExecutionGraph, levels: Levels)
    requires LevelMap(g, levels)
    ensures levels.Keys == g.nodes.Keys
  {
  }

  ghost predicate EndsAt(g: ExecutionGraph, p: seq<NodeId>, n: NodeId) {
    IsWalk(g, p) && p[|p| - 1] == n
  }

  ghost predicate Parentless(g: ExecutionGraph, n: NodeId) {
    forall m :: m in g.nodes ==> !HasEdge(g, m, n)
  }

  lemma WalkIsBounded(g: ExecutionGraph, levels: Levels, p: seq<NodeId>, n: NodeId)
    requires LevelMap(g, levels) && EndsAt(g, p, n)
    ensures |p| <= levels[n] + 1
  {
    RankGrowsAlongWalk(g, levels, p);
  }

  lemma {:induction false} LongestWalk(g: ExecutionGraph, levels: Levels, n: NodeId)
    returns (p: seq<NodeId>)
    requires LevelMap(g, levels) && n in g.nodes
    ensures EndsAt(g, p, n) && |p| == levels[n] + 1 && Parentless(g, p[0])
    decreases levels[n]
  {
    if levels[n] == 0 {
      p := [n];
    } else {
      assert HasLevelParent(g, levels, n);
      var m :| m in levels && HasEdge(g, m, n) && levels[m] + 1 == levels[n];
      var q := LongestWalk(g, levels, m);
      p := q + [n];
    }
  }

  /** A level is the length in edges of the longest walk ending at the node, and nothing else is. */
  lemma LevelIsLongestWalk(g: ExecutionGraph, levels: Levels, n: NodeId, k: nat)
    requires LevelMap(g, levels) && n in g.nodes
    ensures levels[n] == k <==>
      (exists p :: EndsAt(g, p, n) && |p| == k + 1) && (forall p :: EndsAt(g, p, n) ==> |p| <= k + 1)
  {
    var longest := LongestWalk(g, levels, n);
    forall p | EndsAt(g, p, n) ensures |p| <= levels[n] + 1 {
      WalkIsBounded(g, levels, p, n);
    }
  }

  ghost predicate Supported(g: ExecutionGraph, seen: seq<NodeId>, levels: Levels, n: NodeId)
    requires n in levels
  {
    exists m :: m in seen && m in levels && HasEdge(g, m, n) && levels[m] + 1 == levels[n]
  }

  /** Levels once every edge out of `done` was relaxed; each level is owed to a discovered node. */
  ghost predicate LevelsSettled(g: ExecutionGraph, seen: seq<NodeId>, done: set<NodeId>, levels: Levels) {
    && levels.Keys == g.nodes.Keys
    && (forall m, v :: m in done && m in levels && v in levels && HasEdge(g, m, v) ==> levels[m] < levels[v])
    && (forall n {:trigger Supported(g, seen, levels, n)} ::
          n in levels && levels[n] > 0 ==> Supported(g, seen, levels, n))
  }

  /** The first `k` targets of `u` lie above `u`. */
  ghost predicate RelaxedTargets(g: ExecutionGraph, u: NodeId, k: nat, levels: Levels)
    requires u in levels
  {
    forall v :: v in Targets(g.edges, u)[..Min(k, |Targets(g.edges, u)|)] ==> v in levels && levels[u] < levels[v]
  }

  lemma RelaxLevel(
    g: ExecutionGraph, seen: seq<NodeId>, done: set<NodeId>, u: NodeId, k: nat, levels: Levels,
    seen': seq<NodeId>, levels': Levels)
    requires LevelsSettled(g, seen, done, levels) && u in levels && RelaxedTargets(g, u, k, levels)
    requires u in seen && done <= Elems(seen) && k < |Targets(g.edges, u)|
    requires var v := Targets(g.edges, u)[k];
      && v in levels && v !in seen && HasEdge(g, u, v)
      && levels' == levels[v := Max(levels[v], levels[u] + 1)]
      && (seen' == seen || seen' == seen + [v])
    ensures LevelsSettled(g, seen', done, levels') && RelaxedTargets(g, u, k + 1, levels')
    ensures levels'.Keys == g.nodes.Keys
  {
    hide Targets;
    var adj := Targets(g.edges, u);
    var v := adj[k];
    assert adj[..k + 1] == adj[..k] + [v];
    assert levels'.Keys == levels.Keys;
    forall n | n in levels' && levels'[n] > 0 ensures Supported(g, seen', levels', n) {
      if levels'[n] == levels[n] {
        assert Supported(g, seen, levels, n);
      }
    }
  }

  lemma FinishLevels(g: ExecutionGraph, seen: seq<NodeId>, done: set<NodeId>, u: NodeId, levels: Levels)
    requires LevelsSettled(g, seen, done, levels) && u in levels
    requires RelaxedTargets(g, u, |Targets(g.edges, u)|, levels)
    ensures LevelsSettled(g, seen, done + {u}, levels)
  {
    var adj := Targets(g.edges, u);
    assert adj[..|adj|] == adj;
    forall v | v in levels && HasEdge(g, u, v) ensures levels[u] < levels[v] {
      TargetsAreEdges(g.edges, u, v);
    }
  }

  /** `whenQueued` holds the current levels of exactly the discovered nodes. */
  ghost predicate LevelsNoted(seen: seq<NodeId>, levels: Levels, whenQueued: Levels) {
    && (forall n :: n in whenQueued <==> n in seen)
    && (forall n :: n in whenQueued ==> n in levels && whenQueued[n] == levels[n])
  }

  /** The outer loop's state before it takes the node at `i` off the queue. */
  ghost predicate Between(
    g: ExecutionGraph, seen: seq<NodeId>, i: nat, inDegree: Degrees, levels: Levels, whenQueued: Levels)
  {
    && Settled(g, seen, i, inDegree)
    && LevelsSettled(g, seen, Done(seen, i), levels)
    && LevelsNoted(seen, levels, whenQueued)
  }

  /** The inner loop's state after `k` targets of the node at `i`. */
  ghost predicate Within(
    g: ExecutionGraph, seen: seq<NodeId>, i: nat, k: nat, inDegree: Degrees, levels: Levels, whenQueued: Levels)
  {
    && Relaxing(g, seen, i, k, inDegree)
    && LevelsSettled(g, seen, Done(seen, i), levels)
    && seen[i] in levels && RelaxedTargets(g, seen[i], k, levels)
    && LevelsNoted(seen, levels, whenQueued)
  }

  lemma Begin(g: ExecutionGraph, queue: seq<NodeId>, inDegree: Degrees, levels: Levels, whenQueued: Levels)
    requires WellFormed(g) && inDegree.Keys == g.nodes.Keys
    requires forall n :: n in g.nodes ==> inDegree[n] == Waiting(g.edges, {}, n)
    requires queue == Select(g.order, n => HasZeroDegree(inDegree, n))
    requires levels == map n | n in g.nodes :: 0
    requires whenQueued == map n | n in queue :: 0
    ensures Between(g, queue, 0, inDegree, levels, whenQueued)
  {
    Start(g, queue, inDegree);
  }

  lemma Enter(g: ExecutionGraph, seen: seq<NodeId>, i: nat, inDegree: Degrees, levels: Levels, whenQueued: Levels)
    requires WellFormed(g) && Between(g, seen, i, inDegree, levels, whenQueued) && i < |seen|
    ensures Within(g, seen, i, 0, inDegree, levels, whenQueued)
    ensures |seen| <= |g.nodes| && seen[i] in g.nodes
  {
    Pop(g, seen, i, inDegree);
  }

  lemma Advance(
    g: ExecutionGraph, seen: seq<NodeId>, i: nat, k: nat, inDegree: Degrees, levels: Levels, whenQueued: Levels)
    returns (v: NodeId)
    requires WellFormed(g) && i < |seen| && k < |Targets(g.edges, seen[i])|
    requires Within(g, seen, i, k, inDegree, levels, whenQueued)
    ensures v == Targets(g.edges, seen[i])[k]
    ensures v in levels && seen[i] in levels && v in inDegree && inDegree[v] > 0
    ensures
      var levels' := levels[v := Max(levels[v], levels[seen[i]] + 1)];
      var inDegree' := inDegree[v := inDegree[v] - 1];
      && (inDegree[v] == 1 ==>
            Within(g, seen + [v], i, k + 1, inDegree', levels', whenQueued[v := levels'[v]]))
      && (inDegree[v] != 1 ==> Within(g, seen, i, k + 1, inDegree', levels', whenQueued))
  {
    hide Settled, Waiting, Targets, Relaxing, WellFormed, LevelsSettled, RelaxedTargets;
    v := Targets(g.edges, seen[i])[k];
    TargetIsFresh(g, seen, i, k, inDegree);
    assert v in levels by {
      assert levels.Keys == g.nodes.Keys by {
        LevelKeys(g, seen, Done(seen, i), levels);
      }
    }
    var levels' := levels[v := Max(levels[v], levels[seen[i]] + 1)];
    var inDegree' := inDegree[v := inDegree[v] - 1];
    var seen' := if inDegree[v] == 1 then seen + [v] else seen;
    DoneGrows(seen, i);
    Discover(seen, v, i);
    assert v !in Done(seen, i) && Done(seen', i) == Done(seen, i);
    Relax(g, seen, i, k, inDegree, seen', inDegree');
    RelaxLevel(g, seen, Done(seen, i), seen[i], k, levels, seen', levels');
  }

  lemma LevelKeys(g: ExecutionGraph, seen: seq<NodeId>, done: set<NodeId>, levels: Levels)
    requires LevelsSettled(g, seen, done, levels)
    ensures levels.Keys == g.nodes.Keys
  {
  }

  lemma Leave(g: ExecutionGraph, seen: seq<NodeId>, i: nat, inDegree: Degrees, levels: Levels, whenQueued: Levels)
    requires WellFormed(g) && i < |seen|
    requires Within(g, seen, i, |Targets(g.edges, seen[i])|, inDegree, levels, whenQueued)
    ensures Between(g, seen, i + 1, inDegree, levels, whenQueued)
  {
    hide Settled, Waiting, Targets, Relaxing, WellFormed, LevelsSettled, RelaxedTargets;
    Finish(g, seen, i, inDegree);
    DoneGrows(seen, i);
    FinishLevels(g, seen, Done(seen, i), seen[i], levels);
  }

  lemma Stop(g: ExecutionGraph, seen: seq<NodeId>, inDegree: Degrees, levels: Levels, whenQueued: Levels)
    requires WellFormed(g) && Between(g, seen, |seen|, inDegree, levels, whenQueued)
    ensures levels.Keys == g.nodes.Keys
    ensures Acyclic(g) ==> LevelMap(g, levels) && whenQueued == levels
  {
    hide Waiting, WellFormed, Topological;
    if |seen| != |g.nodes| {
      ExhaustedEarly(g, seen, inDegree);
    } else {
      assert Done(seen, |seen|) == g.nodes.Keys by {
        SeenBound(g, seen);
        assert seen[..|seen|] == seen;
      }
      AllLevelsSettled(g, seen, levels);
      assert whenQueued == levels;
    }
  }

  lemma AllLevelsSettled(g: ExecutionGraph, seen: seq<NodeId>, levels: Levels)
    requires LevelsSettled(g, seen, g.nodes.Keys, levels)
    ensures LevelMap(g, levels)
  {
    forall n | n in levels && levels[n] > 0 ensures HasLevelParent(g, levels, n) {
      assert Supported(g, seen, levels, n);
    }
  }

  /**
    Longest-path levels, the planner's variant of Kahn's loop. `whenQueued` records each node's level
    at the moment it enters the queue.
   */
  method ResolveLevels(g: ExecutionGraph) returns (levels: Levels, ghost whenQueued: Levels)
    requires WellFormed(g)
    ensures levels.Keys == g.nodes.Keys
    ensures Acyclic(g) ==> LevelMap(g, levels) && whenQueued == levels
  {
    hide *;
    var adj, inDegree := IndexEdges(g);
    levels := map n | n in g.nodes :: 0;
    var queue := Select(g.order, n => HasZeroDegree(inDegree, n));
    ghost var seen, i := queue, 0;
    whenQueued := map n | n in queue :: 0;
    Begin(g, queue, inDegree, levels, whenQueued);
    while queue != []
      invariant i <= |seen| && queue == seen[i..]
      invariant Between(g, seen, i, inDegree, levels, whenQueued)
      decreases |g.nodes| - i
    {
      Enter(g, seen, i, inDegree, levels, whenQueued);
      var u := queue[0];
      queue := queue[1..];
      for k := 0 to |adj[u]|
        invariant i < |seen| && seen[i] == u && queue == seen[i + 1..]
        invariant Within(g, seen, i, k, inDegree, levels, whenQueued)
      {
        ghost var next := Advance(g, seen, i, k, inDegree, levels, whenQueued);
        var v := adj[u][k];
        levels := levels[v := Max(levels[v], levels[u] + 1)];
        inDegree := inDegree[v := inDegree[v] - 1];
        if inDegree[v] == 0 {
          Discover(seen, v, i);
          queue := queue + [v];
          seen, whenQueued := seen + [v], whenQueued[v := levels[v]];
        }
      }
      Leave(g, seen, i, inDegree, levels, whenQueued);
      i := i + 1;
    }
    Stop(g, seen, inDegree, levels, whenQueued);
  }

  function Min(a: nat, b: nat): nat {
    if a < b then a else b
  }

  function Max(a: nat, b: nat): nat {
    if a < b then b else a
  }
}
