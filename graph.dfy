/**
 * The index-based directed multigraph the DAG executor works on: vertex `i`
 * carries the task id `weights[i]`, edges are (source, target, condition)
 * triples, and parallel edges and self-loops are allowed. Paths, roots,
 * cycles and reachability are defined here, with `build_graph`.
 */
module Graphs {
  import opened Wrappers
  import opened Types
  import opened DagTypes
  import opened Collections

  datatype GEdge = GEdge(src: nat, dst: nat, cond: EdgeCondition)

  datatype Graph = Graph(weights: seq<TaskId>, edges: seq<GEdge>) {
    function Size(): nat {
      |weights|
    }

    /** Every edge joins two existing vertices. */
    predicate Valid() {
      forall k :: 0 <= k < |edges| ==> edges[k].src < |weights| && edges[k].dst < |weights|
    }
  }

  predicate HasEdge(g: Graph, u: nat, v: nat) {
    exists k :: 0 <= k < |g.edges| && g.edges[k].src == u && g.edges[k].dst == v
  }

  /** A vertex no edge enters (in-degree zero). */
  predicate IsRoot(g: Graph, v: nat) {
    v < g.Size() && forall k :: 0 <= k < |g.edges| ==> g.edges[k].dst != v
  }

  /** A non-empty walk along edges; `|p| - 1` is its length in edges. */
  predicate IsPath(g: Graph, p: seq<nat>) {
    |p| >= 1 &&
    (forall i :: 0 <= i < |p| ==> p[i] < g.Size()) &&
    (forall i :: 0 <= i < |p| - 1 ==> HasEdge(g, p[i], p[i + 1]))
  }

  ghost predicate IsRootPath(g: Graph, p: seq<nat>) {
    IsPath(g, p) && IsRoot(g, p[0])
  }

  /** A closed walk of at least one edge (a self-loop is a cycle). */
  ghost predicate HasCycle(g: Graph) {
    exists p :: IsPath(g, p) && |p| >= 2 && p[0] == p[|p| - 1]
  }

  /** `v` lies at the end of a path from some root. */
  ghost predicate Reachable(g: Graph, v: nat) {
    exists p :: IsRootPath(g, p) && p[|p| - 1] == v
  }

  /** Every vertex is ranked and every edge climbs in rank. */
  predicate IsRanking(g: Graph, rank: map<nat, nat>) {
    (forall v: nat :: v < g.Size() ==> v in rank) &&
    forall k :: 0 <= k < |g.edges| ==>
      g.edges[k].src in rank && g.edges[k].dst in rank && rank[g.edges[k].src] < rank[g.edges[k].dst]
  }

  /** Appending one edge to a path gives a path. */
  lemma PathExtend(g: Graph, p: seq<nat>, v: nat)
    requires IsPath(g, p) && v < g.Size() && HasEdge(g, p[|p| - 1], v)
    ensures IsPath(g, p + [v])
  {
    var q := p + [v];
    forall i | 0 <= i < |q| - 1
      ensures HasEdge(g, q[i], q[i + 1])
    {
      if i < |p| - 1 {
        assert q[i] == p[i] && q[i + 1] == p[i + 1];
      }
    }
  }

  /** Along a path the rank grows by at least one per edge. */
  lemma {:induction false} PathRankBound(g: Graph, rank: map<nat, nat>, p: seq<nat>)
    requires IsRanking(g, rank) && IsPath(g, p)
    ensures p[0] in rank && p[|p| - 1] in rank
    ensures rank[p[0]] + |p| - 1 <= rank[p[|p| - 1]]
    decreases |p|
  {
    if |p| > 1 {
      var q := p[..|p| - 1];
      assert IsPath(g, q) by {
        forall i | 0 <= i < |q| - 1
          ensures HasEdge(g, q[i], q[i + 1])
        {
          assert q[i] == p[i] && q[i + 1] == p[i + 1];
        }
      }
      PathRankBound(g, rank, q);
      assert HasEdge(g, p[|p| - 2], p[|p| - 1]);
      var k :| 0 <= k < |g.edges| && g.edges[k].src == p[|p| - 2] && g.edges[k].dst == p[|p| - 1];
    }
  }

  /** A ranked graph has no cycle. */
  lemma RankingNoCycle(g: Graph, rank: map<nat, nat>)
    requires IsRanking(g, rank)
    ensures !HasCycle(g)
  {
    forall p | IsPath(g, p) && |p| >= 2
      ensures p[0] != p[|p| - 1]
    {
      PathRankBound(g, rank, p);
    }
  }

  /** In a ranked graph every path has fewer edges than the end vertex's rank plus one. */
  lemma PathLengthBelowRank(g: Graph, rank: map<nat, nat>, p: seq<nat>)
    requires IsRanking(g, rank) && IsPath(g, p)
    ensures |p| - 1 <= rank[p[|p| - 1]]
  {
    PathRankBound(g, rank, p);
  }

  /**
   * In a ranked graph every vertex is reachable from a root: walking
   * backwards along entering edges lowers the rank, so it ends at a root.
   */
  lemma {:induction false} RootPathTo(g: Graph, rank: map<nat, nat>, v: nat) returns (p: seq<nat>)
    requires g.Valid() && IsRanking(g, rank) && v < g.Size()
    ensures IsRootPath(g, p) && p[|p| - 1] == v
    decreases rank[v]
  {
    if IsRoot(g, v) {
      p := [v];
    } else {
      var k :| 0 <= k < |g.edges| && g.edges[k].dst == v;
      var u := g.edges[k].src;
      assert rank[u] < rank[v];
      var q := RootPathTo(g, rank, u);
      PathExtend(g, q, v);
      p := q + [v];
    }
  }

  /** In a ranked graph no vertex is unreachable. */
  lemma RankedAllReachable(g: Graph, rank: map<nat, nat>)
    requires g.Valid() && IsRanking(g, rank)
    ensures forall v: nat :: v < g.Size() ==> Reachable(g, v)
  {
    forall v: nat | v < g.Size()
      ensures Reachable(g, v)
    {
      var p := RootPathTo(g, rank, v);
    }
  }

  // ---------------------------------------------------------------- build_graph

  /**
   * `keys` lists the node map's ids in its iteration order: each id once,
   * and exactly the ids of the map.
   */
  ghost predicate IsEnumeration(keys: seq<TaskId>, nodes: map<TaskId, DagNode>) {
    Distinct(keys) && (forall id :: id in nodes <==> id in keys)
  }

  /** A missing condition is stored as `OnSuccess`. */
  function ConditionOrDefault(c: Option<EdgeCondition>): EdgeCondition {
    match c
    case Some(cond) => cond
    case None => OnSuccess
  }

  /** The edges `build_graph` adds: those whose two endpoints exist, in order. */
  function KeptEdges(es: seq<DagEdge>, m: map<TaskId, nat>): (ks: seq<GEdge>)
    ensures |ks| <= |es|
    decreases |es|
  {
    if es == [] then []
    else
      var init := KeptEdges(es[..|es| - 1], m);
      var e := es[|es| - 1];
      if e.from in m && e.to in m then init + [GEdge(m[e.from], m[e.to], ConditionOrDefault(e.condition))]
      else init
  }

  /** `ge` is the graph edge `build_graph` makes of `e`. */
  predicate Keeps(m: map<TaskId, nat>, e: DagEdge, ge: GEdge) {
    e.from in m && e.to in m && ge == GEdge(m[e.from], m[e.to], ConditionOrDefault(e.condition))
  }

  /**
   * A graph edge is kept exactly when some input edge has both endpoints in
   * the map; it then joins their vertices and carries its condition or `OnSuccess`.
   */
  lemma {:induction false} KeptEdgesMembership(es: seq<DagEdge>, m: map<TaskId, nat>, ge: GEdge)
    ensures ge in KeptEdges(es, m) <==> exists e :: e in es && Keeps(m, e, ge)
    decreases |es|
  {
    if es != [] {
      var init := es[..|es| - 1];
      var e := es[|es| - 1];
      KeptEdgesMembership(init, m, ge);
      assert es == init + [e];
      if ge in KeptEdges(es, m) && ge !in KeptEdges(init, m) {
        assert Keeps(m, e, ge);
      }
      if exists e' :: e' in es && Keeps(m, e', ge) {
        var e' :| e' in es && Keeps(m, e', ge);
        if e' != e {
          assert e' in init;
        }
      }
    }
  }

  /**
   * The graph `build_graph` returns for `dag` when the node map yields `keys`;
   * its node map is `Positions(keys)`: id `keys[i]` sits at vertex `i`.
   */
  function GraphOf(dag: TaskDag, keys: seq<TaskId>): (g: Graph)
    ensures g.Valid() && g.weights == keys
  {
    var m := Positions(keys);
    var g := Graph(keys, KeptEdges(dag.edges, m));
    KeptEdgesBounded(dag.edges, m, |keys|);
    g
  }

  lemma {:induction false} KeptEdgesBounded(es: seq<DagEdge>, m: map<TaskId, nat>, n: nat)
    requires forall id :: id in m ==> m[id] < n
    ensures forall k :: 0 <= k < |KeptEdges(es, m)| ==> KeptEdges(es, m)[k].src < n && KeptEdges(es, m)[k].dst < n
    decreases |es|
  {
    if es != [] {
      KeptEdgesBounded(es[..|es| - 1], m, n);
    }
  }

  /** The first loop of `build_graph`: vertex `i` for `keys[i]`, recorded in the node map. */
  method AddNodes(keys: seq<TaskId>) returns (weights: seq<TaskId>, nodeMap: map<TaskId, nat>)
    ensures weights == keys && nodeMap == Positions(keys)
  {
    weights := [];
    nodeMap := map[];
    for i := 0 to |keys|
      invariant weights == keys[..i]
      invariant nodeMap == Positions(keys[..i])
    {
      assert keys[..i + 1][..i] == keys[..i];
      weights := weights + [keys[i]];
      nodeMap := nodeMap[keys[i] := i];
    }
    assert keys[..|keys|] == keys;
  }

  /** The second loop of `build_graph`: keep the edges whose endpoints are both in the node map. */
  method AddEdges(es: seq<DagEdge>, nodeMap: map<TaskId, nat>) returns (edges: seq<GEdge>)
    ensures edges == KeptEdges(es, nodeMap)
  {
    edges := [];
    for j := 0 to |es|
      invariant edges == KeptEdges(es[..j], nodeMap)
    {
      assert es[..j + 1][..j] == es[..j];
      var e := es[j];
      if e.from in nodeMap && e.to in nodeMap {
        edges := edges + [GEdge(nodeMap[e.from], nodeMap[e.to], ConditionOrDefault(e.condition))];
      }
    }
    assert es[..|es|] == es;
  }

  /**
   * `build_graph`: one vertex per node in the map's iteration order, then one
   * edge per input edge whose two endpoints are nodes; the rest are dropped.
   */
  method BuildGraph(dag: TaskDag, keys: seq<TaskId>) returns (g: Graph, nodeMap: map<TaskId, nat>)
    requires IsEnumeration(keys, dag.nodes)
    ensures g == GraphOf(dag, keys) && nodeMap == Positions(keys)
    ensures forall id :: id in nodeMap <==> id in dag.nodes
  {
    var weights;
    weights, nodeMap := AddNodes(keys);
    var edges := AddEdges(dag.edges, nodeMap);
    g := Graph(weights, edges);
  }
}
