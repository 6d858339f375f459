/**
 * Cycle detection and topological order, written out as Kahn's algorithm:
 * repeatedly emit a vertex all of whose entering edges leave vertices
 * already emitted. Every vertex is emitted exactly when the graph has no
 * cycle; the emitted order then puts every edge's source before its target.
 */
module Topo {
  import opened Wrappers
  import opened Collections
  import opened Graphs

  /** Every edge entering `v` leaves a vertex of `done`. */
  predicate Ready(g: Graph, done: set<nat>, v: nat) {
    forall k :: 0 <= k < |g.edges| && g.edges[k].dst == v ==> g.edges[k].src in done
  }

  /** Every edge that enters an emitted vertex leaves an earlier emitted vertex. */
  ghost predicate EdgesForward(g: Graph, order: seq<nat>) {
    var pos := Positions(order);
    forall k :: 0 <= k < |g.edges| && g.edges[k].dst in pos ==>
      g.edges[k].src in pos && pos[g.edges[k].src] < pos[g.edges[k].dst]
  }

  /** The first not-yet-emitted vertex that is ready, if any. */
  method FindReady(g: Graph, done: set<nat>) returns (r: Option<nat>)
    ensures r.Some? ==> r.value < g.Size() && r.value !in done && Ready(g, done, r.value)
    ensures r.None? ==> forall v: nat :: v < g.Size() && v !in done ==> !Ready(g, done, v)
  {
    for v := 0 to g.Size()
      invariant forall w: nat :: w < v && w !in done ==> !Ready(g, done, w)
    {
      if v !in done && Ready(g, done, v) {
        return Some(v);
      }
    }
    return None;
  }

  /** The vertex set emitted so far is no larger than the graph. */
  lemma EmittedBound(g: Graph, order: seq<nat>, v: nat)
    requires Distinct(order) && forall i :: 0 <= i < |order| ==> order[i] < g.Size()
    requires v < g.Size() && v !in order
    ensures |order| < g.Size()
  {
    DistinctCard(order);
    BoundedSetCard((set x | x in order) + {v}, g.Size());
  }

  /**
   * Emits vertices in topological order. `acyclic` is true exactly when the
   * graph has no cycle; then every vertex is emitted once and the positions
   * in `order` rank the graph.
   */
  method TopoOrder(g: Graph) returns (order: seq<nat>, acyclic: bool)
    requires g.Valid()
    ensures Distinct(order) && forall i :: 0 <= i < |order| ==> order[i] < g.Size()
    ensures EdgesForward(g, order)
    ensures acyclic <==> !HasCycle(g)
    ensures acyclic ==> |order| == g.Size() && IsRanking(g, Positions(order))
  {
    order := [];
    var done: set<nat> := {};
    while true
      invariant Distinct(order) && forall i :: 0 <= i < |order| ==> order[i] < g.Size()
      invariant |order| <= g.Size()
      invariant done == set x | x in order
      invariant EdgesForward(g, order)
      decreases g.Size() - |order|
    {
      var r := FindReady(g, done);
      match r
      case None =>
        break;
      case Some(v) =>
        EmittedBound(g, order, v);
        AppendForward(g, order, v);
        order := order + [v];
        done := done + {v};
    }
    if |order| == g.Size() {
      EmittedAll(g, order);
      RankingNoCycle(g, Positions(order));
      acyclic := true;
    } else {
      var v := Missing(g, order);
      StuckHasCycle(g, done, v);
      acyclic := false;
    }
  }

  /** Emitting a ready vertex keeps every entering edge forward. */
  lemma AppendForward(g: Graph, order: seq<nat>, v: nat)
    requires Distinct(order) && v !in order && EdgesForward(g, order)
    requires Ready(g, (set x | x in order), v)
    ensures Distinct(order + [v]) && EdgesForward(g, order + [v])
  {
    var o := order + [v];
    var pos := Positions(order);
    assert Positions(o) == pos[v := |order|] by {
      assert o[..|o| - 1] == order;
    }
    forall k | 0 <= k < |g.edges| && g.edges[k].dst in Positions(o)
      ensures g.edges[k].src in Positions(o) && Positions(o)[g.edges[k].src] < Positions(o)[g.edges[k].dst]
    {
      var s := g.edges[k].src;
      if g.edges[k].dst == v {
        assert s in order;
        var i :| 0 <= i < |order| && order[i] == s;
      }
    }
  }

  /** A duplicate-free list of `n` vertices below `n` holds them all. */
  lemma EmittedAll(g: Graph, order: seq<nat>)
    requires g.Valid() && Distinct(order) && forall i :: 0 <= i < |order| ==> order[i] < g.Size()
    requires EdgesForward(g, order) && |order| == g.Size()
    ensures forall v: nat :: v < g.Size() ==> v in Positions(order)
    ensures IsRanking(g, Positions(order))
  {
    forall v: nat | v < g.Size()
      ensures v in order
    {
      if v !in order {
        EmittedBound(g, order, v);
      }
    }
    assert forall v: nat :: v < g.Size() ==> v in Positions(order);
  }

  /** Some vertex below `n` is missing from a list shorter than `n`. */
  lemma Missing(g: Graph, order: seq<nat>) returns (v: nat)
    requires Distinct(order) && forall i :: 0 <= i < |order| ==> order[i] < g.Size()
    requires |order| < g.Size()
    ensures v < g.Size() && v !in order
  {
    var rest := Range(g.Size()) - set x | x in order;
    DistinctCard(order);
    assert |rest| > 0 by {
      SubsetCard((set x | x in order), Range(g.Size()));
      assert (set x | x in order) + rest == Range(g.Size());
    }
    v :| v in rest;
  }

  /**
   * Walking backwards from a vertex outside `done` along entering edges that
   * leave vertices outside `done`, when every such vertex has one.
   */
  lemma {:induction false} WalkBack(g: Graph, done: set<nat>, v: nat, len: nat) returns (p: seq<nat>)
    requires g.Valid() && v < g.Size() && v !in done
    requires forall w: nat {:trigger Ready(g, done, w)} :: w < g.Size() && w !in done ==> !Ready(g, done, w)
    ensures IsPath(g, p) && |p| == len + 1 && p[len] == v
    decreases len
  {
    if len == 0 {
      p := [v];
    } else {
      assert !Ready(g, done, v);
      var k :| 0 <= k < |g.edges| && g.edges[k].dst == v && g.edges[k].src !in done;
      var q := WalkBack(g, done, g.edges[k].src, len - 1);
      assert q[|q| - 1] == g.edges[k].src;
      assert HasEdge(g, q[|q| - 1], v);
      PathExtend(g, q, v);
      p := q + [v];
    }
  }

  /** A stretch of a path is a path. */
  lemma SubPath(g: Graph, p: seq<nat>, i: nat, j: nat)
    requires IsPath(g, p) && i <= j < |p|
    ensures IsPath(g, p[i..j + 1])
  {
    var q := p[i..j + 1];
    forall t | 0 <= t < |q| - 1
      ensures HasEdge(g, q[t], q[t + 1])
    {
      assert q[t] == p[i + t] && q[t + 1] == p[i + t + 1];
    }
  }

  /** When Kahn's algorithm stops with vertices left over, the graph has a cycle. */
  lemma StuckHasCycle(g: Graph, done: set<nat>, v: nat)
    requires g.Valid() && v < g.Size() && v !in done
    requires forall w: nat {:trigger Ready(g, done, w)} :: w < g.Size() && w !in done ==> !Ready(g, done, w)
    ensures HasCycle(g)
  {
    var p := WalkBack(g, done, v, g.Size());
    var i, j := Pigeonhole(p, g.Size());
    SubPath(g, p, i, j);
    var c := p[i..j + 1];
    assert IsPath(g, c) && |c| >= 2 && c[0] == c[|c| - 1];
  }
}
