/**
 * `calculate_depth`: a breadth-first relaxation from every root. A queue of
 * (vertex, depth) pairs is drained from the front; each popped depth raises
 * the maximum, and every edge leaving the popped vertex lifts its target to
 * depth + 1 when that is more than the target has, queueing the target
 * again. On a graph without cycles this ends with the number of edges on
 * the longest path that starts at a root.
 */
module Depth {
  import opened Graphs
  import opened Reach

  /** Some path from a root ends at `v` after exactly `d` edges. */
  ghost predicate Witnessed(g: Graph, v: nat, d: nat) {
    exists p :: IsRootPath(g, p) && p[|p| - 1] == v && |p| == d + 1
  }

  /** Every edge leaving `v` enters a vertex of depth at least one more. */
  predicate Relaxed(g: Graph, depths: map<nat, nat>, v: nat)
    requires v in depths
  {
    forall k :: 0 <= k < |g.edges| && g.edges[k].src == v ==>
      g.edges[k].dst in depths && depths[g.edges[k].dst] >= depths[v] + 1
  }

  /** The longest root path: no root path is longer, and some has this length unless it is 0. */
  ghost predicate IsLongestRootPath(g: Graph, d: nat) {
    (forall p :: IsRootPath(g, p) ==> |p| - 1 <= d) &&
    (d == 0 || exists p :: IsRootPath(g, p) && |p| - 1 == d)
  }

  /** The longest root path length is determined by the graph. */
  lemma LongestUnique(g: Graph, d1: nat, d2: nat)
    requires IsLongestRootPath(g, d1) && IsLongestRootPath(g, d2)
    ensures d1 == d2
  {
    if d1 != 0 {
      var p1 :| IsRootPath(g, p1) && |p1| - 1 == d1;
    }
    if d2 != 0 {
      var p2 :| IsRootPath(g, p2) && |p2| - 1 == d2;
    }
  }

  lemma WitnessExtend(g: Graph, u: nat, d: nat, v: nat)
    requires Witnessed(g, u, d) && v < g.Size() && HasEdge(g, u, v)
    ensures Witnessed(g, v, d + 1)
  {
    var p :| IsRootPath(g, p) && p[|p| - 1] == u && |p| == d + 1;
    PathExtend(g, p, v);
    assert IsRootPath(g, p + [v]) && (p + [v])[|p|] == v;
  }

  lemma WitnessBound(g: Graph, rank: map<nat, nat>, v: nat, d: nat)
    requires IsRanking(g, rank) && Witnessed(g, v, d)
    ensures v in rank && d <= rank[v]
  {
    var p :| IsRootPath(g, p) && p[|p| - 1] == v && |p| == d + 1;
    PathRankBound(g, rank, p);
  }

  // ------------------------------------------------------------- termination

  /** What is left for `v` to climb: its rank minus its depth, one more when unreached. */
  function Term(rank: map<nat, nat>, depths: map<nat, nat>, v: nat): nat
    requires v in rank
  {
    if v !in depths then rank[v] + 1
    else if depths[v] <= rank[v] then rank[v] - depths[v]
    else 0
  }

  /** The sum of `Term` over the vertices below `m`: every relaxation lowers it. */
  function Pot(rank: map<nat, nat>, depths: map<nat, nat>, m: nat): nat
    requires forall v: nat :: v < m ==> v in rank
  {
    if m == 0 then 0 else Pot(rank, depths, m - 1) + Term(rank, depths, m - 1)
  }

  /** Lifting one vertex's depth, up to its rank, lowers the potential. */
  lemma {:induction false} PotLift(rank: map<nat, nat>, depths: map<nat, nat>, t: nat, x: nat, m: nat)
    requires forall v: nat :: v < m ==> v in rank
    requires t < m && x <= rank[t] && (t !in depths || depths[t] < x)
    ensures Pot(rank, depths[t := x], m) < Pot(rank, depths, m)
    decreases m
  {
    if t < m - 1 {
      PotLift(rank, depths, t, x, m - 1);
      assert Term(rank, depths[t := x], m - 1) == Term(rank, depths, m - 1);
    } else {
      PotFrame(rank, depths, t, x, m - 1);
    }
  }

  /** Lifting a vertex at or above `m` leaves the potential below `m` alone. */
  lemma {:induction false} PotFrame(rank: map<nat, nat>, depths: map<nat, nat>, t: nat, x: nat, m: nat)
    requires forall v: nat :: v < m ==> v in rank
    requires m <= t
    ensures Pot(rank, depths[t := x], m) == Pot(rank, depths, m)
    decreases m
  {
    if m > 0 {
      PotFrame(rank, depths, t, x, m - 1);
      assert Term(rank, depths[t := x], m - 1) == Term(rank, depths, m - 1);
    }
  }

  // ------------------------------------------------------------ the relaxation

  /** Every vertex with a depth exists and some root path of that length ends at it. */
  ghost predicate AllWitnessed(g: Graph, depths: map<nat, nat>) {
    forall v :: v in depths ==> v < g.Size() && Witnessed(g, v, depths[v])
  }

  /** Every queued pair names a depth some root path reaches its vertex with. */
  ghost predicate QueueWitnessed(g: Graph, queue: seq<(nat, nat)>) {
    forall i :: 0 <= i < |queue| ==> Witnessed(g, queue[i].0, queue[i].1)
  }

  /** Depths only grow: no vertex is dropped or lowered. */
  predicate Grown(depths: map<nat, nat>, depths': map<nat, nat>) {
    forall v :: v in depths ==> v in depths' && depths'[v] >= depths[v]
  }

  /** Every vertex lifted since `depths` is queued in `tail` with its new depth. */
  predicate LiftedQueued(depths: map<nat, nat>, depths': map<nat, nat>, tail: seq<(nat, nat)>) {
    forall v :: v in depths' && (v !in depths || depths'[v] != depths[v]) ==> (v, depths'[v]) in tail
  }

  /** The edges before `j` that leave `node` enter vertices of depth `d + 1` or more. */
  predicate OffersTaken(g: Graph, node: nat, d: nat, depths: map<nat, nat>, j: nat) {
    forall k :: 0 <= k < j && k < |g.edges| && g.edges[k].src == node ==>
      g.edges[k].dst in depths && depths[g.edges[k].dst] >= d + 1
  }

  /** What the relaxation of `node` at depth `d` keeps true after the first `j` edges. */
  ghost predicate RelaxState(g: Graph, rank: map<nat, nat>, node: nat, d: nat,
                             queue: seq<(nat, nat)>, depths: map<nat, nat>,
                             queue': seq<(nat, nat)>, depths': map<nat, nat>, j: nat)
    requires IsRanking(g, rank)
  {
    Grown(depths, depths') && AllWitnessed(g, depths') &&
    |queue'| >= |queue| && queue'[..|queue|] == queue && QueueWitnessed(g, queue') &&
    LiftedQueued(depths, depths', queue'[|queue|..]) &&
    OffersTaken(g, node, d, depths', j) &&
    (node in depths ==> node in depths' && depths'[node] == depths[node]) &&
    Pot(rank, depths', g.Size()) <= Pot(rank, depths, g.Size()) &&
    (|queue'| == |queue| || Pot(rank, depths', g.Size()) < Pot(rank, depths, g.Size()))
  }

  /** Looking at edge `j` without lifting its target keeps the relaxation state. */
  lemma KeepStep(g: Graph, rank: map<nat, nat>, node: nat, d: nat,
                 queue: seq<(nat, nat)>, depths: map<nat, nat>,
                 queue': seq<(nat, nat)>, depths': map<nat, nat>, j: nat)
    requires IsRanking(g, rank) && j < |g.edges|
    requires RelaxState(g, rank, node, d, queue, depths, queue', depths', j)
    requires g.edges[j].src == node ==> g.edges[j].dst in depths' && depths'[g.edges[j].dst] >= d + 1
    ensures RelaxState(g, rank, node, d, queue, depths, queue', depths', j + 1)
  {
  }

  /** Appending a lifted pair keeps the queue's prefix, its witnesses and every lifted vertex queued. */
  lemma LiftQueue(g: Graph, depths: map<nat, nat>, queue: seq<(nat, nat)>,
                  queue': seq<(nat, nat)>, depths': map<nat, nat>, t: nat, x: nat)
    requires |queue'| >= |queue| && queue'[..|queue|] == queue && QueueWitnessed(g, queue')
    requires LiftedQueued(depths, depths', queue'[|queue|..]) && Witnessed(g, t, x)
    ensures var q := queue' + [(t, x)];
      |q| >= |queue| && q[..|queue|] == queue && QueueWitnessed(g, q) &&
      LiftedQueued(depths, depths'[t := x], q[|queue|..])
  {
    var q := queue' + [(t, x)];
    assert q[|queue|..] == queue'[|queue|..] + [(t, x)];
    assert q[..|queue|] == queue'[..|queue|];
    forall i | 0 <= i < |q|
      ensures Witnessed(g, q[i].0, q[i].1)
    {
      if i < |queue'| {
        assert q[i] == queue'[i];
      }
    }
  }

  /** Lifting `t`, a target of `node` other than `node`, keeps the depth facts. */
  lemma LiftDepths(g: Graph, node: nat, d: nat, depths: map<nat, nat>, depths': map<nat, nat>, j: nat)
    requires j < |g.edges| && g.edges[j].src == node && g.edges[j].dst != node
    requires g.edges[j].dst < g.Size() && Witnessed(g, g.edges[j].dst, d + 1)
    requires var t := g.edges[j].dst; t !in depths' || depths'[t] < d + 1
    requires Grown(depths, depths') && AllWitnessed(g, depths') && OffersTaken(g, node, d, depths', j)
    requires node in depths ==> node in depths' && depths'[node] == depths[node]
    ensures var ds := depths'[g.edges[j].dst := d + 1];
      Grown(depths, ds) && AllWitnessed(g, ds) && OffersTaken(g, node, d, ds, j + 1) &&
      (node in depths ==> node in ds && ds[node] == depths[node])
  {
  }

  /** Lifting the target `t` of edge `j` to `d + 1` and queueing it keeps the relaxation state. */
  lemma LiftStep(g: Graph, rank: map<nat, nat>, node: nat, d: nat,
                 queue: seq<(nat, nat)>, depths: map<nat, nat>,
                 queue': seq<(nat, nat)>, depths': map<nat, nat>, j: nat)
    requires g.Valid() && IsRanking(g, rank) && j < |g.edges| && g.edges[j].src == node
    requires Witnessed(g, node, d)
    requires RelaxState(g, rank, node, d, queue, depths, queue', depths', j)
    requires var t := g.edges[j].dst; t !in depths' || depths'[t] < d + 1
    ensures var t := g.edges[j].dst;
      RelaxState(g, rank, node, d, queue, depths, queue' + [(t, d + 1)], depths'[t := d + 1], j + 1)
  {
    var t := g.edges[j].dst;
    assert HasEdge(g, node, t);
    WitnessExtend(g, node, d, t);
    WitnessBound(g, rank, t, d + 1);
    PotLift(rank, depths', t, d + 1, g.Size());
    LiftQueue(g, depths, queue, queue', depths', t, d + 1);
    LiftDepths(g, node, d, depths, depths', j);
  }

  /**
   * The relaxation of `node` at depth `d` from edge `j` on, as one
   * expression: each edge leaving `node` whose target has no depth or a
   * depth below `d + 1` lifts the target to `d + 1` and queues it again.
   * It is defined on every graph, cyclic or not.
   */
  function RelaxFrom(g: Graph, node: nat, d: nat, queue: seq<(nat, nat)>, depths: map<nat, nat>, j: nat)
    : (seq<(nat, nat)>, map<nat, nat>)
    decreases |g.edges| - j
  {
    if j >= |g.edges| then (queue, depths)
    else
      var t := g.edges[j].dst;
      if g.edges[j].src == node && (t !in depths || depths[t] < d + 1) then
        RelaxFrom(g, node, d, queue + [(t, d + 1)], depths[t := d + 1], j + 1)
      else RelaxFrom(g, node, d, queue, depths, j + 1)
  }

  /** One turn of the source's outer loop: pop the front pair and relax its vertex. */
  function Pop(g: Graph, queue: seq<(nat, nat)>, depths: map<nat, nat>): (seq<(nat, nat)>, map<nat, nat>)
    requires queue != []
  {
    RelaxFrom(g, queue[0].0, queue[0].1, queue[1..], depths, 0)
  }

  /** `n` turns of the outer loop, or fewer when the queue empties first. */
  function Pops(g: Graph, queue: seq<(nat, nat)>, depths: map<nat, nat>, n: nat)
    : (seq<(nat, nat)>, map<nat, nat>)
    decreases n
  {
    if n == 0 || queue == [] then (queue, depths)
    else
      var next := Pop(g, queue, depths);
      Pops(g, next.0, next.1, n - 1)
  }

  /**
   * The inner loop: every edge leaving `node` offers its target `d + 1`; a
   * target below that is lifted and queued again. The queue only grows at
   * the back, depths only grow, every lifted vertex is queued with its new
   * depth, and the potential falls when anything was queued.
   */
  method Relax(g: Graph, ghost rank: map<nat, nat>, node: nat, d: nat, queue: seq<(nat, nat)>, depths: map<nat, nat>)
    returns (queue': seq<(nat, nat)>, depths': map<nat, nat>)
    requires g.Valid() && IsRanking(g, rank) && Witnessed(g, node, d)
    requires AllWitnessed(g, depths) && QueueWitnessed(g, queue)
    ensures RelaxState(g, rank, node, d, queue, depths, queue', depths', |g.edges|)
    ensures (queue', depths') == RelaxFrom(g, node, d, queue, depths, 0)
  {
    queue', depths' := queue, depths;
    assert queue'[..|queue|] == queue;
    for j := 0 to |g.edges|
      invariant RelaxState(g, rank, node, d, queue, depths, queue', depths', j)
      invariant RelaxFrom(g, node, d, queue', depths', j) == RelaxFrom(g, node, d, queue, depths, 0)
    {
      if g.edges[j].src == node {
        var t := g.edges[j].dst;
        if t !in depths' || depths'[t] < d + 1 {
          LiftStep(g, rank, node, d, queue, depths, queue', depths', j);
          queue', depths' := queue' + [(t, d + 1)], depths'[t := d + 1];
        } else {
          KeepStep(g, rank, node, d, queue, depths, queue', depths', j);
        }
      } else {
        KeepStep(g, rank, node, d, queue, depths, queue', depths', j);
      }
    }
  }

  // ------------------------------------------------------------ the outer loop

  /** Every root has a depth. */
  ghost predicate RootsIn(g: Graph, depths: map<nat, nat>) {
    forall v: nat :: IsRoot(g, v) ==> v in depths
  }

  /** Each vertex is still queued with its depth, or its depth is counted in the maximum and its edges relaxed. */
  predicate Settled(g: Graph, queue: seq<(nat, nat)>, depths: map<nat, nat>, maxDepth: nat) {
    forall v :: v in depths ==> (v, depths[v]) in queue || (maxDepth >= depths[v] && Relaxed(g, depths, v))
  }

  /** What the search keeps true between two pops of the queue. */
  ghost predicate BfsInvariant(g: Graph, queue: seq<(nat, nat)>, depths: map<nat, nat>, maxDepth: nat) {
    RootsIn(g, depths) && AllWitnessed(g, depths) && QueueWitnessed(g, queue) &&
    (maxDepth == 0 || exists v :: Witnessed(g, v, maxDepth)) &&
    Settled(g, queue, depths, maxDepth)
  }

  /** Popping `(node, d)`, raising the maximum and relaxing `node` keeps every vertex settled. */
  lemma PopKeepsSettled(g: Graph, queue: seq<(nat, nat)>, depths: map<nat, nat>, maxDepth: nat,
                        queue': seq<(nat, nat)>, depths': map<nat, nat>, maxDepth': nat)
    requires queue != [] && Settled(g, queue, depths, maxDepth)
    requires maxDepth' >= maxDepth && maxDepth' >= queue[0].1
    requires Grown(depths, depths')
    requires |queue'| >= |queue| - 1 && queue'[..|queue| - 1] == queue[1..]
    requires LiftedQueued(depths, depths', queue'[|queue| - 1..])
    requires OffersTaken(g, queue[0].0, queue[0].1, depths', |g.edges|)
    requires queue[0].0 in depths ==> depths'[queue[0].0] == depths[queue[0].0]
    ensures Settled(g, queue', depths', maxDepth')
  {
    var rest := queue[1..];
    forall v | v in depths'
      ensures (v, depths'[v]) in queue' || (maxDepth' >= depths'[v] && Relaxed(g, depths', v))
    {
      if v !in depths || depths'[v] != depths[v] {
        assert (v, depths'[v]) in queue'[|queue| - 1..];
      } else if (v, depths[v]) in rest {
        var i :| 0 <= i < |rest| && rest[i] == (v, depths[v]);
        assert queue'[i] == rest[i];
      } else if (v, depths[v]) in queue {
        assert queue[0] == (v, depths[v]);
      } else {
        assert Relaxed(g, depths, v);
      }
    }
  }

  /** Dropping the front of a witnessed queue leaves it witnessed. */
  lemma TailWitnessed(g: Graph, queue: seq<(nat, nat)>)
    requires queue != [] && QueueWitnessed(g, queue)
    ensures QueueWitnessed(g, queue[1..])
  {
    forall i | 0 <= i < |queue| - 1
      ensures Witnessed(g, queue[1..][i].0, queue[1..][i].1)
    {
      assert queue[1..][i] == queue[i + 1];
    }
  }

  /** One pop of the queue; the potential falls, or stays while the queue shrinks. */
  method BfsStep(g: Graph, ghost rank: map<nat, nat>, queue: seq<(nat, nat)>, depths: map<nat, nat>, maxDepth: nat)
    returns (queue': seq<(nat, nat)>, depths': map<nat, nat>, maxDepth': nat)
    requires g.Valid() && IsRanking(g, rank) && queue != [] && BfsInvariant(g, queue, depths, maxDepth)
    ensures BfsInvariant(g, queue', depths', maxDepth')
    ensures Pot(rank, depths', g.Size()) < Pot(rank, depths, g.Size()) ||
      (Pot(rank, depths', g.Size()) == Pot(rank, depths, g.Size()) && |queue'| < |queue|)
  {
    var node, d := queue[0].0, queue[0].1;
    maxDepth' := if d > maxDepth then d else maxDepth;
    assert Witnessed(g, node, d);
    TailWitnessed(g, queue);
    queue', depths' := Relax(g, rank, node, d, queue[1..], depths);
    PopKeepsSettled(g, queue, depths, maxDepth, queue', depths', maxDepth');
    assert maxDepth' == 0 || Witnessed(g, node, maxDepth') || Witnessed(g, node, maxDepth) || maxDepth' == maxDepth;
  }

  /** With the queue empty, every root path ends at a vertex whose depth is at least its length. */
  lemma {:induction false} SettledCoversPaths(g: Graph, depths: map<nat, nat>, maxDepth: nat, p: seq<nat>)
    requires RootsIn(g, depths) && Settled(g, [], depths, maxDepth) && IsRootPath(g, p)
    ensures p[|p| - 1] in depths && |p| - 1 <= depths[p[|p| - 1]] <= maxDepth
    decreases |p|
  {
    if |p| > 1 {
      var q := p[..|p| - 1];
      assert IsRootPath(g, q) by {
        forall i | 0 <= i < |q| - 1
          ensures HasEdge(g, q[i], q[i + 1])
        {
          assert q[i] == p[i] && q[i + 1] == p[i + 1];
        }
      }
      SettledCoversPaths(g, depths, maxDepth, q);
      assert HasEdge(g, p[|p| - 2], p[|p| - 1]);
      var k :| 0 <= k < |g.edges| && g.edges[k].src == p[|p| - 2] && g.edges[k].dst == p[|p| - 1];
      assert Relaxed(g, depths, p[|p| - 2]);
    }
  }

  /** The queue and depth map after the roots are queued at depth 0. */
  method QueueRoots(g: Graph) returns (queue: seq<(nat, nat)>, depths: map<nat, nat>)
    ensures BfsInvariant(g, queue, depths, 0)
  {
    var roots := Roots(g);
    queue, depths := [], map[];
    for i := 0 to |roots|
      invariant forall j :: 0 <= j < i ==> roots[j] in depths
      invariant forall v :: v in depths ==> IsRoot(g, v) && depths[v] == 0 && (v, 0) in queue
      invariant forall j :: 0 <= j < |queue| ==> IsRoot(g, queue[j].0) && queue[j].1 == 0
    {
      queue := queue + [(roots[i], 0)];
      depths := depths[roots[i] := 0];
    }
    forall v | v in depths
      ensures Witnessed(g, v, 0)
    {
      assert IsRootPath(g, [v]);
    }
    forall j | 0 <= j < |queue|
      ensures Witnessed(g, queue[j].0, queue[j].1)
    {
      assert IsRootPath(g, [queue[j].0]);
    }
  }

  /**
   * `calculate_depth` on a graph ranked by `rank` (so without cycles): the
   * number of edges of the longest path from a root, 0 when there is none.
   */
  method CalculateDepth(g: Graph, ghost rank: map<nat, nat>) returns (maxDepth: nat)
    requires g.Valid() && IsRanking(g, rank)
    ensures IsLongestRootPath(g, maxDepth)
  {
    var queue, depths := QueueRoots(g);
    maxDepth := 0;
    while queue != []
      invariant BfsInvariant(g, queue, depths, maxDepth)
      decreases Pot(rank, depths, g.Size()), |queue|
    {
      queue, depths, maxDepth := BfsStep(g, rank, queue, depths, maxDepth);
    }
    DrainedIsLongest(g, depths, maxDepth);
  }

  /** Once the queue is empty, the maximum is the longest root path length. */
  lemma DrainedIsLongest(g: Graph, depths: map<nat, nat>, maxDepth: nat)
    requires BfsInvariant(g, [], depths, maxDepth)
    ensures IsLongestRootPath(g, maxDepth)
  {
    forall p | IsRootPath(g, p)
      ensures |p| - 1 <= maxDepth
    {
      SettledCoversPaths(g, depths, maxDepth, p);
    }
    if maxDepth != 0 {
      var v :| Witnessed(g, v, maxDepth);
      var p :| IsRootPath(g, p) && p[|p| - 1] == v && |p| == maxDepth + 1;
    }
  }
}

/**
 * `calculate_depth` as the source writes it, on a graph with a cycle that a
 * root reaches: vertex 0 is the only root, 0 -> 1, and 1 and 2 point at each
 * other. Every turn around the cycle lifts the next vertex by one more and
 * queues it again, so the queue never empties and the loop never ends.
 */
module DepthOnCycle {
  import opened Types
  import opened DagTypes
  import opened Graphs
  import opened Depth

  function CycleGraph(): Graph {
    Graph([TaskId(0), TaskId(1), TaskId(2)], [GEdge(0, 1, Always), GEdge(1, 2, Always), GEdge(2, 1, Always)])
  }

  /** The example is a well-formed graph with a cycle, 1 -> 2 -> 1. */
  lemma CycleGraphIsCyclic()
    ensures CycleGraph().Valid() && HasCycle(CycleGraph())
  {
    var g := CycleGraph();
    assert HasEdge(g, 1, 2) by { assert g.edges[1].src == 1 && g.edges[1].dst == 2; }
    assert HasEdge(g, 2, 1) by { assert g.edges[2].src == 2 && g.edges[2].dst == 1; }
    assert IsPath(g, [1, 2, 1]);
  }

  /** The state after the `k`-th pass through vertex 1: it is queued again. */
  function Lap(k: nat): (seq<(nat, nat)>, map<nat, nat>) {
    ([(1, 2 * k + 1)], map[0 := 0, 1 := 2 * k + 1, 2 := 2 * k])
  }

  /** The state half a lap later: vertex 2 is queued again. */
  function HalfLap(k: nat): (seq<(nat, nat)>, map<nat, nat>) {
    ([(2, 2 * k + 2)], map[0 := 0, 1 := 2 * k + 1, 2 := 2 * k + 2])
  }

  lemma PopLap(k: nat)
    ensures Pop(CycleGraph(), Lap(k).0, Lap(k).1) == HalfLap(k)
  {
    var g, ds := CycleGraph(), Lap(k).1;
    var ds' := ds[2 := 2 * k + 2];
    assert Lap(k).0[1..] == [] && [] + [(2, 2 * k + 2)] == [(2, 2 * k + 2)];
    assert RelaxFrom(g, 1, 2 * k + 1, [], ds, 0) == RelaxFrom(g, 1, 2 * k + 1, [], ds, 1);
    assert RelaxFrom(g, 1, 2 * k + 1, [], ds, 1) == RelaxFrom(g, 1, 2 * k + 1, [(2, 2 * k + 2)], ds', 2);
    assert RelaxFrom(g, 1, 2 * k + 1, [(2, 2 * k + 2)], ds', 2) == RelaxFrom(g, 1, 2 * k + 1, [(2, 2 * k + 2)], ds', 3);
    assert ds' == HalfLap(k).1;
  }

  lemma PopHalfLap(k: nat)
    ensures Pop(CycleGraph(), HalfLap(k).0, HalfLap(k).1) == Lap(k + 1)
  {
    var g, ds := CycleGraph(), HalfLap(k).1;
    var ds' := ds[1 := 2 * k + 3];
    assert HalfLap(k).0[1..] == [] && [] + [(1, 2 * k + 3)] == [(1, 2 * k + 3)];
    assert RelaxFrom(g, 2, 2 * k + 2, [], ds, 0) == RelaxFrom(g, 2, 2 * k + 2, [], ds, 1);
    assert RelaxFrom(g, 2, 2 * k + 2, [], ds, 1) == RelaxFrom(g, 2, 2 * k + 2, [], ds, 2);
    assert RelaxFrom(g, 2, 2 * k + 2, [], ds, 2) == RelaxFrom(g, 2, 2 * k + 2, [(1, 2 * k + 3)], ds', 3);
    assert ds' == Lap(k + 1).1;
  }

  /** The three pops from the root to the first lap. */
  lemma FirstLap()
    ensures var s1 := ([(1, 1)], map[0 := 0, 1 := 1]);
      var s2 := ([(2, 2)], map[0 := 0, 1 := 1, 2 := 2]);
      Pop(CycleGraph(), [(0, 0)], map[0 := 0]) == s1 &&
      Pop(CycleGraph(), s1.0, s1.1) == s2 &&
      Pop(CycleGraph(), s2.0, s2.1) == Lap(1)
  {
    var g := CycleGraph();
    var d0: map<nat, nat> := map[0 := 0];
    var d1 := d0[1 := 1];
    var d2 := d1[2 := 2];
    assert [(0, 0)][1..] == [] && [(1, 1)][1..] == [] && [(2, 2)][1..] == [];
    assert [] + [(1, 1)] == [(1, 1)] && [] + [(2, 2)] == [(2, 2)] && [] + [(1, 3)] == [(1, 3)];
    assert RelaxFrom(g, 0, 0, [], d0, 0) == RelaxFrom(g, 0, 0, [(1, 1)], d1, 1);
    assert RelaxFrom(g, 0, 0, [(1, 1)], d1, 1) == RelaxFrom(g, 0, 0, [(1, 1)], d1, 2);
    assert RelaxFrom(g, 0, 0, [(1, 1)], d1, 2) == RelaxFrom(g, 0, 0, [(1, 1)], d1, 3);
    assert RelaxFrom(g, 1, 1, [], d1, 0) == RelaxFrom(g, 1, 1, [], d1, 1);
    assert RelaxFrom(g, 1, 1, [], d1, 1) == RelaxFrom(g, 1, 1, [(2, 2)], d2, 2);
    assert RelaxFrom(g, 1, 1, [(2, 2)], d2, 2) == RelaxFrom(g, 1, 1, [(2, 2)], d2, 3);
    assert RelaxFrom(g, 2, 2, [], d2, 0) == RelaxFrom(g, 2, 2, [], d2, 1);
    assert RelaxFrom(g, 2, 2, [], d2, 1) == RelaxFrom(g, 2, 2, [], d2, 2);
    assert RelaxFrom(g, 2, 2, [], d2, 2) == RelaxFrom(g, 2, 2, [(1, 3)], d2[1 := 3], 3);
    assert d1 == map[0 := 0, 1 := 1] && d2 == map[0 := 0, 1 := 1, 2 := 2];
    assert d2[1 := 3] == Lap(1).1;
  }

  /** From any lap, no number of pops empties the queue, and `2n` pops reach lap `k + n`. */
  lemma {:induction false} LapsNeverDrain(k: nat, n: nat)
    ensures Pops(CycleGraph(), Lap(k).0, Lap(k).1, n).0 != []
    ensures Pops(CycleGraph(), Lap(k).0, Lap(k).1, 2 * n) == Lap(k + n)
    decreases n
  {
    var g := CycleGraph();
    PopLap(k);
    PopHalfLap(k);
    if n >= 1 {
      LapsNeverDrain(k + 1, n - 1);
      assert Pops(g, Lap(k).0, Lap(k).1, 2 * n) == Pops(g, HalfLap(k).0, HalfLap(k).1, 2 * n - 1);
      assert Pops(g, HalfLap(k).0, HalfLap(k).1, 2 * n - 1) == Pops(g, Lap(k + 1).0, Lap(k + 1).1, 2 * (n - 1));
    }
    if n >= 2 {
      LapsNeverDrain(k + 1, n - 2);
      assert Pops(g, Lap(k).0, Lap(k).1, n) == Pops(g, HalfLap(k).0, HalfLap(k).1, n - 1);
      assert Pops(g, HalfLap(k).0, HalfLap(k).1, n - 1) == Pops(g, Lap(k + 1).0, Lap(k + 1).1, n - 2);
    } else if n == 1 {
      assert Pops(g, Lap(k).0, Lap(k).1, 1) == Pops(g, HalfLap(k).0, HalfLap(k).1, 0);
    }
  }

  /**
   * Started as the source starts it, with the only root queued at depth 0,
   * the loop still has work after any number `n` of turns, and after
   * `3 + 2n` turns vertex 1 has climbed to depth `2n + 3` (the depths of
   * `Lap(n + 1)`).
   */
  lemma {:induction false} CycleNeverDrains(n: nat)
    ensures IsRoot(CycleGraph(), 0) && !IsRoot(CycleGraph(), 1) && !IsRoot(CycleGraph(), 2)
    ensures Pops(CycleGraph(), [(0, 0)], map[0 := 0], n).0 != []
    ensures Pops(CycleGraph(), [(0, 0)], map[0 := 0], 3 + 2 * n).1 == Lap(n + 1).1
  {
    var g := CycleGraph();
    assert g.edges[0].dst == 1 && g.edges[1].dst == 2;
    FirstLap();
    var s0: (seq<(nat, nat)>, map<nat, nat>) := ([(0, 0)], map[0 := 0]);
    var s1: (seq<(nat, nat)>, map<nat, nat>) := ([(1, 1)], map[0 := 0, 1 := 1]);
    var s2: (seq<(nat, nat)>, map<nat, nat>) := ([(2, 2)], map[0 := 0, 1 := 1, 2 := 2]);
    assert Pops(g, s0.0, s0.1, 3 + 2 * n) == Pops(g, s1.0, s1.1, 2 + 2 * n);
    assert Pops(g, s1.0, s1.1, 2 + 2 * n) == Pops(g, s2.0, s2.1, 1 + 2 * n);
    assert Pops(g, s2.0, s2.1, 1 + 2 * n) == Pops(g, Lap(1).0, Lap(1).1, 2 * n);
    LapsNeverDrain(1, n);
    if n >= 3 {
      LapsNeverDrain(1, n - 3);
      assert Pops(g, s0.0, s0.1, n) == Pops(g, s1.0, s1.1, n - 1);
      assert Pops(g, s1.0, s1.1, n - 1) == Pops(g, s2.0, s2.1, n - 2);
      assert Pops(g, s2.0, s2.1, n - 2) == Pops(g, Lap(1).0, Lap(1).1, n - 3);
    } else if n == 2 {
      assert Pops(g, s0.0, s0.1, 2) == Pops(g, s1.0, s1.1, 1);
      assert Pops(g, s1.0, s1.1, 1) == Pops(g, s2.0, s2.1, 0);
    } else if n == 1 {
      assert Pops(g, s0.0, s0.1, 1) == Pops(g, s1.0, s1.1, 0);
    }
  }
}
