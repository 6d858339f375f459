/**
 * `DagExecutorImpl`: validation, topological sort and the (simulated) run of
 * a task DAG. `keys` stands for the iteration order of the DAG's node map:
 * both graph builds of one call see the same order.
 */
module Dag {
  import opened Wrappers
  import opened Types
  import opened Collections
  import opened DagTypes
  import opened Graphs
  import opened Topo
  import opened Reach
  import opened Depth
  import E = Errors

  /** The executor's only setting: the largest accepted depth. */
  datatype DagExecutor = DagExecutor(maxDepth: nat)

  /** `DagExecutorImpl::new`: depth bound 10. */
  function NewExecutor(): (ex: DagExecutor)
    ensures ex.maxDepth == 10
  {
    DagExecutor(10)
  }

  /** `with_max_depth`: the given bound. */
  function WithMaxDepth(maxDepth: nat): (ex: DagExecutor)
    ensures ex.maxDepth == maxDepth
  {
    DagExecutor(maxDepth)
  }

  /** No cycle, and no path from a root has more than `bound` edges. */
  ghost predicate WellFormed(g: Graph, bound: nat) {
    !HasCycle(g) && forall p :: IsRootPath(g, p) ==> |p| - 1 <= bound
  }

  /** An acyclic graph passes the three checks exactly when its root paths fit the bound. */
  lemma ValidMeansWellFormed(g: Graph, rank: map<nat, nat>, unreachable: seq<TaskId>, depth: nat, bound: nat)
    requires g.Valid() && IsRanking(g, rank)
    requires unreachable == Unreachable(g) && IsLongestRootPath(g, depth)
    ensures (unreachable == [] && depth <= bound) <==> WellFormed(g, bound)
  {
    RankedNoneUnreachable(g, rank);
    RankingNoCycle(g, rank);
    if depth > bound {
      var p :| IsRootPath(g, p) && |p| - 1 == depth;
    }
  }

  /**
   * `validate_dag`: the cycle flag, the unreachable ids and the depth of the
   * graph built from `dag`; valid exactly when the graph is acyclic, every
   * vertex is reachable and the depth fits the bound. The depth is only
   * computed on an acyclic graph and reported as 0 otherwise.
   */
  method ValidateDag(ex: DagExecutor, dag: TaskDag, keys: seq<TaskId>) returns (v: DagValidation)
    requires IsEnumeration(keys, dag.nodes)
    ensures v.hasCycles == HasCycle(GraphOf(dag, keys))
    ensures v.unreachableNodes == Unreachable(GraphOf(dag, keys))
    ensures !v.hasCycles ==> IsLongestRootPath(GraphOf(dag, keys), v.maxDepth)
    ensures v.hasCycles ==> v.maxDepth == 0
    ensures v.valid <==> !v.hasCycles && v.unreachableNodes == [] && v.maxDepth <= ex.maxDepth
    ensures v.valid <==> WellFormed(GraphOf(dag, keys), ex.maxDepth)
  {
    var g, _ := BuildGraph(dag, keys);
    var order, acyclic := TopoOrder(g);
    var unreachable := FindUnreachable(g);
    var maxDepth := 0;
    if acyclic {
      maxDepth := CalculateDepth(g, Positions(order));
      ValidMeansWellFormed(g, Positions(order), unreachable, maxDepth, ex.maxDepth);
    }
    var valid := acyclic && unreachable == [] && maxDepth <= ex.maxDepth;
    v := DagValidation(valid, !acyclic, unreachable, maxDepth);
  }

  // ------------------------------------------------------------ topological_sort

  /** `dag.edges[..]` has an edge from `a` to `b`. */
  predicate Links(dag: TaskDag, a: TaskId, b: TaskId) {
    exists e :: e in dag.edges && e.from == a && e.to == b
  }

  /**
   * `ids` lists every node once, and every edge between two nodes goes from
   * an earlier to a later id.
   */
  ghost predicate IsTopoOrder(dag: TaskDag, ids: seq<TaskId>) {
    Distinct(ids) && (forall id :: id in ids <==> id in dag.nodes) &&
    forall a, b :: a in dag.nodes && b in dag.nodes && Links(dag, a, b) ==>
      Positions(ids)[a] < Positions(ids)[b]
  }

  /** In a duplicate-free sequence, `Positions` finds each element where it is. */
  lemma PositionsInverse<T(!new)>(s: seq<T>, x: T)
    requires Distinct(s) && x in s
    ensures s[Positions(s)[x]] == x
  {
    var i :| 0 <= i < |s| && s[i] == x;
  }

  /** `n` distinct vertices below `n` are all of them. */
  lemma AllEmitted(order: seq<nat>, n: nat)
    requires Distinct(order) && |order| == n && forall i :: 0 <= i < |order| ==> order[i] < n
    ensures forall v :: 0 <= v < n ==> v in order
  {
    forall v | 0 <= v < n
      ensures v in order
    {
      if v !in order {
        EmittedBound(Graph(seq(n, _ => TaskId(0)), []), order, v);
      }
    }
  }

  /** Looking distinct vertices up in distinct keys gives distinct ids. */
  lemma IdsDistinct(keys: seq<TaskId>, order: seq<nat>, ids: seq<TaskId>)
    requires Distinct(keys) && Distinct(order) && forall i :: 0 <= i < |order| ==> order[i] < |keys|
    requires |ids| == |order| && (forall i :: 0 <= i < |order| ==> order[i] < |keys|)
    requires forall i :: 0 <= i < |ids| ==> ids[i] == keys[order[i]]
    ensures Distinct(ids)
  {
    forall i, j | 0 <= i < j < |ids|
      ensures ids[i] != ids[j]
    {
      assert order[i] != order[j];
    }
  }

  /** The ids of the vertices of `order`, looked up in `keys`. */
  lemma IdsOfOrder(dag: TaskDag, keys: seq<TaskId>, order: seq<nat>, ids: seq<TaskId>)
    requires IsEnumeration(keys, dag.nodes)
    requires Distinct(order) && |order| == |keys| && forall i :: 0 <= i < |order| ==> order[i] < |keys|
    requires |ids| == |order| && (forall i :: 0 <= i < |order| ==> order[i] < |keys|)
    requires forall i :: 0 <= i < |ids| ==> ids[i] == keys[order[i]]
    ensures Distinct(ids) && forall id :: id in ids <==> id in dag.nodes
    ensures SamePlaces(keys, order, ids)
  {
    IdsDistinct(keys, order, ids);
    AllEmitted(order, |keys|);
    forall v: nat | v < |keys|
      ensures keys[v] in Positions(ids) && v in Positions(order) && Positions(ids)[keys[v]] == Positions(order)[v]
    {
      PlaceOf(keys, order, ids, v);
    }
    forall id | id in dag.nodes
      ensures id in ids
    {
      PositionsInverse(keys, id);
    }
  }

  /** The id of vertex `v` sits in `ids` where `v` sits in `order`. */
  lemma PlaceOf(keys: seq<TaskId>, order: seq<nat>, ids: seq<TaskId>, v: nat)
    requires Distinct(order) && Distinct(ids) && v < |keys| && v in order
    requires |ids| == |order| && (forall i :: 0 <= i < |order| ==> order[i] < |keys|)
    requires forall i :: 0 <= i < |ids| ==> ids[i] == keys[order[i]]
    ensures keys[v] in Positions(ids) && v in Positions(order) && Positions(ids)[keys[v]] == Positions(order)[v]
  {
    var i := Positions(order)[v];
    PositionsInverse(order, v);
    assert ids[i] == keys[v];
  }

  /** An edge between two nodes survives into the built graph. */
  lemma LinkKept(dag: TaskDag, keys: seq<TaskId>, a: TaskId, b: TaskId)
    requires IsEnumeration(keys, dag.nodes) && a in dag.nodes && b in dag.nodes && Links(dag, a, b)
    ensures a in Positions(keys) && b in Positions(keys)
    ensures HasEdge(GraphOf(dag, keys), Positions(keys)[a], Positions(keys)[b])
  {
    var m := Positions(keys);
    var e :| e in dag.edges && e.from == a && e.to == b;
    var ge := GEdge(m[a], m[b], ConditionOrDefault(e.condition));
    assert Keeps(m, e, ge);
    KeptEdgesMembership(dag.edges, m, ge);
    var edges := GraphOf(dag, keys).edges;
    var k :| 0 <= k < |edges| && edges[k] == ge;
  }

  /** A ranking ranks the target of an edge above its source. */
  lemma RankedEdge(g: Graph, rank: map<nat, nat>, u: nat, v: nat)
    requires IsRanking(g, rank) && HasEdge(g, u, v)
    ensures u in rank && v in rank && rank[u] < rank[v]
  {
    var k :| 0 <= k < |g.edges| && g.edges[k].src == u && g.edges[k].dst == v;
  }

  /** A topological order of the built graph, translated to ids, orders the DAG. */
  lemma OrderedIds(dag: TaskDag, keys: seq<TaskId>, order: seq<nat>, ids: seq<TaskId>)
    requires IsEnumeration(keys, dag.nodes)
    requires Distinct(order) && |order| == |keys| && forall i :: 0 <= i < |order| ==> order[i] < |keys|
    requires IsRanking(GraphOf(dag, keys), Positions(order))
    requires |ids| == |order| && (forall i :: 0 <= i < |order| ==> order[i] < |keys|)
    requires forall i :: 0 <= i < |ids| ==> ids[i] == keys[order[i]]
    ensures IsTopoOrder(dag, ids)
  {
    IdsOfOrder(dag, keys, order, ids);
    forall a, b | a in dag.nodes && b in dag.nodes && Links(dag, a, b)
      ensures Positions(ids)[a] < Positions(ids)[b]
    {
      OrderedLink(dag, keys, order, ids, a, b);
    }
  }

  /** One edge of the DAG: its source comes before its target in `ids`. */
  lemma OrderedLink(dag: TaskDag, keys: seq<TaskId>, order: seq<nat>, ids: seq<TaskId>, a: TaskId, b: TaskId)
    requires IsEnumeration(keys, dag.nodes)
    requires IsRanking(GraphOf(dag, keys), Positions(order))
    requires SamePlaces(keys, order, ids)
    requires a in dag.nodes && b in dag.nodes && Links(dag, a, b)
    ensures a in Positions(ids) && b in Positions(ids) && Positions(ids)[a] < Positions(ids)[b]
  {
    LinkKept(dag, keys, a, b);
    var u, v := Positions(keys)[a], Positions(keys)[b];
    var rank := Positions(order);
    RankedEdge(GraphOf(dag, keys), rank, u, v);
    PositionsInverse(keys, a);
    PositionsInverse(keys, b);
    SamePlace(keys, order, ids, u);
    SamePlace(keys, order, ids, v);
  }

  /** Vertex `v` sits in `order` where its id sits in `ids`. */
  ghost predicate SamePlaces(keys: seq<TaskId>, order: seq<nat>, ids: seq<TaskId>) {
    forall v: nat :: v < |keys| ==>
      keys[v] in Positions(ids) && v in Positions(order) && Positions(ids)[keys[v]] == Positions(order)[v]
  }

  lemma SamePlace(keys: seq<TaskId>, order: seq<nat>, ids: seq<TaskId>, v: nat)
    requires SamePlaces(keys, order, ids) && v < |keys|
    ensures keys[v] in Positions(ids) && v in Positions(order) && Positions(ids)[keys[v]] == Positions(order)[v]
  {
  }

  /** The loop of `topological_sort`: the id of each emitted vertex, in order. */
  method IdsOf(weights: seq<TaskId>, order: seq<nat>) returns (ids: seq<TaskId>)
    requires forall i :: 0 <= i < |order| ==> order[i] < |weights|
    ensures |ids| == |order| && forall i :: 0 <= i < |ids| ==> ids[i] == weights[order[i]]
  {
    ids := [];
    for i := 0 to |order|
      invariant |ids| == i && forall j :: 0 <= j < i ==> ids[j] == weights[order[j]]
    {
      ids := ids + [weights[order[i]]];
    }
  }

  /**
   * `topological_sort`: a `Validation` error exactly when the built graph
   * has a cycle; otherwise every node once, each edge's source first.
   */
  method TopologicalSort(dag: TaskDag, keys: seq<TaskId>) returns (r: Result<seq<TaskId>, E.Error>)
    requires IsEnumeration(keys, dag.nodes)
    ensures r.Err? <==> HasCycle(GraphOf(dag, keys))
    ensures r.Err? ==> r.error == E.Validation("DAG contains cycles")
    ensures r.Ok? ==> IsTopoOrder(dag, r.value) && |r.value| == |keys|
  {
    var g, _ := BuildGraph(dag, keys);
    var order, acyclic := TopoOrder(g);
    if !acyclic {
      return Err(E.Validation("DAG contains cycles"));
    }
    var ids := IdsOf(g.weights, order);
    OrderedIds(dag, keys, order, ids);
    r := Ok(ids);
  }

  // ------------------------------------------------------------------ execute_dag

  /** Every listed dependency names a node whose input status is `Completed`. */
  predicate DepsSatisfied(dag: TaskDag, node: DagNode) {
    forall dep :: dep in node.dependencies ==> dep in dag.nodes && dag.nodes[dep].status == Completed
  }

  /**
   * The loop of `execute_dag`: each node of `order` is completed when its
   * dependencies were `Completed` in the input and skipped if not.
   */
  method RunNodes(dag: TaskDag, order: seq<TaskId>) returns (completed: seq<TaskId>, skipped: seq<TaskId>)
    requires Distinct(order) && forall id :: id in order ==> id in dag.nodes
    ensures forall id :: id in completed <==> id in order && DepsSatisfied(dag, dag.nodes[id])
    ensures forall id :: id in skipped <==> id in order && !DepsSatisfied(dag, dag.nodes[id])
    ensures Distinct(completed + skipped) && |completed| + |skipped| == |order|
  {
    completed, skipped := [], [];
    for i := 0 to |order|
      invariant forall id :: id in completed <==> id in order[..i] && DepsSatisfied(dag, dag.nodes[id])
      invariant forall id :: id in skipped <==> id in order[..i] && !DepsSatisfied(dag, dag.nodes[id])
      invariant Distinct(completed + skipped) && |completed| + |skipped| == i
    {
      var id := order[i];
      assert id !in order[..i];
      assert order[..i + 1] == order[..i] + [id];
      if DepsSatisfied(dag, dag.nodes[id]) {
        DistinctAppend(completed, skipped, id, true);
        completed := completed + [id];
      } else {
        DistinctAppend(completed, skipped, id, false);
        skipped := skipped + [id];
      }
    }
    assert order[..|order|] == order;
  }

  /**
   * `execute_dag`: an invalid DAG is refused with a `Validation` error before
   * any node runs. Otherwise each node, in topological order, is completed
   * when its dependencies were `Completed` in the input and skipped if not;
   * nothing is ever failed, and every node lands in exactly one list.
   */
  method ExecuteDag(ex: DagExecutor, dag: TaskDag, keys: seq<TaskId>) returns (r: Result<DagExecutionResult, E.Error>)
    requires IsEnumeration(keys, dag.nodes)
    ensures r.Err? <==> !WellFormed(GraphOf(dag, keys), ex.maxDepth)
    ensures r.Err? ==> r.error == E.Validation("Invalid DAG structure")
    ensures r.Ok? ==> r.value.failedTasks == []
    ensures r.Ok? ==> forall id :: id in r.value.completedTasks <==> id in dag.nodes && DepsSatisfied(dag, dag.nodes[id])
    ensures r.Ok? ==> forall id :: id in r.value.skippedTasks <==> id in dag.nodes && !DepsSatisfied(dag, dag.nodes[id])
    ensures r.Ok? ==> Distinct(r.value.completedTasks + r.value.skippedTasks)
    ensures r.Ok? ==> |r.value.completedTasks| + |r.value.skippedTasks| == |keys|
  {
    var validation := ValidateDag(ex, dag, keys);
    if !validation.valid {
      return Err(E.Validation("Invalid DAG structure"));
    }
    var sorted := TopologicalSort(dag, keys);
    assert sorted.Ok?;
    var order := sorted.value;
    var completed, skipped := RunNodes(dag, order);
    r := Ok(DagExecutionResult(completed, [], skipped));
  }

  /** Adding a fresh id to one of two lists keeps their concatenation duplicate-free. */
  lemma DistinctAppend(a: seq<TaskId>, b: seq<TaskId>, x: TaskId, toA: bool)
    requires Distinct(a + b) && x !in a && x !in b
    ensures toA ==> Distinct(a + [x] + b)
    ensures !toA ==> Distinct(a + (b + [x]))
  {
    if toA {
      var s := a + [x] + b;
      forall i, j | 0 <= i < j < |s|
        ensures s[i] != s[j]
      {
        if j < |a| {
          assert s[i] == (a + b)[i] && s[j] == (a + b)[j];
        } else if i < |a| && j == |a| {
          assert s[i] == a[i];
        } else if i < |a| && j > |a| {
          assert s[j] == (a + b)[j - 1];
          assert s[i] == (a + b)[i];
        } else if i > |a| {
          assert s[j] == (a + b)[j - 1];
          assert s[i] == (a + b)[i - 1];
        } else if i == |a| && j > |a| {
          assert s[j] == b[j - |a| - 1];
        }
      }
    } else {
      assert a + (b + [x]) == (a + b) + [x];
    }
  }

  // ------------------------------------------------------- execute_dag, corrected

  /** Every dependency is a node joined to its dependent by an edge. */
  ghost predicate DependenciesAreEdges(dag: TaskDag) {
    forall id, dep :: id in dag.nodes && dep in dag.nodes[id].dependencies ==>
      dep in dag.nodes && Links(dag, dep, id)
  }

  /** Dependencies judged on the input status or on completion earlier in the same run. */
  predicate DepsDone(dag: TaskDag, node: DagNode, done: set<TaskId>) {
    forall dep :: dep in node.dependencies ==>
      dep in dag.nodes && (dag.nodes[dep].status == Completed || dep in done)
  }

  /**
   * The loop of `execute_dag` as evidently intended: a dependency completed
   * earlier in the same run counts as completed. When every dependency is an
   * edge of the DAG, nothing is skipped.
   */
  method RunNodesCorrected(dag: TaskDag, order: seq<TaskId>) returns (completed: seq<TaskId>, skipped: seq<TaskId>)
    requires IsTopoOrder(dag, order)
    ensures forall id :: id in completed + skipped <==> id in order
    ensures DependenciesAreEdges(dag) ==> skipped == [] && completed == order
  {
    completed, skipped := [], [];
    var done: set<TaskId> := {};
    for i := 0 to |order|
      invariant forall id :: id in completed + skipped <==> id in order[..i]
      invariant done == set id | id in completed
      invariant DependenciesAreEdges(dag) ==> skipped == [] && completed == order[..i]
    {
      var id := order[i];
      assert order[..i + 1] == order[..i] + [id];
      if DepsDone(dag, dag.nodes[id], done) {
        completed := completed + [id];
        done := done + {id};
      } else {
        if DependenciesAreEdges(dag) {
          EarlierDepsDone(dag, order, i, done);
        }
        skipped := skipped + [id];
      }
    }
    assert order[..|order|] == order;
  }

  /**
   * `execute_dag` with the corrected loop: the same refusal of invalid DAGs;
   * when every dependency is an edge, every node of a valid DAG completes.
   */
  method ExecuteDagCorrected(ex: DagExecutor, dag: TaskDag, keys: seq<TaskId>) returns (r: Result<DagExecutionResult, E.Error>)
    requires IsEnumeration(keys, dag.nodes)
    ensures r.Err? <==> !WellFormed(GraphOf(dag, keys), ex.maxDepth)
    ensures r.Err? ==> r.error == E.Validation("Invalid DAG structure")
    ensures r.Ok? ==> r.value.failedTasks == []
    ensures r.Ok? ==> forall id :: id in r.value.completedTasks + r.value.skippedTasks <==> id in dag.nodes
    ensures r.Ok? && DependenciesAreEdges(dag) ==>
      r.value.skippedTasks == [] && forall id :: id in r.value.completedTasks <==> id in dag.nodes
  {
    var validation := ValidateDag(ex, dag, keys);
    if !validation.valid {
      return Err(E.Validation("Invalid DAG structure"));
    }
    var sorted := TopologicalSort(dag, keys);
    assert sorted.Ok?;
    var order := sorted.value;
    var completed, skipped := RunNodesCorrected(dag, order);
    r := Ok(DagExecutionResult(completed, [], skipped));
  }

  /** In a topological order every dependency of the `i`-th node comes before it. */
  lemma EarlierDepsDone(dag: TaskDag, order: seq<TaskId>, i: nat, done: set<TaskId>)
    requires IsTopoOrder(dag, order) && DependenciesAreEdges(dag) && i < |order|
    requires forall id :: id in order[..i] ==> id in done
    ensures DepsDone(dag, dag.nodes[order[i]], done)
  {
    var id := order[i];
    forall dep | dep in dag.nodes[id].dependencies
      ensures dep in dag.nodes && dep in done
    {
      assert Links(dag, dep, id);
      var j := Positions(order)[dep];
      PositionsInverse(order, dep);
      PositionsInverse(order, id);
      assert order[..i][j] == dep;
    }
  }

  // ------------------------------------------------------------ a two-node chain

  /** Two pending tasks, the second depending on the first through one edge. */
  function ChainDag(): (dag: TaskDag)
    ensures dag.nodes.Keys == {TaskId(1), TaskId(2)} && |dag.edges| == 1
  {
    var t1, t2 := TaskId(1), TaskId(2);
    TaskDag(
      map[t1 := DagNode(t1, DefaultTask(t1, 0), [], [t2], Pending),
          t2 := DagNode(t2, DefaultTask(t2, 0), [t1], [], Pending)],
      [DagEdge(t1, t2, Some(OnSuccess))])
  }

  /** The chain is acyclic, its longest root path has one edge, and its dependencies are edges. */
  lemma ChainFacts()
    ensures IsEnumeration([TaskId(1), TaskId(2)], ChainDag().nodes)
    ensures WellFormed(GraphOf(ChainDag(), [TaskId(1), TaskId(2)]), 1)
    ensures DependenciesAreEdges(ChainDag())
  {
    ChainAcyclic();
    ChainDependencies();
  }

  /** The chain's graph has one edge, from vertex 0 to vertex 1: no cycle, and no root path longer than one edge. */
  lemma ChainAcyclic()
    ensures WellFormed(GraphOf(ChainDag(), [TaskId(1), TaskId(2)]), 1)
  {
    var dag, keys := ChainDag(), [TaskId(1), TaskId(2)];
    var g := GraphOf(dag, keys);
    assert dag.edges[..0] == [];
    assert g.edges == [GEdge(0, 1, OnSuccess)];
    var rank := map[0 := 0, 1 := 1];
    RankingNoCycle(g, rank);
    forall p | IsRootPath(g, p)
      ensures |p| - 1 <= 1
    {
      PathLengthBelowRank(g, rank, p);
    }
  }

  /** The chain's one dependency is its one edge. */
  lemma ChainDependencies()
    ensures DependenciesAreEdges(ChainDag())
  {
    var dag := ChainDag();
    forall id, dep | id in dag.nodes && dep in dag.nodes[id].dependencies
      ensures dep in dag.nodes && Links(dag, dep, id)
    {
      assert id == TaskId(2) && dep == TaskId(1);
      assert dag.edges[0] == DagEdge(dep, id, Some(OnSuccess));
    }
  }

  /** The test `test_dag_validation`: the two-node chain is valid under the default bound. */
  method TwoNodeChainIsValid() returns (v: DagValidation)
    ensures v.valid && !v.hasCycles && v.unreachableNodes == []
  {
    ChainFacts();
    v := ValidateDag(NewExecutor(), ChainDag(), [TaskId(1), TaskId(2)]);
  }

  /** As written, the dependent of a pending root is skipped although the root just completed. */
  method ChainRunAsWritten() returns (r: Result<DagExecutionResult, E.Error>)
    ensures r.Ok? && TaskId(1) in r.value.completedTasks
    ensures TaskId(2) in r.value.skippedTasks && TaskId(2) !in r.value.completedTasks
  {
    ChainFacts();
    r := ExecuteDag(NewExecutor(), ChainDag(), [TaskId(1), TaskId(2)]);
    assert !DepsSatisfied(ChainDag(), ChainDag().nodes[TaskId(2)]) by {
      assert TaskId(1) in ChainDag().nodes[TaskId(2)].dependencies;
    }
  }

  /** With the corrected loop both tasks of the chain complete. */
  method ChainRunCorrected() returns (r: Result<DagExecutionResult, E.Error>)
    ensures r.Ok? && r.value.skippedTasks == []
    ensures TaskId(1) in r.value.completedTasks && TaskId(2) in r.value.completedTasks
  {
    ChainFacts();
    r := ExecuteDagCorrected(NewExecutor(), ChainDag(), [TaskId(1), TaskId(2)]);
  }
}
