/**
 * `find_unreachable_nodes`: a depth-first search from every root (vertex of
 * in-degree zero) with an explicit stack and a visited set, then the ids of
 * the vertices it never visited, in vertex order.
 */
module Reach {
  import opened Types
  import opened Collections
  import opened Graphs

  /** The ids of the vertices below `m` that no root reaches, in vertex order. */
  ghost function UnreachableUpTo(g: Graph, m: nat): (ids: seq<TaskId>)
    requires m <= g.Size()
    ensures forall id :: id in ids <==> exists v: nat :: v < m && g.weights[v] == id && !Reachable(g, v)
  {
    if m == 0 then []
    else
      var init := UnreachableUpTo(g, m - 1);
      if Reachable(g, m - 1) then init else init + [g.weights[m - 1]]
  }

  ghost function Unreachable(g: Graph): seq<TaskId> {
    UnreachableUpTo(g, g.Size())
  }

  /** In a ranked (hence acyclic) graph nothing is unreachable. */
  lemma RankedNoneUnreachable(g: Graph, rank: map<nat, nat>)
    requires g.Valid() && IsRanking(g, rank)
    ensures Unreachable(g) == []
  {
    RankedAllReachable(g, rank);
    NoneUnreachableUpTo(g, g.Size());
  }

  lemma {:induction false} NoneUnreachableUpTo(g: Graph, m: nat)
    requires m <= g.Size() && forall v: nat :: v < g.Size() ==> Reachable(g, v)
    ensures UnreachableUpTo(g, m) == []
  {
    if m > 0 {
      NoneUnreachableUpTo(g, m - 1);
    }
  }

  /** Every edge leaving a vertex of `visited` enters `visited` or `stack`. */
  ghost predicate ClosedUpTo(g: Graph, visited: set<nat>, stack: seq<nat>) {
    forall k :: 0 <= k < |g.edges| && g.edges[k].src in visited ==>
      g.edges[k].dst in visited || g.edges[k].dst in stack
  }

  /** Every root and every edge leaving `visited` ends in `visited` or on the stack. */
  ghost predicate Frontier(g: Graph, visited: set<nat>, stack: seq<nat>) {
    (forall r: nat :: IsRoot(g, r) ==> r in visited || r in stack) && ClosedUpTo(g, visited, stack)
  }

  /** Visiting the popped vertex and pushing its targets keeps the frontier. */
  lemma FrontierAfterVisit(g: Graph, visited: set<nat>, rest: seq<nat>, node: nat, stack': seq<nat>)
    requires Frontier(g, visited, rest + [node])
    requires forall x :: x in rest ==> x in stack'
    requires forall k :: 0 <= k < |g.edges| && g.edges[k].src == node ==> g.edges[k].dst in stack'
    ensures Frontier(g, visited + {node}, stack')
  {
    assert forall x :: x in rest + [node] ==> x == node || x in rest;
  }

  /** Popping a vertex already visited keeps the frontier. */
  lemma FrontierAfterSkip(g: Graph, visited: set<nat>, rest: seq<nat>, node: nat)
    requires Frontier(g, visited, rest + [node]) && node in visited
    ensures Frontier(g, visited, rest)
  {
    assert forall x :: x in rest + [node] ==> x == node || x in rest;
  }

  /** A visited set closed under edges and holding every root holds every reachable vertex. */
  lemma {:induction false} ClosedHoldsPaths(g: Graph, visited: set<nat>, p: seq<nat>)
    requires ClosedUpTo(g, visited, []) && IsRootPath(g, p)
    requires forall r: nat :: IsRoot(g, r) ==> r in visited
    ensures p[|p| - 1] in visited
    decreases |p|
  {
    if |p| > 1 {
      var q := p[..|p| - 1];
      assert IsRootPath(g, q) by {
        forall i | 0 <= i < |q| - 1
          ensures HasEdge(g, q[i], q[i + 1])
        {
          assert q[i] == p[i] && q[i + 1] == p[i + 1];
        }
      }
      ClosedHoldsPaths(g, visited, q);
      assert HasEdge(g, p[|p| - 2], p[|p| - 1]);
    }
  }

  /** Every listed vertex exists and is reachable. */
  ghost predicate AllReachable(g: Graph, s: seq<nat>) {
    forall i :: 0 <= i < |s| ==> s[i] < g.Size() && Reachable(g, s[i])
  }

  /** Once the stack is empty, every reachable vertex has been visited. */
  lemma FrontierComplete(g: Graph, visited: set<nat>)
    requires Frontier(g, visited, [])
    ensures forall v: nat :: Reachable(g, v) ==> v in visited
  {
    forall v: nat | Reachable(g, v)
      ensures v in visited
    {
      var p :| IsRootPath(g, p) && p[|p| - 1] == v;
      ClosedHoldsPaths(g, visited, p);
    }
  }

  /** The roots, in vertex order: the initial stack. */
  method Roots(g: Graph) returns (roots: seq<nat>)
    ensures forall i :: 0 <= i < |roots| ==> IsRoot(g, roots[i])
    ensures forall r: nat :: IsRoot(g, r) ==> r in roots
  {
    roots := [];
    for v := 0 to g.Size()
      invariant forall i :: 0 <= i < |roots| ==> IsRoot(g, roots[i])
      invariant forall r: nat :: r < v && IsRoot(g, r) ==> r in roots
    {
      if IsRoot(g, v) {
        roots := roots + [v];
      }
    }
  }

  /** Pushes the target of every edge leaving `node` onto the stack. */
  method PushTargets(g: Graph, node: nat, stack: seq<nat>, ghost path: seq<nat>) returns (stack': seq<nat>)
    requires g.Valid() && IsRootPath(g, path) && path[|path| - 1] == node
    requires AllReachable(g, stack)
    ensures AllReachable(g, stack')
    ensures forall x :: x in stack ==> x in stack'
    ensures forall k :: 0 <= k < |g.edges| && g.edges[k].src == node ==> g.edges[k].dst in stack'
  {
    stack' := stack;
    for k := 0 to |g.edges|
      invariant forall i :: 0 <= i < |stack'| ==> stack'[i] < g.Size() && Reachable(g, stack'[i])
      invariant forall x :: x in stack ==> x in stack'
      invariant forall k' :: 0 <= k' < k && g.edges[k'].src == node ==> g.edges[k'].dst in stack'
    {
      if g.edges[k].src == node {
        var t := g.edges[k].dst;
        assert HasEdge(g, node, t);
        PathExtend(g, path, t);
        assert IsRootPath(g, path + [t]);
        stack' := stack' + [t];
      }
    }
  }

  /** What the search keeps true between two pops of the stack. */
  ghost predicate DfsInvariant(g: Graph, visited: set<nat>, stack: seq<nat>) {
    AllReachable(g, stack) &&
    (forall v :: v in visited ==> v < g.Size() && Reachable(g, v)) &&
    Frontier(g, visited, stack) &&
    |visited| <= g.Size()
  }

  /** Marking the popped vertex after pushing its targets keeps the invariant. */
  lemma MarkKeepsInvariant(g: Graph, visited: set<nat>, rest: seq<nat>, node: nat, stack': seq<nat>)
    requires DfsInvariant(g, visited, rest + [node]) && node !in visited
    requires AllReachable(g, stack')
    requires forall x :: x in rest ==> x in stack'
    requires forall k :: 0 <= k < |g.edges| && g.edges[k].src == node ==> g.edges[k].dst in stack'
    ensures DfsInvariant(g, visited + {node}, stack') && |visited + {node}| > |visited|
  {
    assert (rest + [node])[|rest|] == node;
    FrontierAfterVisit(g, visited, rest, node, stack');
    BoundedSetCard(visited + {node}, g.Size());
  }

  /** Dropping a popped vertex already visited keeps the invariant. */
  lemma SkipKeepsInvariant(g: Graph, visited: set<nat>, rest: seq<nat>, node: nat)
    requires DfsInvariant(g, visited, rest + [node]) && node in visited
    ensures DfsInvariant(g, visited, rest)
  {
    FrontierAfterSkip(g, visited, rest, node);
    assert forall i :: 0 <= i < |rest| ==> rest[i] == (rest + [node])[i];
  }

  /** The top of a stack of reachable vertices is reachable, and so is the rest. */
  lemma PopSplit(g: Graph, stack: seq<nat>)
    requires stack != [] && AllReachable(g, stack)
    ensures stack == stack[..|stack| - 1] + [stack[|stack| - 1]]
    ensures AllReachable(g, stack[..|stack| - 1]) && Reachable(g, stack[|stack| - 1])
  {
    var rest := stack[..|stack| - 1];
    assert forall i :: 0 <= i < |rest| ==> rest[i] == stack[i];
  }

  /**
   * One pop of the search: a vertex not yet visited is marked and its targets
   * pushed; a visited one is dropped. Either the visited set grows or it
   * stays and the stack shrinks.
   */
  method DfsStep(g: Graph, visited: set<nat>, stack: seq<nat>) returns (visited': set<nat>, stack': seq<nat>)
    requires g.Valid() && stack != [] && DfsInvariant(g, visited, stack)
    ensures DfsInvariant(g, visited', stack')
    ensures |visited'| > |visited| || (visited' == visited && |stack'| < |stack|)
  {
    var node := stack[|stack| - 1];
    var rest := stack[..|stack| - 1];
    PopSplit(g, stack);
    if node !in visited {
      ghost var path :| IsRootPath(g, path) && path[|path| - 1] == node;
      stack' := PushTargets(g, node, rest, path);
      MarkKeepsInvariant(g, visited, rest, node, stack');
      visited' := visited + {node};
    } else {
      SkipKeepsInvariant(g, visited, rest, node);
      visited', stack' := visited, rest;
    }
  }

  /** The depth-first search: afterwards `visited` holds exactly the reachable vertices. */
  method Visit(g: Graph) returns (visited: set<nat>)
    requires g.Valid()
    ensures forall v: nat :: v < g.Size() ==> (v in visited <==> Reachable(g, v))
  {
    visited := {};
    var stack: seq<nat> := Roots(g);
    forall i | 0 <= i < |stack|
      ensures Reachable(g, stack[i])
    {
      assert IsRootPath(g, [stack[i]]);
    }
    while stack != []
      invariant DfsInvariant(g, visited, stack)
      decreases g.Size() - |visited|, |stack|
    {
      visited, stack := DfsStep(g, visited, stack);
    }
    FrontierComplete(g, visited);
  }

  /**
   * `find_unreachable_nodes`: answers exactly the ids of the vertices that no
   * root reaches, in vertex order.
   */
  method FindUnreachable(g: Graph) returns (unreachable: seq<TaskId>)
    requires g.Valid()
    ensures unreachable == Unreachable(g)
  {
    var visited := Visit(g);
    unreachable := [];
    for v := 0 to g.Size()
      invariant unreachable == UnreachableUpTo(g, v)
    {
      if v !in visited {
        unreachable := unreachable + [g.weights[v]];
      }
    }
  }
}
