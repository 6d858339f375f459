/** Cardinality facts about finite sets, maps and sequences. */
module Collections {

  /** Removing a present key shrinks a map by one entry. */
  lemma MapRemoveCard<K, V>(m: map<K, V>, k: K)
    requires k in m
    ensures |m - {k}| == |m| - 1
  {
    assert (m - {k}).Keys == m.Keys - {k};
  }

  /** A second update of the same key overrides the first. */
  lemma MapUpdateTwice<K, V>(m: map<K, V>, k: K, a: V, b: V)
    ensures m[k := a][k := b] == m[k := b]
  {
  }

  /** Adding a key and then removing it leaves the map without that key. */
  lemma MapPutRemove<K, V>(m: map<K, V>, k: K, v: V)
    ensures m[k := v] - {k} == m - {k}
  {
  }

  /** Binding a key grows a map by one entry exactly when the key was absent. */
  lemma MapUpdateCard<K, V>(m: map<K, V>, k: K, v: V)
    ensures k in m ==> |m[k := v]| == |m|
    ensures k !in m ==> |m[k := v]| == |m| + 1
  {
    if k in m {
      assert m[k := v].Keys == m.Keys;
    } else {
      assert m[k := v].Keys == m.Keys + {k};
    }
  }

  /** A subset is no larger than its superset. */
  lemma {:induction false} SubsetCard<T>(a: set<T>, b: set<T>)
    requires a <= b
    ensures |a| <= |b|
    decreases |a|
  {
    if a != {} {
      var x :| x in a;
      SubsetCard(a - {x}, b - {x});
    }
  }

  /** A strict subset is strictly smaller. */
  lemma StrictSubsetCard<T>(a: set<T>, b: set<T>)
    requires a < b
    ensures |a| < |b|
  {
    assert b - a != {};
    var x :| x in b - a;
    SubsetCard(a, b - {x});
  }

  /** The naturals below `n`. */
  function Range(n: nat): (r: set<nat>)
    ensures forall i: nat :: i in r <==> i < n
    ensures |r| == n
  {
    if n == 0 then {} else Range(n - 1) + {n - 1}
  }

  /** A set of naturals below `n` has at most `n` elements. */
  lemma BoundedSetCard(a: set<nat>, n: nat)
    requires forall x :: x in a ==> x < n
    ensures |a| <= n
  {
    SubsetCard(a, Range(n));
  }

  predicate Distinct<T(==)>(s: seq<T>) {
    forall i, j :: 0 <= i < j < |s| ==> s[i] != s[j]
  }

  /** The elements of a duplicate-free sequence are as many as its length. */
  lemma {:induction false} DistinctCard<T>(s: seq<T>)
    requires Distinct(s)
    ensures |set x | x in s| == |s|
  {
    if s != [] {
      var t := s[..|s| - 1];
      DistinctCard(t);
      assert (set x | x in s) == (set x | x in t) + {s[|s| - 1]};
      assert s[|s| - 1] !in t;
    }
  }

  /** A sequence longer than `n` of naturals below `n` repeats an element. */
  lemma Pigeonhole(s: seq<nat>, n: nat) returns (i: nat, j: nat)
    requires |s| > n
    requires forall k :: 0 <= k < |s| ==> s[k] < n
    ensures i < j < |s| && s[i] == s[j]
  {
    if Distinct(s) {
      DistinctCard(s);
      BoundedSetCard((set x | x in s), n);
      assert false;
    }
    i, j :| 0 <= i < j < |s| && s[i] == s[j];
  }

  /** Where each element of `s` sits (its last position, the only one when `s` is duplicate-free). */
  function Positions<T(==,!new)>(s: seq<T>): (m: map<T, nat>)
    ensures forall x :: x in m <==> x in s
    ensures forall x :: x in m ==> m[x] < |s|
    ensures Distinct(s) ==> forall i :: 0 <= i < |s| ==> m[s[i]] == i
    decreases |s|
  {
    if s == [] then map[]
    else
      var init := s[..|s| - 1];
      assert forall x :: x in init ==> x in s;
      assert forall i :: 0 <= i < |s| - 1 ==> init[i] == s[i];
      Positions(init)[s[|s| - 1] := |s| - 1]
  }
}
