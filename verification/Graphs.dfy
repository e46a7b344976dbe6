/** Paths and cycles of a relation on a finite set. */
module Graphs {

  ghost predicate EdgeAt<T>(edge: (T, T) -> bool, p: seq<T>, i: nat)
    requires i + 1 < |p|
  {
    edge(p[i], p[i + 1])
  }

  ghost predicate IsPath<T>(edge: (T, T) -> bool, p: seq<T>) {
    |p| >= 1 && forall i | 0 <= i < |p| - 1 :: EdgeAt(edge, p, i)
  }

  ghost predicate IsCycle<T>(edge: (T, T) -> bool, p: seq<T>) {
    |p| >= 2 && IsPath(edge, p) && p[0] == p[|p| - 1]
  }

  ghost predicate Acyclic<T(!new)>(edge: (T, T) -> bool) {
    forall p: seq<T> :: !IsCycle(edge, p)
  }

  ghost predicate Within<T>(p: seq<T>, S: set<T>) {
    forall i | 0 <= i < |p| :: p[i] in S
  }

  ghost predicate HasSuccessor<T(!new)>(edge: (T, T) -> bool, S: set<T>, x: T) {
    exists y :: y in S && edge(x, y)
  }

  /** Every element of `S` has a successor in `S`. */
  ghost predicate Stuck<T(!new)>(edge: (T, T) -> bool, S: set<T>) {
    forall x | x in S :: HasSuccessor(edge, S, x)
  }

  lemma PathExtends<T>(edge: (T, T) -> bool, q: seq<T>, y: T)
    requires IsPath(edge, q) && edge(q[|q| - 1], y)
    ensures IsPath(edge, q + [y])
  {
    forall i | 0 <= i < |q| ensures EdgeAt(edge, q + [y], i) {
      if i < |q| - 1 {
        assert EdgeAt(edge, q, i);
      }
    }
  }

  lemma Walk<T(!new)>(edge: (T, T) -> bool, S: set<T>, x: T, n: nat) returns (p: seq<T>)
    requires Stuck(edge, S) && x in S
    ensures |p| == n + 1 && IsPath(edge, p) && Within(p, S)
  {
    if n == 0 {
      p := [x];
    } else {
      var q := Walk(edge, S, x, n - 1);
      var last := q[|q| - 1];
      assert HasSuccessor(edge, S, last);
      var y :| y in S && edge(last, y);
      PathExtends(edge, q, y);
      p := q + [y];
    }
  }

  lemma DistinctCount<T>(p: seq<T>)
    requires forall i, j | 0 <= i < j < |p| :: p[i] != p[j]
    ensures |set x | x in p| == |p|
  {
    if p != [] {
      var q := p[..|p| - 1];
      DistinctCount(q);
      assert (set x | x in p) == (set x | x in q) + {p[|p| - 1]};
    }
  }

  lemma SubsetCount<T>(A: set<T>, B: set<T>)
    requires A <= B
    ensures |A| <= |B|
  {
    if A != {} {
      var x :| x in A;
      SubsetCount(A - {x}, B - {x});
    }
  }

  lemma Repeats<T(!new)>(p: seq<T>, S: set<T>) returns (i: nat, j: nat)
    requires Within(p, S) && |p| > |S|
    ensures i < j < |p| && p[i] == p[j]
  {
    if forall i, j | 0 <= i < j < |p| :: p[i] != p[j] {
      DistinctCount(p);
      SubsetCount((set x | x in p), S);
      assert false;
    }
    i, j :| 0 <= i < j < |p| && p[i] == p[j];
  }

  lemma SubPath<T>(edge: (T, T) -> bool, p: seq<T>, S: set<T>, i: nat, j: nat)
    requires IsPath(edge, p) && Within(p, S) && i < j < |p|
    ensures IsPath(edge, p[i..j + 1]) && Within(p[i..j + 1], S)
  {
    var q := p[i..j + 1];
    forall k | 0 <= k < |q| - 1 ensures EdgeAt(edge, q, k) {
      assert EdgeAt(edge, p, i + k);
    }
  }

  lemma LongPathHasCycle<T(!new)>(edge: (T, T) -> bool, p: seq<T>, S: set<T>) returns (cycle: seq<T>)
    requires IsPath(edge, p) && Within(p, S) && |p| > |S|
    ensures IsCycle(edge, cycle) && Within(cycle, S)
  {
    var i, j := Repeats(p, S);
    SubPath(edge, p, S, i, j);
    cycle := p[i..j + 1];
  }

  /** A non-empty set in which everything waits for something else of it has a cycle. */
  lemma StuckSetHasCycle<T(!new)>(edge: (T, T) -> bool, S: set<T>, x: T) returns (cycle: seq<T>)
    requires x in S && Stuck(edge, S)
    ensures IsCycle(edge, cycle) && Within(cycle, S)
  {
    var p := Walk(edge, S, x, |S|);
    cycle := LongPathHasCycle(edge, p, S);
  }
}
