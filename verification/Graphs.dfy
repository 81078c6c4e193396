/**
 Finite directed graphs, walks and cycles: the vocabulary in which the sorting and
 cycle-finding algorithms are specified.  Nothing here depends on an algorithm.
 */
module Graphs {
  import opened Basics

  datatype Graph<T> = Graph(nodes: set<T>, edges: set<(T, T)>)

  ghost predicate WellFormed<T>(g: Graph<T>) {
    forall e :: e in g.edges ==> e.0 in g.nodes && e.1 in g.nodes
  }

  ghost function Elements<T>(s: seq<T>): set<T> {
    set x | x in s
  }

  /** `s` lists every member of `S` exactly once. */
  ghost predicate Enumerates<T>(s: seq<T>, S: set<T>) {
    NoDup(s) && Elements(s) == S
  }

  ghost predicate IsWalk<T>(E: set<(T, T)>, w: seq<T>) {
    forall i :: 0 <= i < |w| - 1 ==> (w[i], w[i + 1]) in E
  }

  /** A closed walk; the last node is a parent of the first one. */
  ghost predicate IsCycle<T>(E: set<(T, T)>, c: seq<T>) {
    |c| > 0 && IsWalk(E, c) && (c[|c| - 1], c[0]) in E
  }

  ghost predicate IsSimpleCycle<T>(E: set<(T, T)>, c: seq<T>) {
    IsCycle(E, c) && NoDup(c)
  }

  ghost predicate Acyclic<T(!new)>(E: set<(T, T)>) {
    forall c: seq<T> :: !IsCycle(E, c)
  }

  lemma {:induction false} Pigeonhole<T>(s: seq<T>, S: set<T>)
    requires NoDup(s)
    requires forall x :: x in s ==> x in S
    ensures |s| <= |S|
  {
    if s != [] {
      var last := s[|s| - 1];
      var front := s[..|s| - 1];
      forall x | x in front ensures x in S - {last} { assert x in s; }
      Pigeonhole(front, S - {last});
    }
  }

  lemma SubsetSize<T>(A: set<T>, B: set<T>)
    requires A <= B
    ensures |A| <= |B|
  {
    assert B == A + (B - A);
  }

  lemma AppendFresh<T>(s: seq<T>, x: T)
    requires NoDup(s) && x !in s
    ensures NoDup(s + [x]) && Elements(s + [x]) == Elements(s) + {x}
  {
  }

  lemma {:induction false} EnumerationSize<T>(s: seq<T>)
    requires NoDup(s)
    ensures |Elements(s)| == |s|
  {
    if s != [] {
      var last := s[|s| - 1];
      var front := s[..|s| - 1];
      EnumerationSize(front);
      assert s == front + [last];
      assert Elements(s) == Elements(front) + {last};
      assert last !in front;
    }
  }

  lemma SubWalk<T>(E: set<(T, T)>, w: seq<T>, i: nat, j: nat)
    requires IsWalk(E, w) && i <= j <= |w|
    ensures IsWalk(E, w[i..j])
  {
  }

  /** A walk that stays inside `U` and is longer than `U` has room closes a cycle inside `U`. */
  lemma LongWalkCloses<T(!new)>(E: set<(T, T)>, w: seq<T>, U: set<T>)
    requires IsWalk(E, w) && |w| > |U|
    requires forall x :: x in w ==> x in U
    ensures exists c :: IsCycle(E, c) && Elements(c) <= U
  {
    if NoDup(w) {
      Pigeonhole(w, U);
      assert false;
    }
    var i, j :| 0 <= i < j < |w| && w[i] == w[j];
    var c := w[i..j];
    SubWalk(E, w, i, j);
    assert (w[j - 1], w[j - 1 + 1]) in E;
    forall x | x in c ensures x in U { assert x in w; }
    assert IsCycle(E, c) && Elements(c) <= U;
  }

  /** Two enumerations of one set are permutations of each other. */
  lemma {:induction false} EnumerationsPermute<T>(s: seq<T>, t: seq<T>)
    requires NoDup(s) && NoDup(t) && Elements(s) == Elements(t)
    ensures multiset(s) == multiset(t)
  {
    forall x ensures multiset(s)[x] == multiset(t)[x] {
      NoDupCount(s, x);
      NoDupCount(t, x);
      assert x in s <==> x in Elements(s);
      assert x in t <==> x in Elements(t);
    }
  }

  lemma {:induction false} NoDupCount<T>(s: seq<T>, x: T)
    requires NoDup(s)
    ensures multiset(s)[x] == if x in s then 1 else 0
  {
    if s != [] {
      var front := s[..|s| - 1];
      assert s == front + [s[|s| - 1]];
      NoDupCount(front, x);
    }
  }
}
