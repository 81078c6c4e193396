/**
 The two dependency sorts: `topsort`, which consumes its answer while it grows, and
 `topsort_levels`, which peels one level at a time.
 */
module Topsort {
  import opened Basics
  import opened Graphs

  // ----- Specification -----------------------------------------------------------

  ghost function GraphOf<T>(pairs: seq<(T, T)>): Graph<T> {
    Graph((set e | e in pairs :: e.0) + (set e | e in pairs :: e.1), Elements(pairs))
  }

  ghost predicate ParentsIn<T>(g: Graph<T>, x: T, S: set<T>) {
    forall e :: e in g.edges && e.1 == x ==> e.0 in S
  }

  /** The nodes all of whose parents are in `S`. */
  ghost function Free<T>(g: Graph<T>, S: set<T>): set<T> {
    set x | x in g.nodes && ParentsIn(g, x, S)
  }

  /** What is gone after `n` rounds of removing, at once, every node without a remaining parent. */
  ghost function Peeled<T>(g: Graph<T>, n: nat): set<T> {
    if n == 0 then {} else Free(g, Peeled(g, n - 1))
  }

  ghost function Level<T>(g: Graph<T>, n: nat): set<T> {
    Peeled(g, n + 1) - Peeled(g, n)
  }

  lemma {:induction false} PeeledGrows<T>(g: Graph<T>, m: nat, n: nat)
    requires m <= n
    ensures Peeled(g, m) <= Peeled(g, n) <= g.nodes
  {
    if m > 0 {
      PeeledGrows(g, m - 1, n - 1);
    }
  }

  lemma {:induction false} PeeledFixpoint<T>(g: Graph<T>, m: nat, n: nat)
    requires m <= n && Peeled(g, m + 1) == Peeled(g, m)
    ensures Peeled(g, n) == Peeled(g, m)
  {
    if m < n {
      PeeledFixpoint(g, m, n - 1);
    }
  }

  /** `c` is a chain of ancestors of `x`: a walk that ends in `x`. */
  ghost predicate ChainTo<T>(g: Graph<T>, c: seq<T>, x: T) {
    |c| > 0 && c[|c| - 1] == x && IsWalk(g.edges, c)
  }

  /** A node is peeled within `n` rounds exactly when no ancestor chain to it has `n` edges. */
  lemma {:induction false} PeeledIffNoLongChain<T(!new)>(g: Graph<T>, n: nat, x: T)
    requires WellFormed(g) && x in g.nodes
    ensures x in Peeled(g, n) <==> !exists c :: ChainTo(g, c, x) && |c| == n + 1
  {
    if n == 0 {
      assert ChainTo(g, [x], x);
    } else if x in Peeled(g, n) {
      forall c | ChainTo(g, c, x) && |c| == n + 1 ensures false {
        var p := c[n - 1];
        assert (c[n - 1], c[n - 1 + 1]) in g.edges;
        PeeledIffNoLongChain(g, n - 1, p);
        assert ChainTo(g, c[..n], p);
      }
    } else {
      var e :| e in g.edges && e.1 == x && e.0 !in Peeled(g, n - 1);
      PeeledIffNoLongChain(g, n - 1, e.0);
      var c :| ChainTo(g, c, e.0) && |c| == n;
      assert ChainTo(g, c + [x], x);
    }
  }

  /** The depth level of a node is the length of its longest ancestor chain. */
  lemma LevelIsLongestChain<T(!new)>(g: Graph<T>, n: nat, x: T)
    requires WellFormed(g) && x in g.nodes
    ensures x in Level(g, n) <==>
            (exists c :: ChainTo(g, c, x) && |c| == n + 1) && forall c :: ChainTo(g, c, x) ==> |c| <= n + 1
  {
    PeeledIffNoLongChain(g, n, x);
    PeeledIffNoLongChain(g, n + 1, x);
    if x in Peeled(g, n + 1) {
      forall c | ChainTo(g, c, x) ensures |c| <= n + 1 {
        if |c| > n + 1 {
          assert ChainTo(g, c[|c| - n - 2..], x);
        }
      }
    }
  }

  /** Every node past level 0 has a parent in the level just before, and no parent later than that. */
  lemma LevelParents<T>(g: Graph<T>, n: nat, x: T)
    requires WellFormed(g) && x in Level(g, n)
    ensures forall p :: (p, x) in g.edges ==> p in Peeled(g, n)
    ensures n > 0 ==> exists p :: p in Level(g, n - 1) && (p, x) in g.edges
  {
  }

  ghost predicate HasParentIn<T(!new)>(g: Graph<T>, x: T, U: set<T>) {
    exists p :: p in U && (p, x) in g.edges
  }

  /** Every node of `U` has a parent in `U`. */
  ghost predicate Stuck<T(!new)>(g: Graph<T>, U: set<T>) {
    forall x {:trigger HasParentIn(g, x, U)} :: x in U ==> HasParentIn(g, x, U)
  }

  /** `x` is on a cycle or below one. */
  ghost predicate BelowCycle<T(!new)>(g: Graph<T>, x: T) {
    exists c, w :: IsCycle(g.edges, c) && ChainTo(g, w, x) && w[0] == c[0]
  }

  lemma StuckIsBelowCycle<T(!new)>(g: Graph<T>, U: set<T>, x: T)
    requires Stuck(g, U) && x in U
    ensures BelowCycle(g, x)
  {
    var w := WalkBack(g, U, x, |U| + 1);
    assert !NoDup(w) by { if NoDup(w) { Pigeonhole(w, U); } }
    var i, j :| 0 <= i < j < |w| && w[i] == w[j];
    assert (w[j - 1], w[j - 1 + 1]) in g.edges;
    SubWalk(g.edges, w, i, j);
    SubWalk(g.edges, w, i, |w|);
    assert IsCycle(g.edges, w[i..j]) && ChainTo(g, w[i..|w|], x) && w[i..|w|][0] == w[i..j][0];
  }

  /** What peeling never removes is exactly what lies on a cycle or below one. */
  lemma NeverPeeledIffBelowCycle<T(!new)>(g: Graph<T>, n: nat, x: T)
    requires WellFormed(g) && Peeled(g, n) == Peeled(g, n + 1) && x in g.nodes
    ensures x !in Peeled(g, n) <==> BelowCycle(g, x)
  {
    if x !in Peeled(g, n) {
      RestIsStuck(g, Peeled(g, n));
      StuckIsBelowCycle(g, g.nodes - Peeled(g, n), x);
    } else if BelowCycle(g, x) {
      var c, w :| IsCycle(g.edges, c) && ChainTo(g, w, x) && w[0] == c[0];
      CycleNeverPeeled(g, c, n);
      UnpeeledBelow(g, w, n);
    }
  }

  lemma {:induction false} UnpeeledBelow<T>(g: Graph<T>, w: seq<T>, n: nat)
    requires IsWalk(g.edges, w) && |w| > 0 && Peeled(g, n) == Peeled(g, n + 1) && w[0] !in Peeled(g, n)
    ensures w[|w| - 1] !in Peeled(g, n)
  {
    if |w| > 1 {
      UnpeeledBelow(g, w[..|w| - 1], n);
      assert (w[|w| - 2], w[|w| - 2 + 1]) in g.edges;
    }
  }

  lemma StuckHasCycle<T(!new)>(g: Graph<T>, U: set<T>)
    requires U != {} && Stuck(g, U)
    ensures exists c :: IsCycle(g.edges, c) && Elements(c) <= U
  {
    var x :| x in U;
    var w := WalkBack(g, U, x, |U| + 1);
    LongWalkCloses(g.edges, w, U);
  }

  lemma {:induction false} WalkBack<T(!new)>(g: Graph<T>, U: set<T>, x: T, n: nat) returns (w: seq<T>)
    requires x in U && n > 0 && Stuck(g, U)
    ensures ChainTo(g, w, x) && |w| == n && forall y :: y in w ==> y in U
  {
    if n == 1 {
      w := [x];
    } else {
      assert HasParentIn(g, x, U);
      var p :| p in U && (p, x) in g.edges;
      w := WalkBack(g, U, p, n - 1);
      w := w + [x];
    }
  }

  lemma {:induction false} CycleNeverPeeled<T>(g: Graph<T>, c: seq<T>, n: nat)
    requires IsCycle(g.edges, c)
    ensures forall i :: 0 <= i < |c| ==> c[i] !in Peeled(g, n)
  {
    if n > 0 {
      CycleNeverPeeled(g, c, n - 1);
      forall i | 0 <= i < |c| ensures c[i] !in Peeled(g, n) {
        var p := if i == 0 then c[|c| - 1] else c[i - 1];
        assert (p, c[i]) in g.edges by {
          if i > 0 { assert (c[i - 1], c[i - 1 + 1]) in g.edges; }
        }
      }
    }
  }

  // ----- The tables the algorithms work on ------------------------------------------

  /** The children of `p`, in the order of the pair list, with repetitions. */
  function ChildList<T(==)>(pairs: seq<(T, T)>, p: T): (l: seq<T>) {
    if pairs == [] then [] else
    var e := pairs[|pairs| - 1];
    ChildList(pairs[..|pairs| - 1], p) + if e.0 == p then [e.1] else []
  }

  /** How many pairs give `x` a parent outside `gone`. */
  ghost function ParentCount<T>(pairs: seq<(T, T)>, gone: set<T>, x: T): nat {
    if pairs == [] then 0 else
    var e := pairs[|pairs| - 1];
    ParentCount(pairs[..|pairs| - 1], gone, x) + if e.1 == x && e.0 !in gone then 1 else 0
  }

  /** `numParents` and `children` describe exactly the part of the graph outside `gone`. */
  ghost predicate Tables<T>(g: Graph<T>, pairs: seq<(T, T)>, gone: set<T>,
                            numParents: map<T, int>, children: map<T, seq<T>>)
  {
    && g.edges == Elements(pairs)
    && numParents.Keys == g.nodes - gone
    && children.Keys <= g.nodes - gone
    && (forall x :: x in numParents ==> numParents[x] == ParentCount(pairs, gone, x))
    && (forall p :: p in children ==> children[p] == ChildList(pairs, p))
    && (forall p :: p in g.nodes - gone && p !in children ==> ChildList(pairs, p) == [])
  }

  /** Children are listed in pair order, as often as they occur. */
  lemma {:induction false} ChildListConcat<T>(a: seq<(T, T)>, b: seq<(T, T)>, p: T, x: T, y: T)
    ensures ChildList([(x, y)], p) == if x == p then [y] else []
    ensures ChildList(a + b, p) == ChildList(a, p) + ChildList(b, p)
    decreases |b|
  {
    if b == [] {
      assert a + b == a;
    } else {
      var n := |b| - 1;
      assert (a + b)[..|a + b| - 1] == a + b[..n];
      ChildListConcat(a, b[..n], p, x, y);
    }
  }

  /** The pairs among the first `n` that give `x` a parent outside `gone`. */
  ghost function ParentPairs<T>(pairs: seq<(T, T)>, n: nat, gone: set<T>, x: T): set<int>
    requires n <= |pairs|
  {
    set i | 0 <= i < n && pairs[i].1 == x && pairs[i].0 !in gone
  }

  /** The count of a node is the number of its pairs. */
  lemma {:induction false} ParentCountIs<T>(pairs: seq<(T, T)>, n: nat, gone: set<T>, x: T)
    requires n <= |pairs|
    ensures ParentCount(pairs[..n], gone, x) == |ParentPairs(pairs, n, gone, x)|
  {
    if n > 0 {
      ParentCountIs(pairs, n - 1, gone, x);
      assert pairs[..n][..n - 1] == pairs[..n - 1];
      assert ParentPairs(pairs, n, gone, x)
          == ParentPairs(pairs, n - 1, gone, x) + if pairs[n - 1].1 == x && pairs[n - 1].0 !in gone then {n - 1} else {};
    }
  }

  lemma {:induction false} ChildListMembers<T>(pairs: seq<(T, T)>, p: T, x: T)
    ensures x in ChildList(pairs, p) <==> (p, x) in pairs
  {
    if pairs != [] {
      var e := pairs[|pairs| - 1];
      assert pairs == pairs[..|pairs| - 1] + [e];
      ChildListMembers(pairs[..|pairs| - 1], p, x);
    }
  }

  lemma {:induction false} ParentCountZero<T>(pairs: seq<(T, T)>, gone: set<T>, x: T)
    ensures ParentCount(pairs, gone, x) == 0 <==> forall e :: e in pairs && e.1 == x ==> e.0 in gone
  {
    if pairs != [] {
      var e := pairs[|pairs| - 1];
      assert pairs == pairs[..|pairs| - 1] + [e];
      ParentCountZero(pairs[..|pairs| - 1], gone, x);
    }
  }

  /** Removing `p` takes from each count as many as `p` lists that child. */
  lemma {:induction false} ParentCountStep<T>(pairs: seq<(T, T)>, gone: set<T>, p: T, x: T)
    requires p !in gone
    ensures ParentCount(pairs, gone, x) == ParentCount(pairs, gone + {p}, x) + multiset(ChildList(pairs, p))[x]
  {
    if pairs != [] {
      ParentCountStep(pairs[..|pairs| - 1], gone, p, x);
    }
  }

  /** The zero entries of the count table are the nodes that are free but not gone. */
  lemma ZeroEntries<T>(g: Graph<T>, pairs: seq<(T, T)>, gone: set<T>, numParents: map<T, int>, children: map<T, seq<T>>)
    requires Tables(g, pairs, gone, numParents, children)
    ensures (set x | x in numParents && numParents[x] == 0) == Free(g, gone) - gone
  {
    forall x | x in numParents ensures numParents[x] == 0 <==> ParentsIn(g, x, gone) {
      ParentCountZero(pairs, gone, x);
    }
  }

  /** No decrement made for a free node `p` touches a deleted key or goes below zero. */
  lemma ChildrenPresent<T>(g: Graph<T>, pairs: seq<(T, T)>, gone: set<T>, p: T,
                           numParents: map<T, int>, children: map<T, seq<T>>)
    requires WellFormed(g) && Tables(g, pairs, gone, numParents, children)
    requires gone <= Free(g, gone) && p in Free(g, gone) - gone
    ensures forall x :: x in ChildList(pairs, p) ==> x in numParents - {p} && numParents[x] >= multiset(ChildList(pairs, p))[x]
  {
    forall x | x in ChildList(pairs, p)
      ensures x in numParents - {p} && numParents[x] >= multiset(ChildList(pairs, p))[x]
    {
      ChildListMembers(pairs, p, x);
      assert (p, x) in g.edges;
      ParentCountStep(pairs, gone, p, x);
    }
  }

  /** Deleting `p` and counting down its children gives the tables with `p` gone. */
  lemma TablesStep<T>(g: Graph<T>, pairs: seq<(T, T)>, gone: set<T>, p: T,
                      numParents: map<T, int>, children: map<T, seq<T>>, numParents': map<T, int>)
    requires Tables(g, pairs, gone, numParents, children) && p in g.nodes - gone
    requires numParents'.Keys == numParents.Keys - {p}
    requires forall x :: x in numParents' ==> numParents'[x] == numParents[x] - multiset(ChildList(pairs, p))[x]
    ensures Tables(g, pairs, gone + {p}, numParents', children - {p})
  {
    forall x | x in numParents' ensures numParents'[x] == ParentCount(pairs, gone + {p}, x) {
      ParentCountStep(pairs, gone, p, x);
    }
  }

  // ----- The algorithms ----------------------------------------------------------------

  datatype SortResult<T> =
    | Sorted(answer: seq<T>)
    | CycleError(answer: seq<T>, numParents: map<T, int>, children: map<T, seq<T>>)

  datatype LevelsResult<T> =
    | AllLevels(levels: seq<seq<T>>)
    | LevelsThenCycle(levels: seq<seq<T>>, numParents: map<T, int>, children: map<T, seq<T>>)

  /** As the loops over a pair list leave it: a key of `children` has a child. */
  ghost predicate NoEmptyLists<T>(children: map<T, seq<T>>) {
    forall p :: p in children ==> children[p] != []
  }

  /** The loop that fills both tables from the pair list. */
  method BuildTables<T(==)>(pairs: seq<(T, T)>) returns (numParents: map<T, int>, children: map<T, seq<T>>)
    ensures Tables(GraphOf(pairs), pairs, {}, numParents, children)
    ensures NoEmptyLists(children)
  {
    numParents, children := map[], map[];
    for i := 0 to |pairs|
      invariant Tables(GraphOf(pairs[..i]), pairs[..i], {}, numParents, children)
      invariant NoEmptyLists(children)
    {
      var (parent, child) := pairs[i];
      ghost var oldCounts, oldChildren := numParents, children;
      if parent !in numParents {
        numParents := numParents[parent := 0];
      }
      if child !in numParents {
        numParents := numParents[child := 0];
      }
      numParents := numParents[child := numParents[child] + 1];
      if parent !in children {
        children := children[parent := []];
      }
      children := children[parent := children[parent] + [child]];
      assert pairs[..i + 1] == pairs[..i] + [pairs[i]];
      AddPair(pairs[..i], parent, child, oldCounts, oldChildren, numParents, children);
    }
    assert pairs[..|pairs|] == pairs;
  }

  lemma AddPair<T>(front: seq<(T, T)>, parent: T, child: T, numParents: map<T, int>, children: map<T, seq<T>>,
                   numParents': map<T, int>, children': map<T, seq<T>>)
    requires Tables(GraphOf(front), front, {}, numParents, children)
    requires numParents'.Keys == numParents.Keys + {parent, child}
    requires forall x :: x in numParents' ==>
               numParents'[x] == (if x in numParents then numParents[x] else 0) + if x == child then 1 else 0
    requires children'.Keys == children.Keys + {parent}
    requires forall p :: p in children' ==>
               children'[p] == (if p in children then children[p] else []) + if p == parent then [child] else []
    ensures Tables(GraphOf(front + [(parent, child)]), front + [(parent, child)], {}, numParents', children')
  {
    var pairs := front + [(parent, child)];
    assert pairs[..|pairs| - 1] == front;
    assert GraphOf(pairs).nodes == GraphOf(front).nodes + {parent, child};
    forall x | x in numParents' ensures numParents'[x] == ParentCount(pairs, {}, x) {
      OutsideGraph(front, x);
    }
    forall p | p in GraphOf(pairs).nodes
      ensures if p in children' then children'[p] == ChildList(pairs, p) else ChildList(pairs, p) == []
    {
      OutsideGraph(front, p);
    }
  }

  /** A node outside the graph of `pairs` has neither parents nor children there. */
  lemma OutsideGraph<T>(pairs: seq<(T, T)>, x: T)
    ensures x !in GraphOf(pairs).nodes ==> ParentCount(pairs, {}, x) == 0 && ChildList(pairs, x) == []
  {
  }

  /** The keys with count zero, in whatever order the dictionary lists its keys. */
  method ParentlessKeys<T(==)>(numParents: map<T, int>) returns (l: seq<T>)
    ensures Enumerates(l, set x | x in numParents && numParents[x] == 0)
  {
    l := [];
    var rest := numParents.Keys;
    while rest != {}
      invariant rest <= numParents.Keys
      invariant Enumerates(l, set x | x in numParents && x !in rest && numParents[x] == 0)
      decreases |rest|
    {
      var k :| k in rest;
      rest := rest - {k};
      if numParents[k] == 0 {
        assert k !in Elements(l);
        AppendFresh(l, k);
        l := l + [k];
      }
    }
  }

  lemma CountPrefix<T>(list: seq<T>, j: nat, x: T)
    requires j < |list|
    ensures multiset(list[..j + 1])[x] == multiset(list[..j])[x] + if x == list[j] then 1 else 0
    ensures multiset(list[..j + 1])[x] <= multiset(list)[x]
    ensures x in list[..j + 1] <==> x in list[..j] || x == list[j]
  {
    assert list[..j + 1] == list[..j] + [list[j]];
    assert list == list[..j + 1] + list[j + 1..];
  }

  /** The decrement loop of the level sort. */
  method CountDown<T(==)>(numParents: map<T, int>, list: seq<T>) returns (r: map<T, int>)
    requires forall x :: x in list ==> x in numParents
    ensures r.Keys == numParents.Keys
    ensures forall x :: x in r ==> r[x] == numParents[x] - multiset(list)[x]
  {
    r := numParents;
    for j := 0 to |list|
      invariant r.Keys == numParents.Keys
      invariant forall x :: x in r ==> r[x] == numParents[x] - multiset(list[..j])[x]
    {
      forall x { CountPrefix(list, j, x); }
      r := r[list[j] := r[list[j]] - 1];
    }
    assert list[..|list|] == list;
  }

  /** The decrement loop of the single-list sort, which also appends each child that reaches zero. */
  method CountDownAndAppend<T(==)>(numParents: map<T, int>, list: seq<T>, answer: seq<T>)
    returns (r: map<T, int>, answer': seq<T>)
    requires forall x :: x in list ==> x in numParents && numParents[x] >= multiset(list)[x]
    requires NoDup(answer) && forall x :: x in list ==> x !in answer
    ensures r.Keys == numParents.Keys
    ensures forall x :: x in r ==> r[x] == numParents[x] - multiset(list)[x]
    ensures answer <= answer' && NoDup(answer')
    ensures forall x :: x in answer' <==> x in answer || (x in list && r[x] == 0)
  {
    r, answer' := numParents, answer;
    for j := 0 to |list|
      invariant r.Keys == numParents.Keys
      invariant forall x :: x in r ==> r[x] == numParents[x] - multiset(list[..j])[x]
      invariant answer <= answer' && NoDup(answer')
      invariant forall x :: x in answer' <==> x in answer || (x in list[..j] && r[x] == 0)
    {
      var child := list[j];
      forall x { CountPrefix(list, j, x); }
      assert child in list && r[child] > 0;
      r := r[child := r[child] - 1];
      if r[child] == 0 {
        AppendFresh(answer', child);
        answer' := answer' + [child];
      }
    }
    assert list[..|list|] == list;
  }

  /** For every `n`, the first entries of `answer` are exactly the first `n` levels. */
  ghost predicate CutAt<T>(g: Graph<T>, answer: seq<T>, n: nat) {
    |Peeled(g, n)| <= |answer| && Elements(answer[..|Peeled(g, n)|]) == Peeled(g, n)
  }

  lemma FreeMonotone<T>(g: Graph<T>, S: set<T>, S': set<T>)
    requires S <= S'
    ensures Free(g, S) <= Free(g, S')
  {
  }

  /** What a peeling that has come to rest leaves is stuck ... */
  lemma RestIsStuck<T(!new)>(g: Graph<T>, P: set<T>)
    requires WellFormed(g) && P == Free(g, P)
    ensures Stuck(g, g.nodes - P)
  {
  }

  /** ... and nothing is left exactly when there is no cycle. */
  lemma AtRest<T(!new)>(g: Graph<T>, n: nat)
    requires WellFormed(g) && Peeled(g, n + 1) == Peeled(g, n)
    ensures Peeled(g, n) == g.nodes <==> Acyclic(g.edges)
    ensures Stuck(g, g.nodes - Peeled(g, n))
    ensures Peeled(g, n) != g.nodes ==> exists c :: IsCycle(g.edges, c) && Elements(c) <= g.nodes - Peeled(g, n)
  {
    var P := Peeled(g, n);
    RestIsStuck(g, P);
    PeeledGrows(g, n, n);
    if P != g.nodes {
      var x :| x in g.nodes && x !in P;
      assert x in g.nodes - P;
      StuckHasCycle(g, g.nodes - P);
    } else {
      forall c ensures !IsCycle(g.edges, c) {
        if IsCycle(g.edges, c) {
          CycleNeverPeeled(g, c, n);
        }
      }
    }
  }

  /** One turn of the single-list loop: `p` has been removed and its freed children appended. */
  lemma FreeStep<T>(g: Graph<T>, pairs: seq<(T, T)>, gone: set<T>, p: T, answer: seq<T>, answer': seq<T>,
                    numParents: map<T, int>, children: map<T, seq<T>>, numParents': map<T, int>)
    requires Tables(g, pairs, gone, numParents, children) && p in Free(g, gone) - gone
    requires Tables(g, pairs, gone + {p}, numParents', children - {p})
    requires forall x :: x in numParents' ==> numParents'[x] == numParents[x] - multiset(ChildList(pairs, p))[x]
    requires gone <= Free(g, gone) == Elements(answer)
    requires forall x :: x in ChildList(pairs, p) ==> x in numParents'
    requires forall x :: x in answer' <==> x in answer || (x in ChildList(pairs, p) && numParents'[x] == 0)
    ensures Elements(answer') == Free(g, gone + {p})
  {
    ZeroEntries(g, pairs, gone, numParents, children);
    ZeroEntries(g, pairs, gone + {p}, numParents', children - {p});
    FreeMonotone(g, gone, gone + {p});
    hide Free, ParentCount, ChildList;
    var zeros := set x | x in numParents && numParents[x] == 0;
    var zeros' := set x | x in numParents' && numParents'[x] == 0;
    assert zeros == Free(g, gone) - gone && zeros' == Free(g, gone + {p}) - (gone + {p});
    forall x ensures x in Elements(answer') <==> x in Free(g, gone + {p}) {
      assert x in answer <==> x in Elements(answer);
      assert x in numParents' && numParents'[x] == 0 <==> x in zeros';
      assert x in numParents && numParents[x] == 0 <==> x in zeros;
    }
  }

  /** The node about to be visited is free, new, and belongs to the level being consumed. */
  lemma NextInAnswer<T>(g: Graph<T>, answer: seq<T>, i: nat, gone: set<T>, depth: nat)
    requires i < |answer| && NoDup(answer) && gone == Elements(answer[..i])
    requires gone < Peeled(g, depth + 1) && CutAt(g, answer, depth + 1)
    ensures answer[i] !in gone && answer[i] in Peeled(g, depth + 1) && gone <= Elements(answer)
  {
  }

  /** A child of a node not yet gone is not free, so it is not in the answer. */
  lemma NotYetListed<T>(g: Graph<T>, pairs: seq<(T, T)>, gone: set<T>, p: T, answer: seq<T>)
    requires g.edges == Elements(pairs) && Elements(answer) == Free(g, gone) && p !in gone
    ensures forall x :: x in ChildList(pairs, p) ==> x !in answer
  {
    forall x | x in ChildList(pairs, p) ensures x !in answer {
      ChildListMembers(pairs, p, x);
      assert (p, x) in g.edges;
      assert x !in Elements(answer);
    }
  }

  /** The invariant of the loop over the growing answer, `i` nodes in and `depth` levels down. */
  ghost predicate SortInv<T>(g: Graph<T>, pairs: seq<(T, T)>, answer: seq<T>, i: nat, depth: nat,
                             numParents: map<T, int>, children: map<T, seq<T>>)
  {
    && i <= |answer| && NoDup(answer)
    && Tables(g, pairs, Elements(answer[..i]), numParents, children)
    && Elements(answer) == Free(g, Elements(answer[..i]))
    && Peeled(g, depth) <= Elements(answer[..i]) <= Peeled(g, depth + 1)
    && forall n :: 0 <= n <= depth + 1 ==> CutAt(g, answer, n)
  }

  lemma SortInvStart<T>(g: Graph<T>, pairs: seq<(T, T)>, answer: seq<T>, numParents: map<T, int>, children: map<T, seq<T>>)
    requires Tables(g, pairs, {}, numParents, children)
    requires Enumerates(answer, set x | x in numParents && numParents[x] == 0)
    ensures SortInv(g, pairs, answer, 0, 0, numParents, children)
  {
    ZeroEntries(g, pairs, {}, numParents, children);
    EnumerationSize(answer);
    assert answer[..|answer|] == answer && Elements(answer[..0]) == {};
    assert Peeled(g, 0 + 1) == Free(g, {});
  }

  /** When a level has been used up, the rest of the answer is the next one. */
  lemma SortInvDeepen<T>(g: Graph<T>, pairs: seq<(T, T)>, answer: seq<T>, i: nat, depth: nat,
                         numParents: map<T, int>, children: map<T, seq<T>>)
    requires SortInv(g, pairs, answer, i, depth, numParents, children)
    requires Elements(answer[..i]) == Peeled(g, depth + 1)
    ensures SortInv(g, pairs, answer, i, depth + 1, numParents, children)
    ensures i < |answer| ==> Elements(answer[..i]) != Peeled(g, depth + 2)
  {
    EnumerationSize(answer[..i]);
    PeeledGrows(g, depth + 1, depth + 2);
    EnumerationSize(answer);
    assert answer[..|answer|] == answer;
    assert CutAt(g, answer, depth + 2);
  }

  lemma VisitSafe<T>(g: Graph<T>, pairs: seq<(T, T)>, answer: seq<T>, i: nat, depth: nat,
                     numParents: map<T, int>, children: map<T, seq<T>>)
    requires WellFormed(g) && SortInv(g, pairs, answer, i, depth, numParents, children)
    requires i < |answer| && Elements(answer[..i]) != Peeled(g, depth + 1)
    ensures answer[i] in numParents
    ensures answer[i] in children ==> children[answer[i]] == ChildList(pairs, answer[i])
    ensures answer[i] !in children ==> ChildList(pairs, answer[i]) == []
    ensures forall x :: x in ChildList(pairs, answer[i]) ==>
              && x in numParents && x != answer[i] && x !in answer
              && numParents[x] >= multiset(ChildList(pairs, answer[i]))[x]
  {
    var p, gone := answer[i], Elements(answer[..i]);
    NextInAnswer(g, answer, i, gone, depth);
    ChildrenPresent(g, pairs, gone, p, numParents, children);
    NotYetListed(g, pairs, gone, p, answer);
  }

  lemma PrefixElements<T>(answer: seq<T>, answer': seq<T>, i: nat)
    requires answer <= answer' && i < |answer|
    ensures Elements(answer'[..i + 1]) == Elements(answer[..i]) + {answer[i]}
  {
  }

  lemma CutsKept<T>(g: Graph<T>, answer: seq<T>, answer': seq<T>, depth: nat)
    requires answer <= answer' && forall n :: 0 <= n <= depth ==> CutAt(g, answer, n)
    ensures forall n :: 0 <= n <= depth ==> CutAt(g, answer', n)
  {
    forall n | 0 <= n <= depth ensures CutAt(g, answer', n) {
      assert CutAt(g, answer, n);
      assert answer'[..|Peeled(g, n)|] == answer[..|Peeled(g, n)|];
    }
  }

  lemma SortInvStep<T>(g: Graph<T>, pairs: seq<(T, T)>, answer: seq<T>, i: nat, depth: nat,
                       numParents: map<T, int>, children: map<T, seq<T>>,
                       answer': seq<T>, numParents': map<T, int>)
    requires WellFormed(g) && SortInv(g, pairs, answer, i, depth, numParents, children)
    requires i < |answer| && Elements(answer[..i]) != Peeled(g, depth + 1)
    requires answer <= answer' && NoDup(answer')
    requires numParents'.Keys == numParents.Keys - {answer[i]}
    requires forall x :: x in numParents' ==> numParents'[x] == numParents[x] - multiset(ChildList(pairs, answer[i]))[x]
    requires forall x :: x in ChildList(pairs, answer[i]) ==> x in numParents'
    requires forall x :: x in answer' <==> x in answer || (x in ChildList(pairs, answer[i]) && numParents'[x] == 0)
    ensures SortInv(g, pairs, answer', i + 1, depth, numParents', children - {answer[i]})
  {
    var p, gone := answer[i], Elements(answer[..i]);
    NextInAnswer(g, answer, i, gone, depth);
    TablesStep(g, pairs, gone, p, numParents, children, numParents');
    FreeStep(g, pairs, gone, p, answer, answer', numParents, children, numParents');
    PrefixElements(answer, answer', i);
    CutsKept(g, answer, answer', depth + 1);
  }

  /** The tables of a non-empty remainder in which every node still has a parent, hence with a cycle. */
  ghost predicate Leftover<T(!new)>(g: Graph<T>, pairs: seq<(T, T)>, gone: set<T>,
                                    numParents: map<T, int>, children: map<T, seq<T>>)
  {
    && Tables(g, pairs, gone, numParents, children)
    && g.nodes - gone != {} && Stuck(g, g.nodes - gone)
    && exists c :: IsCycle(g.edges, c) && Elements(c) <= g.nodes - gone
  }

  lemma SortInvEnd<T(!new)>(g: Graph<T>, pairs: seq<(T, T)>, answer: seq<T>, depth: nat,
                      numParents: map<T, int>, children: map<T, seq<T>>)
    requires SortInv(g, pairs, answer, |answer|, depth, numParents, children)
    ensures RestsAt(g, depth + 1, Elements(answer))
    ensures forall n :: CutAt(g, answer, n)
    ensures Tables(g, pairs, Elements(answer), numParents, children)
  {
    var gone := Elements(answer);
    assert answer[..|answer|] == answer;
    FreeMonotone(g, Peeled(g, depth), gone);
    forall n: nat ensures CutAt(g, answer, n) {
      if n > depth + 1 {
        PeeledFixpoint(g, depth + 1, n);
        assert CutAt(g, answer, depth + 1);
      }
    }
  }

  /** Peeling has stopped after `n` rounds, having removed `S`. */
  ghost predicate RestsAt<T>(g: Graph<T>, n: nat, S: set<T>) {
    S == Peeled(g, n) == Peeled(g, n + 1)
  }

  /** What the emptiness test of the count table decides once the peeling is at rest. */
  lemma Verdict<T(!new)>(g: Graph<T>, pairs: seq<(T, T)>, n: nat, numParents: map<T, int>, children: map<T, seq<T>>)
    requires WellFormed(g) && Peeled(g, n + 1) == Peeled(g, n)
    requires Tables(g, pairs, Peeled(g, n), numParents, children)
    ensures numParents == map[] <==> Acyclic(g.edges)
    ensures numParents == map[] <==> Peeled(g, n) == g.nodes
    ensures numParents != map[] ==> Leftover(g, pairs, Peeled(g, n), numParents, children)
  {
    AtRest(g, n);
    PeeledGrows(g, n, n);
    if numParents == map[] {
      forall x | x in g.nodes ensures x in Peeled(g, n) {
        assert x !in numParents.Keys;
      }
    } else {
      var x :| x in numParents.Keys;
      assert x in g.nodes - Peeled(g, n);
    }
  }

  /** In a level-ordered answer every listed child has its parents listed before it. */
  lemma ParentsComeFirst<T>(g: Graph<T>, answer: seq<T>, n: nat, i: nat, p: T)
    requires NoDup(answer) && (forall k :: CutAt(g, answer, k))
    requires i < |answer| && answer[i] in Peeled(g, n) && (p, answer[i]) in g.edges
    ensures p in answer[..i]
    decreases n
  {
    if answer[i] in Peeled(g, n - 1) {
      ParentsComeFirst(g, answer, n - 1, i, p);
    } else {
      var k := |Peeled(g, n - 1)|;
      assert CutAt(g, answer, n - 1);
      assert p in Elements(answer[..k]);
      assert answer[..k] <= answer[..i];
    }
  }

  /** Every listed node has all its parents listed before it. */
  ghost predicate IsTopological<T(!new)>(g: Graph<T>, answer: seq<T>) {
    forall i, p :: 0 <= i < |answer| && (p, answer[i]) in g.edges ==> p in answer[..i]
  }

  lemma LevelOrderIsTopological<T(!new)>(g: Graph<T>, answer: seq<T>, n: nat)
    requires NoDup(answer) && (forall k :: CutAt(g, answer, k)) && RestsAt(g, n, Elements(answer))
    ensures IsTopological(g, answer)
  {
    forall i, p | 0 <= i < |answer| && (p, answer[i]) in g.edges ensures p in answer[..i] {
      assert answer[i] in Elements(answer);
      ParentsComeFirst(g, answer, n, i, p);
    }
  }

  lemma VisitedBound<T>(g: Graph<T>, pairs: seq<(T, T)>, answer: seq<T>, i: nat, depth: nat,
                        numParents: map<T, int>, children: map<T, seq<T>>)
    requires SortInv(g, pairs, answer, i, depth, numParents, children) && i < |answer|
    ensures i < |g.nodes|
  {
    EnumerationSize(answer);
    SubsetSize(Elements(answer), g.nodes);
  }

  /** All that holds when the whole answer has been visited. */
  lemma SortOutcome<T(!new)>(g: Graph<T>, pairs: seq<(T, T)>, answer: seq<T>, depth: nat,
                             numParents: map<T, int>, children: map<T, seq<T>>)
    requires WellFormed(g) && SortInv(g, pairs, answer, |answer|, depth, numParents, children)
    ensures numParents == map[] <==> Acyclic(g.edges)
    ensures numParents == map[] <==> Elements(answer) == g.nodes
    ensures NoDup(answer) && IsTopological(g, answer) && forall n :: CutAt(g, answer, n)
    ensures RestsAt(g, depth + 1, Elements(answer))
    ensures numParents != map[] ==> Leftover(g, pairs, Elements(answer), numParents, children)
  {
    SortInvEnd(g, pairs, answer, depth, numParents, children);
    LevelOrderIsTopological(g, answer, depth + 1);
    hide SortInv, CutAt, IsTopological, Acyclic, Leftover, Tables;
    Verdict(g, pairs, depth + 1, numParents, children);
  }

  /** One turn of the loop over the growing answer. */
  method Visit<T(==)>(ghost g: Graph<T>, ghost pairs: seq<(T, T)>, ghost depth: nat, i: nat,
                      answer: seq<T>, numParents: map<T, int>, children: map<T, seq<T>>)
    returns (answer': seq<T>, numParents': map<T, int>, children': map<T, seq<T>>)
    requires WellFormed(g) && SortInv(g, pairs, answer, i, depth, numParents, children)
    requires i < |answer| && Elements(answer[..i]) != Peeled(g, depth + 1)
    ensures SortInv(g, pairs, answer', i + 1, depth, numParents', children')
    ensures NoEmptyLists(children) ==> NoEmptyLists(children')
  {
    var parent := answer[i];
    VisitSafe(g, pairs, answer, i, depth, numParents, children);
    answer', numParents', children' := answer, numParents - {parent}, children;
    if parent in children' {
      numParents', answer' := CountDownAndAppend(numParents', children'[parent], answer');
      children' := children' - {parent};
    }
    assert children' == children - {parent};
    assert NoEmptyLists(children) ==> NoEmptyLists(children');
    SortInvStep(g, pairs, answer, i, depth, numParents, children, answer', numParents');
  }

  method TopSort<T(==, !new)>(pairs: seq<(T, T)>) returns (r: SortResult<T>)
    // A normal return means the graph has no cycle, and the other way round.
    ensures r.Sorted? <==> Acyclic(GraphOf(pairs).edges)
    // The answer is duplicate-free, parents before children, and even ordered level by level.
    ensures NoDup(r.answer) && IsTopological(GraphOf(pairs), r.answer)
    ensures forall n :: CutAt(GraphOf(pairs), r.answer, n)
    ensures r.Sorted? ==> Elements(r.answer) == GraphOf(pairs).nodes
    // The error carries the tables of the nodes that were left over, which contain a cycle.
    ensures exists n :: RestsAt(GraphOf(pairs), n, Elements(r.answer))
    ensures r.CycleError? ==>
              && Leftover(GraphOf(pairs), pairs, Elements(r.answer), r.numParents, r.children)
              && NoEmptyLists(r.children)
  {
    ghost var g, depth := GraphOf(pairs), 0;
    assert WellFormed(g);
    hide SortInv, Leftover, IsTopological, Acyclic, CutAt, RestsAt, GraphOf, WellFormed, Tables, Elements, NoDup, Peeled, NoEmptyLists;
    var numParents, children := BuildTables(pairs);
    var answer := ParentlessKeys(numParents);
    SortInvStart(g, pairs, answer, numParents, children);
    var i := 0;
    while i < |answer|
      invariant i <= |answer| && SortInv(g, pairs, answer, i, depth, numParents, children) && NoEmptyLists(children)
      decreases |g.nodes| - i
    {
      VisitedBound(g, pairs, answer, i, depth, numParents, children);
      if Elements(answer[..i]) == Peeled(g, depth + 1) {
        SortInvDeepen(g, pairs, answer, i, depth, numParents, children);
        depth := depth + 1;
      }
      answer, numParents, children := Visit(g, pairs, depth, i, answer, numParents, children);
      i := i + 1;
    }
    SortOutcome(g, pairs, answer, depth, numParents, children);
    if numParents != map[] {
      r := CycleError(answer, numParents, children);
    } else {
      r := Sorted(answer);
    }
  }

  ghost predicate IsLevel<T>(g: Graph<T>, level: seq<T>, n: nat) {
    level != [] && Enumerates(level, Level(g, n))
  }

  /** The non-empty levels of the graph from level 0 on, each listed once in some order. */
  ghost predicate IsLevelList<T>(g: Graph<T>, levels: seq<seq<T>>) {
    forall i :: 0 <= i < |levels| ==> IsLevel(g, levels[i], i)
  }

  /** The parentless keys left after `n` rounds are level `n`; when there are none, peeling has come to rest. */
  lemma ParentlessIsLevel<T>(g: Graph<T>, pairs: seq<(T, T)>, n: nat, level: seq<T>,
                             numParents: map<T, int>, children: map<T, seq<T>>)
    requires Tables(g, pairs, Peeled(g, n), numParents, children)
    requires Enumerates(level, set x | x in numParents && numParents[x] == 0)
    ensures Enumerates(level, Level(g, n))
    ensures level == [] ==> Peeled(g, n + 1) == Peeled(g, n)
  {
    ZeroEntries(g, pairs, Peeled(g, n), numParents, children);
    PeeledGrows(g, n, n + 1);
    if level == [] {
      assert Peeled(g, n + 1) == Peeled(g, n) + Elements(level);
    }
  }

  method TopSortLevelsCore<T(==, !new)>(numParents0: map<T, int>, children0: map<T, seq<T>>,
                                        ghost g: Graph<T>, ghost pairs: seq<(T, T)>)
    returns (r: LevelsResult<T>)
    // The counts agree with the child lists: both describe one graph, given by its list of edges.
    requires WellFormed(g) && Tables(g, pairs, {}, numParents0, children0)
    ensures IsLevelList(g, r.levels)
    ensures Peeled(g, |r.levels| + 1) == Peeled(g, |r.levels|)
    ensures r.AllLevels? <==> Acyclic(g.edges)
    ensures r.AllLevels? ==> Peeled(g, |r.levels|) == g.nodes
    ensures r.LevelsThenCycle? ==> Leftover(g, pairs, Peeled(g, |r.levels|), r.numParents, r.children)
    ensures r.LevelsThenCycle? && NoEmptyLists(children0) ==> NoEmptyLists(r.children)
  {
    hide Free, ParentsIn, HasParentIn, Leftover, Acyclic;
    var numParents, children := numParents0, children0;
    var levels: seq<seq<T>> := [];
    while true
      invariant Tables(g, pairs, Peeled(g, |levels|), numParents, children)
      invariant IsLevelList(g, levels) && (NoEmptyLists(children0) ==> NoEmptyLists(children))
      decreases numParents.Keys
    {
      var levelParents := ParentlessKeys(numParents);
      ParentlessIsLevel(g, pairs, |levels|, levelParents, numParents, children);
      if levelParents == [] { break; }
      numParents, children := RemoveLevel(g, pairs, |levels|, levelParents, numParents, children);
      levels := levels + [levelParents];
    }
    Verdict(g, pairs, |levels|, numParents, children);
    r := if numParents != map[] then LevelsThenCycle(levels, numParents, children) else AllLevels(levels);
  }

  lemma StillNoEmptyLists<T>(children: map<T, seq<T>>, p: T)
    ensures NoEmptyLists(children) ==> NoEmptyLists(children - {p})
  {
  }

  /** The loop that takes one level out of the tables. */
  method RemoveLevel<T(==)>(ghost g: Graph<T>, ghost pairs: seq<(T, T)>, ghost n: nat, level: seq<T>,
                            numParents0: map<T, int>, children0: map<T, seq<T>>)
    returns (numParents: map<T, int>, children: map<T, seq<T>>)
    requires WellFormed(g) && Tables(g, pairs, Peeled(g, n), numParents0, children0)
    requires Enumerates(level, Level(g, n))
    ensures Tables(g, pairs, Peeled(g, n + 1), numParents, children)
    ensures level != [] ==> numParents.Keys < numParents0.Keys
    ensures NoEmptyLists(children0) ==> NoEmptyLists(children)
  {
    hide Free, ParentsIn, NoEmptyLists;
    numParents, children := numParents0, children0;
    ghost var gone, now := Peeled(g, n), Peeled(g, n);
    PeeledGrows(g, n, n + 1);
    for j := 0 to |level|
      invariant now == gone + Elements(level[..j]) && now <= Free(g, gone)
      invariant Tables(g, pairs, now, numParents, children) && (NoEmptyLists(children0) ==> NoEmptyLists(children))
    {
      var p := level[j];
      ghost var before := numParents;
      LevelNext(g, gone, level, j);
      ChildrenPresent(g, pairs, now, p, numParents, children);
      numParents := numParents - {p};
      if p in children {
        numParents := CountDown(numParents, children[p]);
      }
      TablesStep(g, pairs, now, p, before, children, numParents);
      StillNoEmptyLists(children, p);
      children := children - {p};
      now := now + {p};
      PrefixElements(level, level, j);
    }
    assert level[..|level|] == level;
    assert now == Peeled(g, n + 1);
    assert level != [] ==> level[0] in Elements(level) && level[0] in numParents0.Keys;
  }

  lemma LevelNext<T>(g: Graph<T>, gone: set<T>, level: seq<T>, j: nat)
    requires j < |level| && gone <= Free(g, gone) && Enumerates(level, Free(g, gone) - gone)
    ensures var now := gone + Elements(level[..j]);
      level[j] !in now && level[j] in Free(g, gone) && now <= Free(g, gone) <= Free(g, now)
  {
    assert level[j] in Elements(level);
    forall x | x in level[..j] ensures x in Free(g, gone) { assert x in Elements(level); }
    FreeMonotone(g, gone, gone + Elements(level[..j]));
  }

  method TopSortLevels<T(==, !new)>(pairs: seq<(T, T)>) returns (r: LevelsResult<T>)
    ensures IsLevelList(GraphOf(pairs), r.levels)
    ensures Peeled(GraphOf(pairs), |r.levels| + 1) == Peeled(GraphOf(pairs), |r.levels|)
    ensures r.AllLevels? <==> Acyclic(GraphOf(pairs).edges)
    ensures r.AllLevels? ==> Peeled(GraphOf(pairs), |r.levels|) == GraphOf(pairs).nodes
    ensures r.LevelsThenCycle? ==>
              && Leftover(GraphOf(pairs), pairs, Peeled(GraphOf(pairs), |r.levels|), r.numParents, r.children)
              && NoEmptyLists(r.children)
  {
    var numParents, children := BuildTables(pairs);
    r := TopSortLevelsCore(numParents, children, GraphOf(pairs), pairs);
  }

  // ----- Relating the two -----------------------------------------------------------------

  function TotalLength<T>(levels: seq<seq<T>>): nat {
    if levels == [] then 0 else TotalLength(levels[..|levels| - 1]) + |levels[|levels| - 1]|
  }

  lemma {:induction false} LevelSizes<T>(g: Graph<T>, levels: seq<seq<T>>)
    requires IsLevelList(g, levels)
    ensures TotalLength(levels) == |Peeled(g, |levels|)|
  {
    if levels != [] {
      var n := |levels| - 1;
      assert IsLevel(g, levels[n], n);
      LevelSizes(g, levels[..n]);
      PeeledGrows(g, n, n + 1);
      EnumerationSize(levels[n]);
      assert Peeled(g, n + 1) == Peeled(g, n) + Level(g, n);
    }
  }

  /** Cutting a level-ordered answer at the level sizes gives a permutation of each level in turn. */
  lemma AnswerCutsIntoLevels<T>(g: Graph<T>, answer: seq<T>, levels: seq<seq<T>>, i: nat)
    requires NoDup(answer) && (forall n :: CutAt(g, answer, n)) && IsLevelList(g, levels) && i < |levels|
    ensures var lo, hi := TotalLength(levels[..i]), TotalLength(levels[..i + 1]);
      && lo <= hi <= |answer|
      && multiset(answer[lo..hi]) == multiset(levels[i])
  {
    LevelSizes(g, levels[..i]);
    LevelSizes(g, levels[..i + 1]);
    assert CutAt(g, answer, i) && CutAt(g, answer, i + 1);
    PeeledGrows(g, i, i + 1);
    SubsetSize(Peeled(g, i), Peeled(g, i + 1));
    SliceElements(answer, Peeled(g, i), Peeled(g, i + 1));
    var mid := answer[|Peeled(g, i)|..|Peeled(g, i + 1)|];
    assert IsLevel(g, levels[i], i);
    EnumerationsPermute(mid, levels[i]);
  }

  lemma SliceElements<T>(s: seq<T>, A: set<T>, B: set<T>)
    requires NoDup(s) && A <= B && |A| <= |B| <= |s|
    requires Elements(s[..|A|]) == A && Elements(s[..|B|]) == B
    ensures Elements(s[|A|..|B|]) == B - A
  {
  }

  /** Both sorts stop at the same set: what one lists is what the other puts on levels. */
  lemma SameSortedPart<T>(g: Graph<T>, answer: seq<T>, m: nat, n: nat)
    requires RestsAt(g, m, Elements(answer)) && Peeled(g, n) == Peeled(g, n + 1)
    ensures Elements(answer) == Peeled(g, n)
  {
    if m <= n { PeeledFixpoint(g, m, n); } else { PeeledFixpoint(g, n, m); }
  }

  lemma SameTables<T>(g: Graph<T>, pairs: seq<(T, T)>, gone: set<T>, numParents: map<T, int>, children: map<T, seq<T>>,
                      numParents': map<T, int>, children': map<T, seq<T>>)
    requires Tables(g, pairs, gone, numParents, children) && NoEmptyLists(children)
    requires Tables(g, pairs, gone, numParents', children') && NoEmptyLists(children')
    ensures numParents == numParents' && children == children'
  {
    assert forall x :: x in children || x in children' ==> ChildList(pairs, x) != [] && x in children && x in children';
  }

  ghost predicate IsCutInto<T>(answer: seq<T>, levels: seq<seq<T>>, i: nat)
    requires i < |levels|
  {
    var lo, hi := TotalLength(levels[..i]), TotalLength(levels[..i + 1]);
    lo <= hi <= |answer| && multiset(answer[lo..hi]) == multiset(levels[i])
  }

  /** Both sorts on one pair list: the same verdict, the same nodes level by level, and on a cycle the same tables. */
  method SortBothWays<T(==, !new)>(pairs: seq<(T, T)>) returns (r: SortResult<T>, l: LevelsResult<T>)
    ensures r.Sorted? <==> l.AllLevels?
    ensures |r.answer| == TotalLength(l.levels) && forall i :: 0 <= i < |l.levels| ==> IsCutInto(r.answer, l.levels, i)
    ensures r.CycleError? ==> r.numParents == l.numParents && r.children == l.children
  {
    hide *;
    r := TopSort(pairs);
    l := TopSortLevels(pairs);
    ghost var g := GraphOf(pairs);
    SortsAgree(g, pairs, r, l);
  }

  lemma SortsAgree<T(!new)>(g: Graph<T>, pairs: seq<(T, T)>, r: SortResult<T>, l: LevelsResult<T>)
    requires NoDup(r.answer) && (forall n :: CutAt(g, r.answer, n)) && IsLevelList(g, l.levels)
    requires exists n :: RestsAt(g, n, Elements(r.answer))
    requires Peeled(g, |l.levels| + 1) == Peeled(g, |l.levels|)
    requires r.CycleError? ==> Leftover(g, pairs, Elements(r.answer), r.numParents, r.children) && NoEmptyLists(r.children)
    requires l.LevelsThenCycle? ==> Leftover(g, pairs, Peeled(g, |l.levels|), l.numParents, l.children) && NoEmptyLists(l.children)
    requires r.CycleError? <==> l.LevelsThenCycle?
    ensures |r.answer| == TotalLength(l.levels) && forall i :: 0 <= i < |l.levels| ==> IsCutInto(r.answer, l.levels, i)
    ensures r.CycleError? ==> r.numParents == l.numParents && r.children == l.children
  {
    hide Peeled, CutAt, IsLevelList, NoDup, Elements, Tables, Stuck, NoEmptyLists, TotalLength;
    var n :| RestsAt(g, n, Elements(r.answer));
    SameSortedPart(g, r.answer, n, |l.levels|);
    EnumerationSize(r.answer);
    LevelSizes(g, l.levels);
    forall i | 0 <= i < |l.levels| ensures IsCutInto(r.answer, l.levels, i) { AnswerCutsIntoLevels(g, r.answer, l.levels, i); }
    if r.CycleError? {
      SameTables(g, pairs, Elements(r.answer), r.numParents, r.children, l.numParents, l.children);
    }
  }
}
