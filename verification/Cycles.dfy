/** Rotations of sequences, and the test `is_rotated` that decides them. */
module Rotations {

  function Rotate<T>(s: seq<T>, k: nat): (r: seq<T>)
    requires k <= |s|
    ensures |r| == |s|
  {
    s[k..] + s[..k]
  }

  ghost predicate IsRotation<T>(a: seq<T>, b: seq<T>) {
    exists k :: 0 <= k <= |a| && b == Rotate(a, k)
  }

  lemma RotateTwice<T>(s: seq<T>, j: nat, k: nat)
    requires j <= |s| && k <= |s|
    ensures Rotate(Rotate(s, j), k) == Rotate(s, if j + k <= |s| then j + k else j + k - |s|)
  {
  }

  lemma RotationReflexive<T>(a: seq<T>)
    ensures IsRotation(a, a)
  {
    assert a == Rotate(a, 0);
  }

  lemma RotationSymmetric<T>(a: seq<T>, b: seq<T>)
    requires IsRotation(a, b)
    ensures IsRotation(b, a)
  {
    var k :| 0 <= k <= |a| && b == Rotate(a, k);
    RotateTwice(a, k, |a| - k);
    assert a == Rotate(b, |a| - k);
  }

  lemma RotationTransitive<T>(a: seq<T>, b: seq<T>, c: seq<T>)
    requires IsRotation(a, b) && IsRotation(b, c)
    ensures IsRotation(a, c)
  {
    var j :| 0 <= j <= |a| && b == Rotate(a, j);
    var k :| 0 <= k <= |b| && c == Rotate(b, k);
    RotateTwice(a, j, k);
  }

  lemma RotationStart<T>(a: seq<T>, b: seq<T>)
    requires b != []
    ensures IsRotation(a, b) ==> exists k :: 0 <= k < |a| && b == Rotate(a, k) && a[k] == b[0]
  {
    if IsRotation(a, b) {
      var k :| 0 <= k <= |a| && b == Rotate(a, k);
      var k' := if k == |a| then 0 else k;
      assert b == Rotate(a, k');
    }
  }

  datatype Answer = Value(b: bool) | IndexError

  /** The head of the second sequence is read before anything is compared, so two empty sequences fail. */
  method IsRotated<T(==)>(seq1: seq<T>, seq2: seq<T>) returns (r: Answer)
    ensures r.IndexError? <==> seq1 == [] && seq2 == []
    ensures r.Value? ==> (r.b <==> IsRotation(seq1, seq2))
  {
    if |seq1| != |seq2| { return Value(false); }
    if seq2 == [] { return IndexError; }
    var headItem, n := seq2[0], |seq1|;
    var startIndexes: seq<nat> := [];
    for index1 := 0 to n
      invariant forall k :: 0 <= k < |startIndexes| ==> startIndexes[k] < index1
      invariant forall i :: 0 <= i < index1 && seq1[i] == headItem ==> i in startIndexes
    {
      if seq1[index1] == headItem {
        startIndexes := startIndexes + [index1];
      }
    }
    var doubleSeq1 := seq1 + seq1;
    for k := 0 to |startIndexes|
      invariant forall j :: 0 <= j < k ==> Rotate(seq1, startIndexes[j]) != seq2
    {
      assert doubleSeq1[startIndexes[k]..startIndexes[k] + n] == Rotate(seq1, startIndexes[k]);
      if doubleSeq1[startIndexes[k]..startIndexes[k] + n] == seq2 { return Value(true); }
    }
    RotationStart(seq1, seq2);
    return Value(false);
  }
}

/** The stack-based enumeration of all simple cycles. */
module FindCycles {
  import opened Basics
  import opened Graphs
  import opened Rotations

  // ----- Specification --------------------------------------------------------------

  ghost function EdgesOf<T>(ch: map<T, seq<T>>): set<(T, T)> {
    set p, c | p in ch && c in ch[p] :: (p, c)
  }

  ghost function NodesOf<T>(ch: map<T, seq<T>>): set<T> {
    ch.Keys + set p, c | p in ch && c in ch[p] :: c
  }

  /** Some rotation of `c` is among `cycles`. */
  ghost predicate Found<T>(cycles: seq<seq<T>>, c: seq<T>) {
    exists i :: 0 <= i < |cycles| && IsRotation(cycles[i], c)
  }

  /** Simple cycles of the graph, no two of them rotations of each other. */
  ghost predicate DistinctCycles<T>(E: set<(T, T)>, cycles: seq<seq<T>>) {
    && (forall i :: 0 <= i < |cycles| ==> IsSimpleCycle(E, cycles[i]))
    && (forall i, j :: 0 <= i < j < |cycles| ==> !IsRotation(cycles[i], cycles[j]))
  }

  ghost predicate WalkInto<T>(E: set<(T, T)>, w: seq<T>, s: T, c: seq<T>) {
    |w| > 0 && w[0] == s && IsWalk(E, w) && w[|w| - 1] in c
  }

  /** Every simple cycle that can be reached from `s` has been found. */
  ghost predicate Covered<T(!new)>(E: set<(T, T)>, cycles: seq<seq<T>>, s: T) {
    forall c, w :: IsSimpleCycle(E, c) && WalkInto(E, w, s, c) ==> Found(cycles, c)
  }

  ghost predicate SimplePathFrom<T>(E: set<(T, T)>, s: T, q: seq<T>) {
    |q| > 0 && q[0] == s && IsWalk(E, q) && NoDup(q)
  }

  /** The position of the first `x`. */
  function IndexOf<T(==)>(q: seq<T>, x: T): (i: nat)
    requires x in q
    ensures i < |q| && q[i] == x && x !in q[..i]
  {
    if q[0] == x then 0 else 1 + IndexOf(q[1..], x)
  }

  /** Every edge from the end of `q` back into `q` has had its cycle found. */
  ghost predicate Closed<T(!new)>(E: set<(T, T)>, cycles: seq<seq<T>>, q: seq<T>)
    requires |q| > 0
  {
    forall x :: x in q && (q[|q| - 1], x) in E ==> Found(cycles, q[IndexOf(q, x)..])
  }

  /** Some path on the stack can still be extended to `q`. */
  ghost predicate Pending<T>(stack: seq<seq<T>>, q: seq<T>) {
    exists i :: 0 <= i < |stack| && stack[i] <= q
  }

  // ----- Completeness of the search from one start node ---------------------------------

  lemma FoundStays<T>(cycles: seq<seq<T>>, cycles': seq<seq<T>>, c: seq<T>)
    requires cycles <= cycles' && Found(cycles, c)
    ensures Found(cycles', c)
  {
  }

  lemma ConcatWalk<T>(E: set<(T, T)>, u: seq<T>, v: seq<T>)
    requires IsWalk(E, u) && IsWalk(E, v)
    requires u != [] && v != [] ==> (u[|u| - 1], v[0]) in E
    ensures IsWalk(E, u + v)
  {
  }

  /** A walk into a cycle can be shortened to a simple path that meets the cycle only at its end. */
  lemma {:induction false} Approach<T>(E: set<(T, T)>, w: seq<T>, s: T, c: seq<T>) returns (q: seq<T>)
    requires WalkInto(E, w, s, c)
    ensures SimplePathFrom(E, s, q) && q[|q| - 1] in c && forall x :: x in q[..|q| - 1] ==> x !in c
    decreases |w|
  {
    if k :| 0 <= k < |w| - 1 && w[k] in c {
      SubWalk(E, w, 0, k + 1);
      q := Approach(E, w[0..k + 1], s, c);
    } else if i, j :| 0 <= i < j < |w| && w[i] == w[j] {
      SubWalk(E, w, 0, i);
      SubWalk(E, w, j, |w|);
      if i > 0 { assert (w[i - 1], w[i - 1 + 1]) in E; }
      ConcatWalk(E, w[0..i], w[j..|w|]);
      q := Approach(E, w[0..i] + w[j..|w|], s, c);
    } else {
      q := w;
    }
  }

  lemma RotatedCycle<T>(E: set<(T, T)>, c: seq<T>, m: nat)
    requires IsSimpleCycle(E, c) && m < |c|
    ensures IsSimpleCycle(E, Rotate(c, m)) && Rotate(c, m)[0] == c[m]
    ensures forall x :: x in Rotate(c, m) <==> x in c
  {
  }

  /** Once every simple path from `s` is closed, every cycle within reach of `s` is found. */
  lemma ClosedPathsCover<T(!new)>(E: set<(T, T)>, cycles: seq<seq<T>>, s: T)
    requires forall q :: SimplePathFrom(E, s, q) ==> Closed(E, cycles, q)
    ensures Covered(E, cycles, s)
  {
    forall c, w | IsSimpleCycle(E, c) && WalkInto(E, w, s, c) ensures Found(cycles, c) {
      var q := Approach(E, w, s, c);
      var m :| 0 <= m < |c| && c[m] == q[|q| - 1];
      RotatedCycle(E, c, m);
      var r := Rotate(c, m);
      var path := LassoPath(E, s, q, r);
      assert Closed(E, cycles, path);
      assert r[0] in path && (path[|path| - 1], r[0]) in E;
      var i :| 0 <= i < |cycles| && IsRotation(cycles[i], r);
      RotationSymmetric(c, r);
      RotationTransitive(cycles[i], r, c);
    }
  }

  /** The approach followed by the rest of the cycle is simple, and cut at the meeting point it is the cycle. */
  lemma LassoPath<T>(E: set<(T, T)>, s: T, q: seq<T>, r: seq<T>) returns (path: seq<T>)
    requires SimplePathFrom(E, s, q) && IsSimpleCycle(E, r) && r[0] == q[|q| - 1]
    requires forall x :: x in q[..|q| - 1] ==> x !in r
    ensures SimplePathFrom(E, s, path) && r[0] in path && path[|path| - 1] == r[|r| - 1]
    ensures path[IndexOf(path, r[0])..] == r
  {
    var stem := q[..|q| - 1];
    path := stem + r;
    assert q[..|q| - 1] == q[0..|q| - 1];
    SubWalk(E, q, 0, |q| - 1);
    if stem != [] { assert (q[|q| - 2], q[|q| - 2 + 1]) in E; }
    ConcatWalk(E, stem, r);
    forall i, j | 0 <= i < j < |path| ensures path[i] != path[j] {
      if i < |stem| {
        assert path[i] == q[i] && stem[i] in stem;
        if j < |stem| { assert path[j] == q[j]; } else { assert path[j] in r; }
      }
    }
    var k := IndexOf(path, path[|stem|]);
    assert path[k] == path[|stem|];
  }

  lemma CoveredBeyond<T(!new)>(E: set<(T, T)>, cycles: seq<seq<T>>, s: T, p: seq<T>)
    requires Covered(E, cycles, s) && SimplePathFrom(E, s, p)
    ensures Covered(E, cycles, p[|p| - 1])
  {
    var x := p[|p| - 1];
    forall c, w | IsSimpleCycle(E, c) && WalkInto(E, w, x, c) ensures Found(cycles, c) {
      var u := p[..|p| - 1];
      assert u == p[0..|p| - 1];
      SubWalk(E, p, 0, |p| - 1);
      if u != [] { assert (p[|p| - 2], p[|p| - 2 + 1]) in E; }
      ConcatWalk(E, u, w);
      assert WalkInto(E, u + w, s, c);
    }
  }

  // ----- Termination of the search ---------------------------------------------------------

  /** How many pops a path with `room` unused nodes can cause when every node has at most `fanout` children. */
  ghost function PathWeight(fanout: nat, room: nat): nat {
    if room == 0 then 1 else 1 + fanout * PathWeight(fanout, room - 1)
  }

  ghost function StackWeight<T>(fanout: nat, size: nat, stack: seq<seq<T>>): nat {
    if stack == [] then 0 else
    var p := stack[|stack| - 1];
    StackWeight(fanout, size, stack[..|stack| - 1]) + PathWeight(fanout, if |p| <= size then size - |p| else 0)
  }

  ghost predicate FanoutWithin<T>(ch: map<T, seq<T>>, fanout: nat) {
    forall p :: p in ch ==> |ch[p]| <= fanout
  }

  lemma {:induction false} FanoutBound<T>(ch: map<T, seq<T>>) returns (fanout: nat)
    ensures FanoutWithin(ch, fanout)
    decreases |ch|
  {
    if ch == map[] {
      fanout := 0;
    } else {
      var p :| p in ch;
      var rest := ch - {p};
      fanout := FanoutBound(rest);
      assert forall q :: q in ch ==> q == p || (q in rest && rest[q] == ch[q]);
      fanout := if |ch[p]| > fanout then |ch[p]| else fanout;
    }
  }

  /** The path and its child list: what one pop pushes. */
  function Extensions<T(==)>(path: seq<T>, kids: seq<T>): (r: seq<seq<T>>) {
    if kids == [] then [] else
    var last := kids[|kids| - 1];
    Extensions(path, kids[..|kids| - 1]) + if last in path then [] else [path + [last]]
  }

  lemma {:induction false} ExtensionsMembers<T>(path: seq<T>, kids: seq<T>, p: seq<T>)
    ensures p in Extensions(path, kids) <==> exists k :: k in kids && k !in path && p == path + [k]
  {
    if kids != [] {
      var last := kids[|kids| - 1];
      assert kids == kids[..|kids| - 1] + [last];
      ExtensionsMembers(path, kids[..|kids| - 1], p);
    }
  }

  lemma {:induction false} StackWeightConcat<T>(fanout: nat, size: nat, s: seq<seq<T>>, t: seq<seq<T>>)
    ensures StackWeight(fanout, size, s + t) == StackWeight(fanout, size, s) + StackWeight(fanout, size, t)
  {
    if t == [] {
      assert s + t == s;
    } else {
      assert (s + t)[..|s + t| - 1] == s + t[..|t| - 1];
      StackWeightConcat(fanout, size, s, t[..|t| - 1]);
    }
  }

  lemma PushWeight<T>(fanout: nat, size: nat, stack: seq<seq<T>>, p: seq<T>)
    requires |p| <= size
    ensures StackWeight(fanout, size, stack + [p]) == StackWeight(fanout, size, stack) + PathWeight(fanout, size - |p|)
  {
  }

  lemma {:induction false} ExtensionsWeight<T>(fanout: nat, size: nat, path: seq<T>, kids: seq<T>, w: nat)
    requires |path| < size && w == PathWeight(fanout, size - |path| - 1)
    ensures StackWeight(fanout, size, Extensions(path, kids)) <= |kids| * w
  {
    if kids != [] {
      var last, front := kids[|kids| - 1], kids[..|kids| - 1];
      ExtensionsWeight(fanout, size, path, front, w);
      ExtensionsLast(path, kids);
      MulSucc(|front|, w);
      hide *;
      PushWeight(fanout, size, Extensions(path, front), path + [last]);
    }
  }

  lemma ExtensionsLast<T>(path: seq<T>, kids: seq<T>)
    requires kids != []
    ensures var front, last := kids[..|kids| - 1], kids[|kids| - 1];
      Extensions(path, kids) == if last in path then Extensions(path, front) else Extensions(path, front) + [path + [last]]
  {
  }

  lemma MulSucc(n: nat, w: nat)
    ensures (n + 1) * w == n * w + w
  {
  }

  /** One pop lowers the weight, however many longer paths it pushes. */
  lemma PopLowersWeight<T>(fanout: nat, size: nat, rest: seq<seq<T>>, path: seq<T>, kids: seq<T>)
    requires |kids| <= fanout && |path| <= size
    requires |path| == size ==> Extensions(path, kids) == []
    ensures StackWeight(fanout, size, rest + Extensions(path, kids)) < StackWeight(fanout, size, rest + [path])
  {
    StackWeightConcat(fanout, size, rest, Extensions(path, kids));
    PushWeight(fanout, size, rest, path);
    if |path| < size {
      var w := PathWeight(fanout, size - |path| - 1);
      ExtensionsWeight(fanout, size, path, kids, w);
      MulMonotone(|kids|, fanout, w);
      assert PathWeight(fanout, size - |path|) == 1 + fanout * w;
    }
  }

  lemma MulMonotone(a: nat, b: nat, w: nat)
    requires a <= b
    ensures a * w <= b * w
  {
  }

  // ----- The algorithm ---------------------------------------------------------------------------

  /** The scan for an already known rotation of `cycle`. */
  method IsDuplicate<T(==)>(cycles: seq<seq<T>>, cycle: seq<T>) returns (isDup: bool)
    requires cycle != []
    ensures isDup <==> Found(cycles, cycle)
  {
    isDup := false;
    for i := 0 to |cycles|
      invariant !isDup && forall j :: 0 <= j < i ==> !IsRotation(cycles[j], cycle)
    {
      var answer := IsRotated(cycles[i], cycle);
      if answer.b {
        isDup := true;
        break;
      }
    }
  }

  /** Keep the cycle unless a rotation of it is known. */
  method Record<T(==, !new)>(ghost E: set<(T, T)>, cycles: seq<seq<T>>, cycle: seq<T>) returns (cycles': seq<seq<T>>)
    requires DistinctCycles(E, cycles) && IsSimpleCycle(E, cycle)
    ensures cycles <= cycles' && DistinctCycles(E, cycles') && Found(cycles', cycle)
    ensures forall c :: c in cycles' ==> c in cycles || (c == cycle && !Found(cycles, cycle))
  {
    cycles' := cycles;
    var isDup := IsDuplicate(cycles, cycle);
    if !isDup {
      AddCycle(E, cycles, cycle);
      cycles' := cycles + [cycle];
    }
  }

  lemma ClosingCycle<T>(E: set<(T, T)>, s: T, path: seq<T>, child: T)
    requires SimplePathFrom(E, s, path) && child in path && (path[|path| - 1], child) in E
    ensures IsSimpleCycle(E, path[IndexOf(path, child)..])
  {
  }

  /** The loop over the children of the end of `path`: closed cycles are recorded, other children pushed. */
  method ScanChildren<T(==, !new)>(ghost E: set<(T, T)>, ghost s: T, path: seq<T>, kids: seq<T>,
                                   rest: seq<seq<T>>, cycles: seq<seq<T>>, visited: set<T>)
    returns (paths: seq<seq<T>>, cycles': seq<seq<T>>, visited': set<T>)
    requires path != [] && SimplePathFrom(E, s, path) && DistinctCycles(E, cycles)
    requires forall k :: k in kids <==> (path[|path| - 1], k) in E
    ensures paths == rest + Extensions(path, kids)
    ensures cycles <= cycles' && DistinctCycles(E, cycles') && Closed(E, cycles', path)
    ensures visited' == visited + set k | k in kids && k !in path
  {
    hide DistinctCycles, SimplePathFrom, Found, IsWalk, NoDup;
    paths, cycles', visited' := rest, cycles, visited;
    for j := 0 to |kids|
      invariant paths == rest + Extensions(path, kids[..j])
      invariant cycles <= cycles' && DistinctCycles(E, cycles')
      invariant forall x :: x in path && x in kids[..j] ==> Found(cycles', path[IndexOf(path, x)..])
      invariant visited' == visited + set k | k in kids[..j] && k !in path
    {
      var child := kids[j];
      assert kids[..j + 1] == kids[..j] + [child] && kids[..j + 1][..j] == kids[..j];
      if child in path {
        var cycle := path[IndexOf(path, child)..];
        assert child in kids;
        ClosingCycle(E, s, path, child);
        ghost var before := cycles';
        cycles' := Record(E, cycles', cycle);
        forall x | x in path && x in kids[..j] ensures Found(cycles', path[IndexOf(path, x)..]) {
          FoundStays(before, cycles', path[IndexOf(path, x)..]);
        }
      } else {
        paths := paths + [path + [child]];
        visited' := visited' + {child};
      }
    }
    assert kids[..|kids|] == kids;
  }

  lemma AddCycle<T>(E: set<(T, T)>, cycles: seq<seq<T>>, cycle: seq<T>)
    requires DistinctCycles(E, cycles) && IsSimpleCycle(E, cycle) && !Found(cycles, cycle)
    ensures DistinctCycles(E, cycles + [cycle]) && Found(cycles + [cycle], cycle)
  {
    RotationReflexive(cycle);
    assert (cycles + [cycle])[|cycles|] == cycle;
  }

  /** Every simple path from `s` has been closed or will still be built from the stack. */
  ghost predicate Exploring<T(!new)>(E: set<(T, T)>, s: T, stack: seq<seq<T>>, cycles: seq<seq<T>>) {
    && (forall i :: 0 <= i < |stack| ==> SimplePathFrom(E, s, stack[i]))
    && forall q :: SimplePathFrom(E, s, q) ==> Closed(E, cycles, q) || Pending(stack, q)
  }

  lemma ClosedStays<T(!new)>(E: set<(T, T)>, cycles: seq<seq<T>>, cycles': seq<seq<T>>, q: seq<T>)
    requires q != [] && cycles <= cycles' && Closed(E, cycles, q)
    ensures Closed(E, cycles', q)
  {
  }

  lemma ExtensionIsSimple<T>(E: set<(T, T)>, s: T, path: seq<T>, k: T)
    requires SimplePathFrom(E, s, path) && (path[|path| - 1], k) in E && k !in path
    ensures SimplePathFrom(E, s, path + [k])
  {
  }

  /** A simple path pending on the popped path is that path itself or pending on one of its extensions. */
  lemma PendingMoves<T>(E: set<(T, T)>, s: T, path: seq<T>, kids: seq<T>, rest: seq<seq<T>>, q: seq<T>)
    requires SimplePathFrom(E, s, path) && SimplePathFrom(E, s, q) && Pending(rest + [path], q) && q != path
    requires forall k :: k in kids <==> (path[|path| - 1], k) in E
    ensures Pending(rest + Extensions(path, kids), q)
  {
    var stack := rest + Extensions(path, kids);
    var i :| 0 <= i < |rest + [path]| && (rest + [path])[i] <= q;
    if i < |rest| {
      assert stack[i] <= q;
    } else {
      var k := q[|path|];
      assert (q[|path| - 1], q[|path| - 1 + 1]) in E;
      assert path + [k] <= q;
      ExtensionsMembers(path, kids, path + [k]);
      var j :| 0 <= j < |Extensions(path, kids)| && Extensions(path, kids)[j] == path + [k];
      assert stack[|rest| + j] <= q;
    }
  }

  lemma ExploringStep<T(!new)>(E: set<(T, T)>, s: T, rest: seq<seq<T>>, path: seq<T>, kids: seq<T>,
                               cycles: seq<seq<T>>, cycles': seq<seq<T>>)
    requires Exploring(E, s, rest + [path], cycles) && path != []
    requires forall k :: k in kids <==> (path[|path| - 1], k) in E
    requires cycles <= cycles' && SimplePathFrom(E, s, path) && Closed(E, cycles', path)
    ensures Exploring(E, s, rest + Extensions(path, kids), cycles')
  {
    var stack := rest + Extensions(path, kids);
    forall i | 0 <= i < |stack| ensures SimplePathFrom(E, s, stack[i]) {
      if i < |rest| {
        assert (rest + [path])[i] == stack[i];
      } else {
        assert stack[i] in Extensions(path, kids);
        ExtensionsMembers(path, kids, stack[i]);
        var k :| k in kids && k !in path && stack[i] == path + [k];
        ExtensionIsSimple(E, s, path, k);
      }
    }
    forall q | SimplePathFrom(E, s, q) ensures Closed(E, cycles', q) || Pending(stack, q) {
      if q != path {
        if Pending(rest + [path], q) {
          PendingMoves(E, s, path, kids, rest, q);
        } else {
          ClosedStays(E, cycles, cycles', q);
        }
      }
    }
  }

  lemma PathFits<T>(ch: map<T, seq<T>>, s: T, path: seq<T>)
    requires s in ch && SimplePathFrom(EdgesOf(ch), s, path)
    ensures |path| <= |NodesOf(ch)|
    ensures |path| == |NodesOf(ch)| && path[|path| - 1] in ch ==> Extensions(path, ch[path[|path| - 1]]) == []
  {
    var N := NodesOf(ch);
    forall x | x in path ensures x in N {
      var i :| 0 <= i < |path| && path[i] == x;
      if i > 0 { assert (path[i - 1], path[i - 1 + 1]) in EdgesOf(ch); }
    }
    Pigeonhole(path, N);
    if |path| == |N| && path[|path| - 1] in ch && Extensions(path, ch[path[|path| - 1]]) != [] {
      var kids := ch[path[|path| - 1]];
      ExtensionsMembers(path, kids, Extensions(path, kids)[0]);
      var k :| k in kids && k !in path;
      AppendFresh(path, k);
      Pigeonhole(path + [k], N);
    }
  }

  /** The nodes a search from `s` can mark as visited. */
  ghost predicate ReachedBy<T(!new)>(E: set<(T, T)>, s: T, x: T) {
    exists p :: SimplePathFrom(E, s, p) && p[|p| - 1] == x
  }

  /** The loop over the stack of paths that starts at `s`. */
  method SearchFrom<T(==, !new)>(ch: map<T, seq<T>>, s: T, cycles: seq<seq<T>>, visited: set<T>)
    returns (cycles': seq<seq<T>>, visited': set<T>)
    requires s in ch && DistinctCycles(EdgesOf(ch), cycles)
    ensures cycles <= cycles' && DistinctCycles(EdgesOf(ch), cycles') && Covered(EdgesOf(ch), cycles', s)
    ensures forall x :: x in visited' ==> x in visited || ReachedBy(EdgesOf(ch), s, x)
  {
    ghost var E, size := EdgesOf(ch), |NodesOf(ch)|;
    ghost var fanout := FanoutBound(ch);
    var paths := [[s]];
    cycles', visited' := cycles, visited;
    StartExploring(E, s, cycles);
    while paths != []
      invariant cycles <= cycles' && DistinctCycles(E, cycles') && Exploring(E, s, paths, cycles')
      invariant forall x :: x in visited' ==> x in visited || ReachedBy(E, s, x)
      decreases StackWeight(fanout, size, paths)
    {
      var path, rest := paths[|paths| - 1], paths[..|paths| - 1];
      assert paths == rest + [path];
      var parent := path[|path| - 1];
      PathFits(ch, s, path);
      ghost var before, beforeVisited := cycles', visited';
      if parent !in ch {
        paths := rest;
        assert Extensions(path, []) == [] && rest + [] == rest;
        PopLowersWeight(fanout, size, rest, path, []);
        ExploringStep(E, s, rest, path, [], before, cycles');
      } else {
        paths, cycles', visited' := ScanChildren(E, s, path, ch[parent], rest, cycles', visited');
        PopLowersWeight(fanout, size, rest, path, ch[parent]);
        ExploringStep(E, s, rest, path, ch[parent], before, cycles');
        VisitedAreReached(E, s, path, ch[parent]);
      }
    }
    ClosedPathsCover(E, cycles', s);
  }

  lemma StartExploring<T(!new)>(E: set<(T, T)>, s: T, cycles: seq<seq<T>>)
    ensures Exploring(E, s, [[s]], cycles)
  {
    forall q | SimplePathFrom(E, s, q) ensures Pending([[s]], q) {
      assert [[s]][0] <= q;
    }
  }

  lemma VisitedAreReached<T(!new)>(E: set<(T, T)>, s: T, path: seq<T>, kids: seq<T>)
    requires SimplePathFrom(E, s, path) && forall k :: k in kids ==> (path[|path| - 1], k) in E
    ensures forall k :: k in kids && k !in path ==> ReachedBy(E, s, k)
  {
    forall k | k in kids && k !in path ensures ReachedBy(E, s, k) {
      ExtensionIsSimple(E, s, path, k);
      assert SimplePathFrom(E, s, path + [k]) && (path + [k])[|path|] == k;
    }
  }

  lemma CoveredStays<T(!new)>(E: set<(T, T)>, cycles: seq<seq<T>>, cycles': seq<seq<T>>, s: T)
    requires cycles <= cycles' && Covered(E, cycles, s)
    ensures Covered(E, cycles', s)
  {
  }

  /** `order` is the order in which the dictionary lists its keys. */
  method AllCycles<T(==, !new)>(ch: map<T, seq<T>>, order: seq<T>) returns (cycles: seq<seq<T>>)
    requires Enumerates(order, ch.Keys)
    // Sound and free of duplicates.
    ensures DistinctCycles(EdgesOf(ch), cycles)
    // Complete, although start nodes that were already visited are skipped.
    ensures forall c :: IsSimpleCycle(EdgesOf(ch), c) ==> Found(cycles, c)
    ensures cycles == [] <==> Acyclic(EdgesOf(ch))
  {
    ghost var E := EdgesOf(ch);
    cycles := [];
    var visited: set<T> := {};
    for i := 0 to |order|
      invariant DistinctCycles(E, cycles)
      invariant forall x :: x in visited || x in order[..i] ==> Covered(E, cycles, x)
    {
      var parent := order[i];
      assert order[..i + 1] == order[..i] + [parent];
      if parent in visited { continue; }
      ghost var before, beforeVisited := cycles, visited;
      assert parent in Elements(order);
      cycles, visited := SearchFrom(ch, parent, cycles, visited);
      forall x | x in visited || x in order[..i] ensures Covered(E, cycles, x) {
        if x in beforeVisited || x in order[..i] {
          CoveredStays(E, before, cycles, x);
        } else {
          var p :| SimplePathFrom(E, parent, p) && p[|p| - 1] == x;
          CoveredBeyond(E, cycles, parent, p);
        }
      }
    }
    forall c | IsSimpleCycle(E, c) ensures Found(cycles, c) {
      CycleStartsAtKey(ch, c);
      assert c[0] in Elements(order) && order[..|order|] == order;
      assert WalkInto(E, [c[0]], c[0], c);
    }
    if c :| IsCycle(E, c) {
      var d := CycleHasSimpleCycle(E, c);
      assert Found(cycles, d);
    }
    assert cycles != [] ==> IsSimpleCycle(E, cycles[0]);
  }

  lemma CycleStartsAtKey<T>(ch: map<T, seq<T>>, c: seq<T>)
    requires IsCycle(EdgesOf(ch), c)
    ensures c[0] in ch
  {
    if |c| > 1 { assert (c[0], c[0 + 1]) in EdgesOf(ch); }
  }

  lemma {:induction false} CycleHasSimpleCycle<T(!new)>(E: set<(T, T)>, c: seq<T>) returns (d: seq<T>)
    requires IsCycle(E, c)
    ensures IsSimpleCycle(E, d)
    decreases |c|
  {
    if NoDup(c) {
      d := c;
    } else {
      var i, j :| 0 <= i < j < |c| && c[i] == c[j];
      SubWalk(E, c, i, j);
      assert (c[j - 1], c[j - 1 + 1]) in E;
      d := CycleHasSimpleCycle(E, c[i..j]);
    }
  }
}
