/** All arrangements of a list, by inserting the first item everywhere into the arrangements of the rest. */
module Permutations {
  import opened Basics
  import opened Graphs

  function InsertAt<T>(s: seq<T>, i: nat, x: T): (r: seq<T>)
    requires i <= |s|
  {
    s[..i] + [x] + s[i..]
  }

  /** `x` inserted at the first n positions. */
  function Insertions<T>(s: seq<T>, x: T, n: nat): (r: seq<seq<T>>)
    requires n <= |s| + 1
    ensures |r| == n && forall i :: 0 <= i < n ==> r[i] == InsertAt(s, i, x)
  {
    if n == 0 then [] else Insertions(s, x, n - 1) + [InsertAt(s, n - 1, x)]
  }

  function InsertIntoAll<T>(ss: seq<seq<T>>, x: T): seq<seq<T>> {
    if ss == [] then [] else
    var s := ss[|ss| - 1];
    InsertIntoAll(ss[..|ss| - 1], x) + Insertions(s, x, |s| + 1)
  }

  function AllPermutations<T>(s: seq<T>): seq<seq<T>> {
    if |s| <= 1 then [s] else InsertIntoAll(AllPermutations(s[1..]), s[0])
  }

  /** The inner loop: the item inserted at every position of a copy of the sub-list. */
  method InsertEverywhere<T>(outLists: seq<seq<T>>, subList: seq<T>, item: T) returns (out: seq<seq<T>>)
    ensures out == outLists + Insertions(subList, item, |subList| + 1)
  {
    out := outLists;
    for i := 0 to |subList| + 1
      invariant out == outLists + Insertions(subList, item, i)
    {
      var newList := subList[..i] + [item] + subList[i..];
      out := out + [newList];
    }
  }

  lemma InsertIntoNone<T>(ss: seq<seq<T>>, x: T)
    requires ss == []
    ensures InsertIntoAll(ss, x) == []
  {
  }

  lemma InsertIntoAllNext<T>(ss: seq<seq<T>>, k: nat, x: T)
    requires k < |ss|
    ensures InsertIntoAll(ss[..k + 1], x) == InsertIntoAll(ss[..k], x) + Insertions(ss[k], x, |ss[k]| + 1)
  {
    assert ss[..k + 1][..k] == ss[..k];
  }

  /** Exactly the rearrangements of the input: n! lists, none twice when the items are distinct. */
  method Permute<T(!new)>(inputList: seq<T>) returns (outLists: seq<seq<T>>)
    ensures forall p :: p in outLists <==> multiset(p) == multiset(inputList)
    ensures |outLists| == Factorial(|inputList|)
    ensures NoDup(inputList) ==> NoDup(outLists)
    ensures outLists == AllPermutations(inputList)
    decreases |inputList|
  {
    hide InsertIntoAll, Insertions, Factorial, NoDup;
    Arrangements(inputList);
    if |inputList| > 1 {
      var item := inputList[0];
      var subLists := Permute(inputList[1..]);
      outLists := [];
      InsertIntoNone(subLists[..0], item);
      for k := 0 to |subLists|
        invariant outLists == InsertIntoAll(subLists[..k], item)
      {
        InsertIntoAllNext(subLists, k, item);
        outLists := InsertEverywhere(outLists, subLists[k], item);
      }
      assert subLists[..|subLists|] == subLists;
    } else {
      outLists := [inputList];
    }
  }

  // ----- Membership --------------------------------------------------------------------------

  lemma {:induction false} InsertIntoAllMembers<T>(ss: seq<seq<T>>, x: T, p: seq<T>)
    ensures p in InsertIntoAll(ss, x) <==> exists k, i :: 0 <= k < |ss| && 0 <= i <= |ss[k]| && p == InsertAt(ss[k], i, x)
  {
    if ss != [] {
      var n := |ss| - 1;
      InsertIntoAllMembers(ss[..n], x, p);
      var tail := Insertions(ss[n], x, |ss[n]| + 1);
      if k, i :| 0 <= k < |ss| && 0 <= i <= |ss[k]| && p == InsertAt(ss[k], i, x) {
        if k == n {
          assert tail[i] == p;
        } else {
          assert ss[..n][k] == ss[k];
        }
      }
      if p in InsertIntoAll(ss, x) {
        if p in tail {
          var i :| 0 <= i < |tail| && tail[i] == p;
          assert p == InsertAt(ss[n], i, x);
        } else {
          var k, i :| 0 <= k < |ss[..n]| && 0 <= i <= |ss[..n][k]| && p == InsertAt(ss[..n][k], i, x);
          assert p == InsertAt(ss[k], i, x);
        }
      }
    }
  }

  lemma InsertMultiset<T>(s: seq<T>, i: nat, x: T)
    requires i <= |s|
    ensures multiset(InsertAt(s, i, x)) == multiset(s) + multiset{x}
  {
    assert s == s[..i] + s[i..];
  }

  lemma {:induction false} ListedIsRearranged<T>(s: seq<T>, p: seq<T>)
    requires p in AllPermutations(s)
    ensures multiset(p) == multiset(s) && |p| == |s|
    decreases |s|
  {
    if |s| > 1 {
      hide InsertIntoAll;
      var subs := AllPermutations(s[1..]);
      InsertIntoAllMembers(subs, s[0], p);
      var k, i :| 0 <= k < |subs| && 0 <= i <= |subs[k]| && p == InsertAt(subs[k], i, s[0]);
      ListedIsRearranged(s[1..], subs[k]);
      InsertMultiset(subs[k], i, s[0]);
      HeadAndRest(s);
    }
  }

  lemma HeadAndRest<T>(s: seq<T>)
    requires s != []
    ensures multiset(s) == multiset(s[1..]) + multiset{s[0]}
  {
    assert s == [s[0]] + s[1..];
  }

  lemma Cancel<T>(a: multiset<T>, b: multiset<T>, x: T)
    requires a + multiset{x} == b + multiset{x}
    ensures a == b
  {
    assert a == a + multiset{x} - multiset{x};
    assert b == b + multiset{x} - multiset{x};
  }

  /** Taking out one occurrence of an item. */
  lemma TakeOut<T>(p: seq<T>, x: T) returns (q: seq<T>, i: nat)
    requires x in multiset(p)
    ensures i <= |q| && p == InsertAt(q, i, x) && multiset(p) == multiset(q) + multiset{x}
  {
    i :| 0 <= i < |p| && p[i] == x;
    q := p[..i] + p[i + 1..];
    InsertMultiset(q, i, x);
    assert p == InsertAt(q, i, x);
  }

  lemma {:induction false} RearrangedIsListed<T>(s: seq<T>, p: seq<T>)
    requires multiset(p) == multiset(s)
    ensures p in AllPermutations(s)
    decreases |s|
  {
    SizeOf(p);
    SizeOf(s);
    if |s| <= 1 {
      if |s| == 1 { assert p[0] in multiset(p); }
      assert p == s;
    } else {
      var rest := s[1..];
      HeadAndRest(s);
      var q, i := TakeOut(p, s[0]);
      Cancel(multiset(q), multiset(rest), s[0]);
      RearrangedIsListed(rest, q);
      ListedInserted(AllPermutations(rest), q, i, s[0]);
    }
  }

  lemma ListedInserted<T>(ss: seq<seq<T>>, q: seq<T>, i: nat, x: T)
    requires q in ss && i <= |q|
    ensures InsertAt(q, i, x) in InsertIntoAll(ss, x)
  {
  }

  /** The arrangements produced are exactly the rearrangements of the input. */
  lemma Rearranged<T>(s: seq<T>, p: seq<T>)
    ensures p in AllPermutations(s) <==> multiset(p) == multiset(s)
  {
    if p in AllPermutations(s) { ListedIsRearranged(s, p); }
    if multiset(p) == multiset(s) { RearrangedIsListed(s, p); }
  }

  lemma SizeOf<T>(s: seq<T>)
    ensures |multiset(s)| == |s|
  {
  }

  // ----- Number ------------------------------------------------------------------------------------

  function Factorial(n: nat): nat {
    if n == 0 then 1 else n * Factorial(n - 1)
  }

  lemma {:induction false} InsertIntoAllSize<T>(ss: seq<seq<T>>, x: T, n: nat)
    requires forall k :: 0 <= k < |ss| ==> |ss[k]| == n
    ensures |InsertIntoAll(ss, x)| == |ss| * (n + 1)
  {
    if ss != [] {
      InsertIntoAllSize(ss[..|ss| - 1], x, n);
      OneMore(|ss| - 1, n + 1);
    }
  }

  lemma OneMore(a: nat, b: nat)
    ensures (a + 1) * b == a * b + b
  {
  }

  /** n! arrangements for n items, also for none. */
  lemma {:induction false} PermutationCount<T>(s: seq<T>)
    ensures |AllPermutations(s)| == Factorial(|s|)
    decreases |s|
  {
    if |s| > 1 {
      PermutationCount(s[1..]);
      var ss := AllPermutations(s[1..]);
      forall k | 0 <= k < |ss| ensures |ss[k]| == |s| - 1 { ListedIsRearranged(s[1..], ss[k]); }
      InsertIntoAllSize(ss, s[0], |s| - 1);
    } else {
      assert Factorial(1) == 1 * Factorial(0);
    }
  }

  // ----- No repeats --------------------------------------------------------------------------------

  /** Where a new item was inserted, and into what, can be read off the result. */
  lemma InsertInjective<T>(s: seq<T>, i: nat, t: seq<T>, j: nat, x: T)
    requires i <= |s| && j <= |t| && x !in s && x !in t && InsertAt(s, i, x) == InsertAt(t, j, x)
    ensures i == j && s == t
  {
    var r := InsertAt(s, i, x);
    assert r[i] == x && r[j] == x;
    assert s[..i] == r[..i] && s[i..] == r[i + 1..] && t[..j] == r[..j] && t[j..] == r[j + 1..];
    assert s == s[..i] + s[i..] && t == t[..j] + t[j..];
  }

  lemma {:induction false} InsertIntoAllDistinct<T>(ss: seq<seq<T>>, x: T)
    requires NoDup(ss) && forall k :: 0 <= k < |ss| ==> x !in ss[k]
    ensures NoDup(InsertIntoAll(ss, x))
  {
    if ss != [] {
      var n := |ss| - 1;
      var front, s := ss[..n], ss[n];
      InsertIntoAllDistinct(front, x);
      var a, b := InsertIntoAll(front, x), Insertions(s, x, |s| + 1);
      InsertionsDistinct(s, x);
      forall i, j | 0 <= i < |a| && 0 <= j < |b| ensures a[i] != b[j] {
        NotInsertedBefore(front, s, x, a[i], j);
      }
    }
  }

  lemma InsertionsDistinct<T>(s: seq<T>, x: T)
    requires x !in s
    ensures NoDup(Insertions(s, x, |s| + 1))
  {
    var b := Insertions(s, x, |s| + 1);
    forall i, j | 0 <= i < j < |b| ensures b[i] != b[j] {
      if b[i] == b[j] { InsertInjective(s, i, s, j, x); }
    }
  }

  lemma NotInsertedBefore<T>(front: seq<seq<T>>, s: seq<T>, x: T, p: seq<T>, j: nat)
    requires p in InsertIntoAll(front, x) && s !in front && x !in s && j <= |s|
    requires forall k :: 0 <= k < |front| ==> x !in front[k]
    ensures p != InsertAt(s, j, x)
  {
    InsertIntoAllMembers(front, x, p);
    var k, m :| 0 <= k < |front| && 0 <= m <= |front[k]| && p == InsertAt(front[k], m, x);
    if p == InsertAt(s, j, x) { InsertInjective(front[k], m, s, j, x); }
  }

  /** Distinct items: no arrangement is listed twice. */
  lemma {:induction false} PermutationsDistinct<T>(s: seq<T>)
    requires NoDup(s)
    ensures NoDup(AllPermutations(s))
    decreases |s|
  {
    if |s| > 1 {
      var rest := s[1..];
      PermutationsDistinct(rest);
      var ss := AllPermutations(rest);
      forall k | 0 <= k < |ss| ensures s[0] !in ss[k] {
        assert ss[k] in ss;
        Rearranged(rest, ss[k]);
        assert s[0] !in multiset(rest);
      }
      InsertIntoAllDistinct(ss, s[0]);
    }
  }

  lemma Arrangements<T(!new)>(s: seq<T>)
    ensures forall p :: p in AllPermutations(s) <==> multiset(p) == multiset(s)
    ensures |AllPermutations(s)| == Factorial(|s|)
    ensures NoDup(s) ==> NoDup(AllPermutations(s))
  {
    forall p ensures p in AllPermutations(s) <==> multiset(p) == multiset(s) { Rearranged(s, p); }
    PermutationCount(s);
    if NoDup(s) { PermutationsDistinct(s); }
  }
}
