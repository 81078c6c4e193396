/** Gathering the configuration paths of a type: a depth-first search over the (cyclic) graph of types. */
module ConfigPaths {
  import opened Basics
  import opened Graphs

  // ----- The registry of types -------------------------------------------------------------

  /** The numeric id of a registered type. */
  type TypeId = nat

  datatype Attribute =
    | PointerTo(name: string, pointee: TypeId)
    | ContainerOf(name: string, item: TypeId)
    | Plain(name: string)

  /** `derived` holds (c, p) when c is a child of p, directly or not; `objectType` is the id of the root class. */
  datatype Registry = Registry(
    registered: seq<TypeId>, names: map<TypeId, string>, attributes: map<TypeId, seq<Attribute>>,
    derived: set<(TypeId, TypeId)>, aggregates: seq<(TypeId, TypeId)>, objectType: TypeId)
  {
    function Universe(): set<TypeId> { set t | t in registered }

    function NameOf(t: TypeId): string { if t in names then names[t] else "" }

    function AttributesOf(t: TypeId): seq<Attribute> { if t in attributes then attributes[t] else [] }

    /** Every type that is mentioned is registered. */
    ghost predicate Closed() {
      && (forall t, a :: t in attributes && a in attributes[t] ==>
            match a { case PointerTo(_, p) => p in Universe() case ContainerOf(_, i) => i in Universe() case Plain(_) => true })
      && (forall p :: p in aggregates ==> p.0 in Universe() && p.1 in Universe())
    }
  }

  /** A labelled edge to another type. */
  datatype Edge = NoEdge | Edge(name: string, target: TypeId)

  function AttributeEdge(reg: Registry, a: Attribute): Edge {
    match a
    case PointerTo(name, pointee) => if pointee == reg.objectType then NoEdge else Edge(name, pointee)
    case ContainerOf(name, item) => Edge(name + "/[i]", item)
    case Plain(_) => NoEdge
  }

  function ChildEdge(reg: Registry, tid: TypeId, child: TypeId): Edge {
    if (child, tid) in reg.derived then Edge("$" + reg.NameOf(child), child) else NoEdge
  }

  function AggregateEdge(reg: Registry, tid: TypeId, pair: (TypeId, TypeId)): Edge {
    if pair.1 == tid then Edge("$" + reg.NameOf(pair.0), pair.0)
    else if pair.0 == tid then Edge("$" + reg.NameOf(pair.1), pair.1)
    else NoEdge
  }

  /** The places where a type may have an edge: its attributes, then all registered types, then all aggregations. */
  function Slots(reg: Registry, tid: TypeId): nat {
    |reg.AttributesOf(tid)| + |reg.registered| + |reg.aggregates|
  }

  function SlotEdge(reg: Registry, tid: TypeId, k: nat): Edge
    requires k < Slots(reg, tid)
  {
    var a, r := |reg.AttributesOf(tid)|, |reg.registered|;
    if k < a then AttributeEdge(reg, reg.AttributesOf(tid)[k])
    else if k < a + r then ChildEdge(reg, tid, reg.registered[k - a])
    else AggregateEdge(reg, tid, reg.aggregates[k - a - r])
  }

  /** The edges of a type, with their labels: to what an attribute points to, unless that is the root class; to the items
      of a container; to every registered child; and to the other end of every aggregation. */
  lemma SlotEdgeIff(reg: Registry, tid: TypeId, k: nat, name: string, target: TypeId)
    requires k < Slots(reg, tid)
    ensures var a, r := |reg.AttributesOf(tid)|, |reg.registered|;
      SlotEdge(reg, tid, k) == Edge(name, target) <==>
        if k < a then
          || (reg.AttributesOf(tid)[k] == PointerTo(name, target) && target != reg.objectType)
          || exists n :: reg.AttributesOf(tid)[k] == ContainerOf(n, target) && name == n + "/[i]"
        else
          && name == "$" + reg.NameOf(target)
          && if k < a + r then reg.registered[k - a] == target && (target, tid) in reg.derived
             else reg.aggregates[k - a - r] == (target, tid) || reg.aggregates[k - a - r] == (tid, target)
  {
    var a, r := |reg.AttributesOf(tid)|, |reg.registered|;
    if k < a && reg.AttributesOf(tid)[k].ContainerOf? { var n := reg.AttributesOf(tid)[k].name; }
  }

  // ----- Simple labelled paths -----------------------------------------------------------------

  ghost predicate HasEdge(reg: Registry, tid: TypeId, k: nat) {
    k < Slots(reg, tid) && SlotEdge(reg, tid, k).Edge?
  }

  /** A path from `tid` names the slot taken at each type on the way. */
  ghost predicate IsPath(reg: Registry, tid: TypeId, p: seq<nat>)
    decreases |p|
  {
    p != [] ==> HasEdge(reg, tid, p[0]) && IsPath(reg, SlotEdge(reg, tid, p[0]).target, p[1..])
  }

  ghost function Visited(reg: Registry, tid: TypeId, p: seq<nat>): (v: seq<TypeId>)
    ensures v != []
    decreases |p|
  {
    if p == [] || !HasEdge(reg, tid, p[0]) then [tid] else [tid] + Visited(reg, SlotEdge(reg, tid, p[0]).target, p[1..])
  }

  ghost function LabelsOf(reg: Registry, tid: TypeId, p: seq<nat>): seq<string>
    decreases |p|
  {
    if p == [] || !HasEdge(reg, tid, p[0]) then []
    else [SlotEdge(reg, tid, p[0]).name] + LabelsOf(reg, SlotEdge(reg, tid, p[0]).target, p[1..])
  }

  /** No type twice on the way, and none of those in `stack`. */
  ghost predicate IsSimplePath(reg: Registry, tid: TypeId, p: seq<nat>, stack: seq<TypeId>) {
    && IsPath(reg, tid, p) && NoDup(Visited(reg, tid, p))
    && forall t :: t in Visited(reg, tid, p) ==> t !in stack
  }

  /** The configuration path as text. */
  function Render(labels: seq<string>): string {
    if labels == [] then "" else Render(labels[..|labels| - 1]) + "/" + labels[|labels| - 1]
  }

  /** Each label is preceded by a slash. */
  lemma {:induction false} RenderConcat(a: seq<string>, b: seq<string>, text: string)
    ensures Render([]) == "" && Render([text]) == "/" + text
    ensures Render(a + b) == Render(a) + Render(b)
    decreases |b|
  {
    assert Render([text]) == Render([]) + "/" + text by { assert [text][..0] == []; }
    if b == [] {
      assert a + b == a && Render(a) + "" == Render(a);
    } else {
      var n := |b| - 1;
      assert (a + b)[..|a + b| - 1] == a + b[..n];
      RenderConcat(a, b[..n], text);
      assert Render(a) + (Render(b[..n]) + "/" + b[n]) == Render(a) + Render(b[..n]) + "/" + b[n];
    }
  }

  /** What a path contributes to the output when the labels `before` lead to `tid`: where it ends, and its text. */
  ghost function Entry(reg: Registry, tid: TypeId, before: seq<string>, p: seq<nat>): (TypeId, string) {
    var v := Visited(reg, tid, p);
    (v[|v| - 1], Render(before + LabelsOf(reg, tid, p)))
  }

  ghost function Entries(reg: Registry, tid: TypeId, before: seq<string>, ps: seq<seq<nat>>): seq<(TypeId, string)> {
    seq(|ps|, i requires 0 <= i < |ps| => Entry(reg, tid, before, ps[i]))
  }

  // ----- The search as an enumeration ------------------------------------------------------------

  ghost function Room(reg: Registry, stack: seq<TypeId>): nat {
    |reg.Universe() - Elements(stack)|
  }

  lemma RoomShrinks(reg: Registry, stack: seq<TypeId>, tid: TypeId)
    requires tid in reg.Universe() && tid !in stack
    ensures Room(reg, stack + [tid]) < Room(reg, stack)
  {
    assert reg.Universe() - Elements(stack + [tid]) == (reg.Universe() - Elements(stack)) - {tid};
    assert tid in reg.Universe() - Elements(stack);
  }

  lemma TargetRegistered(reg: Registry, tid: TypeId, k: nat)
    requires reg.Closed() && HasEdge(reg, tid, k)
    ensures SlotEdge(reg, tid, k).target in reg.Universe()
  {
    var a, r := |reg.AttributesOf(tid)|, |reg.registered|;
    if k < a {
      assert reg.AttributesOf(tid)[k] in reg.attributes[tid];
    } else if k >= a + r {
      assert reg.aggregates[k - a - r] in reg.aggregates;
    }
  }

  ghost function Prefixed(k: nat, ps: seq<seq<nat>>): seq<seq<nat>> {
    seq(|ps|, i requires 0 <= i < |ps| => [k] + ps[i])
  }

  /** The paths in the order in which the search meets them. */
  ghost function Paths(reg: Registry, tid: TypeId, stack: seq<TypeId>): seq<seq<nat>>
    requires reg.Closed() && tid in reg.Universe()
    decreases Room(reg, stack), 1, 0
  {
    if tid in stack then [] else
    RoomShrinks(reg, stack, tid);
    [[]] + PathsVia(reg, tid, stack, Slots(reg, tid))
  }

  /** The non-empty ones that start with one of the first `n` slots. */
  ghost function PathsVia(reg: Registry, tid: TypeId, stack: seq<TypeId>, n: nat): seq<seq<nat>>
    requires reg.Closed() && tid in reg.Universe() && tid !in stack && n <= Slots(reg, tid)
    decreases Room(reg, stack), 0, n
  {
    if n == 0 then [] else
    var e := SlotEdge(reg, tid, n - 1);
    PathsVia(reg, tid, stack, n - 1) +
    if e == NoEdge then [] else
    RoomShrinks(reg, stack, tid);
    TargetRegistered(reg, tid, n - 1);
    Prefixed(n - 1, Paths(reg, e.target, stack + [tid]))
  }

  lemma PathsViaNext(reg: Registry, tid: TypeId, stack: seq<TypeId>, n: nat)
    requires reg.Closed() && tid in reg.Universe() && tid !in stack && n < Slots(reg, tid)
    ensures Room(reg, stack + [tid]) < Room(reg, stack)
    ensures !HasEdge(reg, tid, n) ==> PathsVia(reg, tid, stack, n + 1) == PathsVia(reg, tid, stack, n)
    ensures HasEdge(reg, tid, n) ==>
              var target := SlotEdge(reg, tid, n).target;
              && target in reg.Universe()
              && PathsVia(reg, tid, stack, n + 1) == PathsVia(reg, tid, stack, n) + Prefixed(n, Paths(reg, target, stack + [tid]))
  {
    RoomShrinks(reg, stack, tid);
    if HasEdge(reg, tid, n) { TargetRegistered(reg, tid, n); }
  }

  lemma PathsStart(reg: Registry, tid: TypeId, stack: seq<TypeId>)
    requires reg.Closed() && tid in reg.Universe() && tid !in stack
    ensures Paths(reg, tid, stack) == [[]] + PathsVia(reg, tid, stack, Slots(reg, tid))
    ensures PathsVia(reg, tid, stack, 0) == []
  {
  }

  /** The enumeration holds exactly the simple paths ... */
  lemma {:induction false} PathsAreSimple(reg: Registry, tid: TypeId, stack: seq<TypeId>, p: seq<nat>)
    requires reg.Closed() && tid in reg.Universe()
    ensures p in Paths(reg, tid, stack) <==> IsSimplePath(reg, tid, p, stack)
    decreases Room(reg, stack), 1, 0
  {
    if tid !in stack {
      RoomShrinks(reg, stack, tid);
      PathsViaAreSimple(reg, tid, stack, Slots(reg, tid), p);
      if p == [] {
        assert p in [[]] + PathsVia(reg, tid, stack, Slots(reg, tid));
        assert NoDup([tid]);
      }
    } else if IsPath(reg, tid, p) {
      assert Visited(reg, tid, p)[0] == tid;
    }
  }

  lemma {:induction false} PathsViaAreSimple(reg: Registry, tid: TypeId, stack: seq<TypeId>, n: nat, p: seq<nat>)
    requires reg.Closed() && tid in reg.Universe() && tid !in stack && n <= Slots(reg, tid)
    ensures p in PathsVia(reg, tid, stack, n) <==> p != [] && p[0] < n && IsSimplePath(reg, tid, p, stack)
    decreases Room(reg, stack), 0, n
  {
    hide Paths, PathsVia, IsSimplePath, Prefixed, Room;
    if n > 0 {
      PathsViaNext(reg, tid, stack, n - 1);
      PathsViaAreSimple(reg, tid, stack, n - 1, p);
      if HasEdge(reg, tid, n - 1) {
        var target := SlotEdge(reg, tid, n - 1).target;
        PrefixedMembers(n - 1, Paths(reg, target, stack + [tid]), p);
        if p != [] && p[0] == n - 1 {
          PathsAreSimple(reg, target, stack + [tid], p[1..]);
          SimpleStep(reg, tid, stack, p);
        }
      } else {
        SimpleHasEdge(reg, tid, p, stack);
      }
    } else {
      PathsStart(reg, tid, stack);
    }
  }

  lemma SimpleHasEdge(reg: Registry, tid: TypeId, p: seq<nat>, stack: seq<TypeId>)
    ensures p != [] && IsSimplePath(reg, tid, p, stack) ==> HasEdge(reg, tid, p[0])
  {
  }

  lemma PrefixedMembers(k: nat, ps: seq<seq<nat>>, p: seq<nat>)
    ensures p in Prefixed(k, ps) <==> p != [] && p[0] == k && p[1..] in ps
  {
    if p in Prefixed(k, ps) {
      var i :| 0 <= i < |ps| && p == [k] + ps[i];
      assert p[1..] == ps[i];
    }
    if p != [] && p[0] == k && p[1..] in ps {
      var i :| 0 <= i < |ps| && ps[i] == p[1..];
      assert Prefixed(k, ps)[i] == p;
    }
  }

  /** A path is simple when its first type is new and the rest is simple with that type on the stack. */
  lemma SimpleStep(reg: Registry, tid: TypeId, stack: seq<TypeId>, p: seq<nat>)
    requires p != [] && HasEdge(reg, tid, p[0]) && tid !in stack
    ensures IsSimplePath(reg, tid, p, stack) <==>
            IsSimplePath(reg, SlotEdge(reg, tid, p[0]).target, p[1..], stack + [tid])
  {
    var next := SlotEdge(reg, tid, p[0]).target;
    if IsPath(reg, next, p[1..]) {
      var rest := Visited(reg, next, p[1..]);
      var all := Visited(reg, tid, p);
      assert all == [tid] + rest;
      if IsSimplePath(reg, tid, p, stack) {
        assert forall i :: 0 <= i < |rest| ==> rest[i] == all[i + 1];
        forall t | t in rest ensures t !in stack + [tid] {
          assert t in all;
          var i :| 0 <= i < |rest| && rest[i] == t;
          assert all[0] != all[i + 1];
        }
      }
      if IsSimplePath(reg, next, p[1..], stack + [tid]) {
        assert tid !in rest;
        forall i, j | 0 <= i < j < |all| ensures all[i] != all[j] {
          assert all[j] == rest[j - 1] && all[j] in rest;
          if i > 0 { assert all[i] == rest[i - 1]; }
        }
      }
    }
  }

  /** ... and each of them once. */
  lemma {:induction false} PathsDistinct(reg: Registry, tid: TypeId, stack: seq<TypeId>)
    requires reg.Closed() && tid in reg.Universe()
    ensures NoDup(Paths(reg, tid, stack))
    decreases Room(reg, stack), 1, 0
  {
    if tid !in stack {
      RoomShrinks(reg, stack, tid);
      var via := PathsVia(reg, tid, stack, Slots(reg, tid));
      PathsViaDistinct(reg, tid, stack, Slots(reg, tid));
      forall i | 0 <= i < |via| ensures via[i] != [] {
        PathsViaAreSimple(reg, tid, stack, Slots(reg, tid), via[i]);
      }
    }
  }

  lemma {:induction false} PathsViaDistinct(reg: Registry, tid: TypeId, stack: seq<TypeId>, n: nat)
    requires reg.Closed() && tid in reg.Universe() && tid !in stack && n <= Slots(reg, tid)
    ensures NoDup(PathsVia(reg, tid, stack, n))
    decreases Room(reg, stack), 0, n
  {
    hide Paths, PathsVia, IsSimplePath, Prefixed, Room;
    if n == 0 {
      PathsStart(reg, tid, stack);
    } else {
      PathsViaNext(reg, tid, stack, n - 1);
      PathsViaDistinct(reg, tid, stack, n - 1);
      if HasEdge(reg, tid, n - 1) {
        var target := SlotEdge(reg, tid, n - 1).target;
        PathsDistinct(reg, target, stack + [tid]);
        var front, sub := PathsVia(reg, tid, stack, n - 1), Paths(reg, target, stack + [tid]);
        forall i | 0 <= i < |front| ensures front[i] != [] && front[i][0] < n - 1 {
          PathsViaAreSimple(reg, tid, stack, n - 1, front[i]);
        }
        PrefixedDistinct(n - 1, front, sub);
      }
    }
  }

  lemma PrefixedDistinct(k: nat, front: seq<seq<nat>>, sub: seq<seq<nat>>)
    requires NoDup(front) && NoDup(sub) && forall i :: 0 <= i < |front| ==> front[i] != [] && front[i][0] < k
    ensures NoDup(front + Prefixed(k, sub))
  {
    var all := front + Prefixed(k, sub);
    forall i, j | 0 <= i < j < |all| ensures all[i] != all[j] {
      if i >= |front| {
        assert all[i][1..] == sub[i - |front|] && all[j][1..] == sub[j - |front|];
      } else if j >= |front| {
        assert all[j][0] == k;
      }
    }
  }

  lemma EntriesConcat(reg: Registry, tid: TypeId, before: seq<string>, a: seq<seq<nat>>, b: seq<seq<nat>>)
    ensures Entries(reg, tid, before, a + b) == Entries(reg, tid, before, a) + Entries(reg, tid, before, b)
  {
  }

  /** Recording below an edge is recording with its label appended to the current path. */
  lemma EntriesPrefixed(reg: Registry, tid: TypeId, before: seq<string>, k: nat, ps: seq<seq<nat>>)
    requires HasEdge(reg, tid, k)
    ensures Entries(reg, tid, before, Prefixed(k, ps)) ==
            Entries(reg, SlotEdge(reg, tid, k).target, before + [SlotEdge(reg, tid, k).name], ps)
  {
    var e := SlotEdge(reg, tid, k);
    forall i | 0 <= i < |ps|
      ensures Entry(reg, tid, before, [k] + ps[i]) == Entry(reg, e.target, before + [e.name], ps[i])
    {
      assert ([k] + ps[i])[1..] == ps[i];
      assert before + ([e.name] + LabelsOf(reg, e.target, ps[i])) == before + [e.name] + LabelsOf(reg, e.target, ps[i]);
    }
  }

  /** The empty path is recorded first. */
  lemma EntriesStart(reg: Registry, tid: TypeId, before: seq<string>)
    ensures Entries(reg, tid, before, [[]]) == [(tid, Render(before))]
  {
    assert before + [] == before;
  }

  // ----- The search ----------------------------------------------------------------------------------

  class StaticInformation {
    const reg: Registry
    var output: seq<(TypeId, string)>
    var currentPath: seq<string>
    var alreadyProcessed: seq<TypeId>

    constructor (reg: Registry)
      ensures this.reg == reg && output == [] && currentPath == [] && alreadyProcessed == []
    {
      this.reg := reg;
      output, currentPath, alreadyProcessed := [], [], [];
    }

    method GetCurrentPath() returns (s: string)
      ensures s == Render(currentPath)
    {
      s := "";
      for i := 0 to |currentPath|
        invariant s == Render(currentPath[..i])
      {
        assert currentPath[..i + 1][..i] == currentPath[..i];
        s := s + "/" + currentPath[i];
      }
      assert currentPath[..|currentPath|] == currentPath;
    }

    method RecordOutput(tid: TypeId)
      modifies this`output
      ensures output == old(output) + [(tid, Render(currentPath))]
    {
      var path := GetCurrentPath();
      output := output + [(tid, path)];
    }

    method HasAlreadyBeenProcessed(tid: TypeId) returns (b: bool)
      ensures b <==> tid in alreadyProcessed
    {
      for i := 0 to |alreadyProcessed|
        invariant tid !in alreadyProcessed[..i]
      {
        if alreadyProcessed[i] == tid { return true; }
      }
      return false;
    }

    /** Both stacks are as they were, and the output has grown by the simple paths from `tid`. */
    method DoGather(tid: TypeId)
      requires reg.Closed() && tid in reg.Universe() && |currentPath| == |alreadyProcessed|
      modifies this
      ensures currentPath == old(currentPath) && alreadyProcessed == old(alreadyProcessed)
      ensures output == old(output) + Entries(reg, tid, currentPath, Paths(reg, tid, alreadyProcessed))
      decreases Room(reg, alreadyProcessed), 1, 0
    {
      hide Paths, PathsVia, Entries, Room, Prefixed;
      var done := HasAlreadyBeenProcessed(tid);
      if done {
        NothingOnStack(reg, tid, currentPath, alreadyProcessed);
        return;
      }
      ghost var stack, before, out := alreadyProcessed, currentPath, output;
      PathsStart(reg, tid, stack);
      EntriesStart(reg, tid, before);
      RecordOutput(tid);
      assert [[]] + PathsVia(reg, tid, stack, 0) == [[]];
      var attributes := reg.AttributesOf(tid);
      var a, r := |attributes|, |reg.registered|;
      for i := 0 to a
        invariant SoFar(tid, stack, before, out, i)
      {
        match attributes[i]
        case PointerTo(name, pointee) =>
          if pointee == reg.objectType { NoStep(tid, stack, before, out, i); continue; }
          Follow(tid, stack, before, out, i, name, pointee);
        case ContainerOf(name, item) =>
          Follow(tid, stack, before, out, i, name + "/[i]", item);
        case Plain(_) =>
          NoStep(tid, stack, before, out, i);
      }
      for j := 0 to r
        invariant SoFar(tid, stack, before, out, a + j)
      {
        var child := reg.registered[j];
        if (child, tid) in reg.derived {
          Follow(tid, stack, before, out, a + j, "$" + reg.NameOf(child), child);
        } else {
          NoStep(tid, stack, before, out, a + j);
        }
      }
      for k := 0 to |reg.aggregates|
        invariant SoFar(tid, stack, before, out, a + r + k)
      {
        var item := reg.aggregates[k];
        if item.0 == tid || item.1 == tid {
          var other := item.1;
          if item.1 == tid { other := item.0; }
          Follow(tid, stack, before, out, a + r + k, "$" + reg.NameOf(other), other);
        } else {
          NoStep(tid, stack, before, out, a + r + k);
        }
      }
    }

    /** The state inside DoGather once the first `n` slots have been dealt with. */
    ghost predicate SoFar(tid: TypeId, stack: seq<TypeId>, before: seq<string>, out: seq<(TypeId, string)>, n: nat)
      reads this
    {
      && reg.Closed() && tid in reg.Universe() && tid !in stack && n <= Slots(reg, tid) && |before| == |stack|
      && currentPath == before && alreadyProcessed == stack
      && output == out + Entries(reg, tid, before, [[]] + PathsVia(reg, tid, stack, n))
    }

    lemma NoStep(tid: TypeId, stack: seq<TypeId>, before: seq<string>, out: seq<(TypeId, string)>, n: nat)
      requires SoFar(tid, stack, before, out, n) && n < Slots(reg, tid) && !HasEdge(reg, tid, n)
      ensures SoFar(tid, stack, before, out, n + 1)
    {
    }

    /** Push the label and the type, search below, and pop both. */
    method Follow(tid: TypeId, ghost stack: seq<TypeId>, ghost before: seq<string>, ghost out: seq<(TypeId, string)>,
                  ghost n: nat, name: string, target: TypeId)
      requires SoFar(tid, stack, before, out, n) && n < Slots(reg, tid) && SlotEdge(reg, tid, n) == Edge(name, target)
      modifies this
      ensures SoFar(tid, stack, before, out, n + 1)
      decreases Room(reg, stack), 0, 0
    {
      hide Paths, PathsVia, Entries, Room, Prefixed;
      PathsViaNext(reg, tid, stack, n);
      currentPath := currentPath + [name];
      alreadyProcessed := alreadyProcessed + [tid];
      DoGather(target);
      alreadyProcessed := alreadyProcessed[..|alreadyProcessed| - 1];
      currentPath := currentPath[..|currentPath| - 1];
      var below := Paths(reg, target, stack + [tid]);
      EntriesPrefixed(reg, tid, before, n, below);
      EntriesConcat(reg, tid, before, [[]] + PathsVia(reg, tid, stack, n), Prefixed(n, below));
      assert [[]] + PathsVia(reg, tid, stack, n) + Prefixed(n, below) == [[]] + PathsVia(reg, tid, stack, n + 1);
    }

    /** From empty stacks: one entry for each simple labelled path from `tid`, and no other. */
    method Gather(tid: TypeId) returns (ghost paths: seq<seq<nat>>)
      requires reg.Closed() && tid in reg.Universe() && currentPath == [] && alreadyProcessed == []
      modifies this
      ensures currentPath == [] && alreadyProcessed == []
      ensures NoDup(paths) && forall p :: p in paths <==> IsSimplePath(reg, tid, p, [])
      ensures output == old(output) + Entries(reg, tid, [], paths)
    {
      DoGather(tid);
      paths := Paths(reg, tid, []);
      PathsDistinct(reg, tid, []);
      forall p ensures p in paths <==> IsSimplePath(reg, tid, p, []) { PathsAreSimple(reg, tid, [], p); }
    }
  }

  lemma NothingOnStack(reg: Registry, tid: TypeId, before: seq<string>, stack: seq<TypeId>)
    requires reg.Closed() && tid in reg.Universe() && tid in stack
    ensures Entries(reg, tid, before, Paths(reg, tid, stack)) == []
  {
  }
}
