/**
 Running a parsed pipeline.  Processes are an oracle: `status(p)` is the exit code of the process started
 for the command at position `p`, should it be started.  What the run does to the outside world is recorded
 as a trace of events.
 */
module ShellRun {
  import opened Basics
  import opened ShellSyntax

  type Oracle = nat -> int

  // ----- The line as the run reads it ------------------------------------------------------------

  datatype RunError = IndexError | TypeError

  /** An exit code, or an exception; `unwaited` are the processes of the unfinished pipe group it leaves behind. */
  datatype Outcome = ExitCode(code: int) | Raised(error: RunError, unwaited: seq<nat>)

  /** Pipe groups, as positions of their commands, joined by && and ||; or the point where a `cd` cannot be run. */
  datatype AndOrList =
    | Last(group: seq<nat>)
    | Chain(group: seq<nat>, op: Node, rest: AndOrList)
    | Broken(error: RunError, group: seq<nat>)

  /** The list read from position `pos` on, `cd`/`&&` pairs removed; `group` is the pipe group under construction. */
  ghost function PlanFrom(nodes: seq<Node>, pos: nat, group: seq<nat>): AndOrList
    requires pos <= |nodes|
    decreases |nodes| - pos
  {
    if pos == |nodes| then Broken(IndexError, group)
    else if nodes[pos].Chdir? then
      if pos + 1 == |nodes| then Broken(IndexError, group)
      else if nodes[pos].dir == None then Broken(TypeError, group)
      else PlanFrom(nodes, pos + 2, group)
    else if pos + 1 == |nodes| then Last(group + [pos])
    else if nodes[pos + 1].Pipe? then PlanFrom(nodes, pos + 2, group + [pos])
    else Chain(group + [pos], nodes[pos + 1], PlanFrom(nodes, pos + 2, []))
  }

  ghost function Plan(nodes: seq<Node>): AndOrList { PlanFrom(nodes, 0, []) }

  /** The status of a pipe group is that of its last command (section 2.9.2 of the POSIX Shell Command Language). */
  ghost function GroupStatus(group: seq<nat>, status: Oracle): int {
    if group == [] then 0 else status(group[|group| - 1])
  }

  /** Whether the command list goes on after a group with status `v`. */
  ghost predicate Proceeds(op: Node, v: int) {
    if op.And? then v == 0 else v != 0
  }

  /** a && (b || (c ...)): a group that does not let its operator proceed ends the whole list. */
  ghost function RightEval(l: AndOrList, status: Oracle): Outcome {
    match l
    case Last(g) => ExitCode(GroupStatus(g, status))
    case Broken(e, g) => Raised(e, g)
    case Chain(g, op, rest) =>
      var v := GroupStatus(g, status);
      if Proceeds(op, v) then RightEval(rest, status) else ExitCode(v)
  }

  /** The commands the right-nested evaluation starts, in order. */
  ghost function Executed(l: AndOrList, status: Oracle): seq<nat> {
    match l
    case Last(g) => g
    case Broken(_, g) => g
    case Chain(g, op, rest) => g + if Proceeds(op, GroupStatus(g, status)) then Executed(rest, status) else []
  }

  lemma NodeAt(nodes: seq<Node>, pos: nat)
    requires WellFormedLine(nodes) && pos < |nodes| && pos % 2 == 0
    ensures NodeOk(nodes[pos]) && (pos + 1 < |nodes| ==> pos + 2 < |nodes| && MayFollow(nodes[pos], nodes[pos + 1]))
    ensures pos + 1 == |nodes| && nodes[pos].Command? ==> !nodes[pos].stdout.ToPipe?
  {
  }

  // ----- Which commands are started ------------------------------------------------------------------

  /** The run goes on behind position `p`: a pipe goes on, && on status 0 only, || on any other status only; a `cd` with
      a directory goes on to its &&. */
  ghost predicate GoesOn(nodes: seq<Node>, status: Oracle, p: nat)
    requires p + 1 < |nodes|
  {
    match nodes[p] {
      case Chdir(dir) => dir.Some?
      case _ => match nodes[p + 1] { case And => status(p) == 0 case Or => status(p) != 0 case _ => true }
    }
  }

  /** The run that is at `from` gets to `q`. */
  ghost predicate Reached(nodes: seq<Node>, status: Oracle, from: nat, q: nat)
    requires q <= |nodes|
    decreases q
  {
    q < from + 2 || (Reached(nodes, status, from, q - 2) && GoesOn(nodes, status, q - 2))
  }

  lemma {:induction false} ReachedFirst(nodes: seq<Node>, status: Oracle, pos: nat, q: nat)
    requires pos + 2 <= q < |nodes| && (q - pos) % 2 == 0
    ensures Reached(nodes, status, pos, q) <==> GoesOn(nodes, status, pos) && Reached(nodes, status, pos + 2, q)
  {
    if q > pos + 2 { ReachedFirst(nodes, status, pos, q - 2); }
  }

  lemma {:induction false} GroupExecuted(nodes: seq<Node>, pos: nat, group: seq<nat>, status: Oracle)
    requires pos <= |nodes|
    ensures group <= Executed(PlanFrom(nodes, pos, group), status)
    decreases |nodes| - pos
  {
    if pos + 1 < |nodes| && nodes[pos].Chdir? && nodes[pos].dir.Some? {
      if pos + 2 <= |nodes| { GroupExecuted(nodes, pos + 2, group, status); }
    } else if pos + 1 < |nodes| && !nodes[pos].Chdir? && nodes[pos + 1].Pipe? {
      if pos + 2 <= |nodes| { GroupExecuted(nodes, pos + 2, group + [pos], status); }
    }
  }

  lemma {:induction false} ExecutedIffReached(nodes: seq<Node>, pos: nat, group: seq<nat>, status: Oracle, q: nat)
    requires WellFormedLine(nodes) && pos <= q < |nodes| && pos % 2 == 0 && q % 2 == 0 && nodes[q].Command?
    requires forall g :: g in group ==> g < pos
    ensures q in Executed(PlanFrom(nodes, pos, group), status) <==> Reached(nodes, status, pos, q)
    decreases |nodes| - pos
  {
    hide WellFormedLine, NodeOk;
    NodeAt(nodes, pos);
    if q == pos {
      if pos + 1 < |nodes| && nodes[pos + 1].Pipe? {
        GroupExecuted(nodes, pos + 2, group + [pos], status);
        assert (group + [pos])[|group|] == pos;
      }
    } else {
      ReachedFirst(nodes, status, pos, q);
      var group' := if nodes[pos].Chdir? then group else if nodes[pos + 1].Pipe? then group + [pos] else [];
      if !(nodes[pos].Chdir? && nodes[pos].dir == None) { ExecutedIffReached(nodes, pos + 2, group', status, q); }
    }
  }

  ghost predicate Increasing(s: seq<nat>) { forall i, j :: 0 <= i < j < |s| ==> s[i] < s[j] }

  lemma IncreasingSingle(p: nat)
    ensures Increasing([]) && Increasing([p])
  {
  }

  lemma IncreasingConcat(a: seq<nat>, b: seq<nat>)
    requires Increasing(a) && Increasing(b) && forall x, y :: x in a && y in b ==> x < y
    ensures Increasing(a + b)
  {
    forall i, j | 0 <= i < j < |a + b| ensures (a + b)[i] < (a + b)[j] {
      if i < |a| <= j { assert a[i] in a && b[j - |a|] in b; }
    }
  }

  /** Commands are started in the order in which they are written, and the last one started gives the exit code. */
  lemma {:induction false} ExecutedInOrder(nodes: seq<Node>, pos: nat, group: seq<nat>, lo: nat, status: Oracle)
    requires WellFormedLine(nodes) && pos < |nodes| && pos % 2 == 0 && lo <= pos
    requires Increasing(group) && forall g :: g in group ==> lo <= g < pos
    ensures var e := Executed(PlanFrom(nodes, pos, group), status);
      && Increasing(e) && (forall g :: g in e ==> lo <= g)
      && (RightEval(PlanFrom(nodes, pos, group), status).ExitCode? ==>
            e != [] && RightEval(PlanFrom(nodes, pos, group), status) == ExitCode(status(e[|e| - 1])))
    decreases |nodes| - pos
  {
    hide WellFormedLine, NodeOk, Increasing, PlanFrom, RightEval, Executed, GroupStatus;
    NodeAt(nodes, pos);
    var here := group + [pos];
    IncreasingSingle(pos);
    IncreasingConcat(group, [pos]);
    assert GroupStatus(here, status) == status(pos) by { LastStatus(group, pos, status); }
    if BadChdir(nodes, pos) {
      BadChdirRaises(nodes, pos, group, status);
    } else if nodes[pos].Chdir? {
      SkipChdir(nodes, pos, group);
      ExecutedInOrder(nodes, pos + 2, group, lo, status);
    } else if pos + 1 == |nodes| {
      EndOfLine(nodes, pos, group, status);
    } else {
      PassOperator(nodes, pos, group, status);
      if nodes[pos + 1].Pipe? {
        ExecutedInOrder(nodes, pos + 2, here, lo, status);
      } else if Proceeds(nodes[pos + 1], status(pos)) {
        var rest := Executed(PlanFrom(nodes, pos + 2, []), status);
        ExecutedInOrder(nodes, pos + 2, [], pos + 2, status);
        IncreasingConcat(here, rest);
      }
    }
  }

  lemma LastStatus(group: seq<nat>, pos: nat, status: Oracle)
    ensures GroupStatus(group + [pos], status) == status(pos)
  {
  }

  /** A `cd` that cannot be run: at the end of the line, or without a directory. */
  ghost predicate BadChdir(nodes: seq<Node>, pos: nat) {
    pos < |nodes| && nodes[pos].Chdir? && (pos + 1 == |nodes| || nodes[pos].dir == None)
  }

  /** The first `cd` from `pos` on that cannot be run. */
  ghost function FirstBadChdir(nodes: seq<Node>, pos: nat): nat
    decreases |nodes| - pos
  {
    if pos >= |nodes| || BadChdir(nodes, pos) then pos else FirstBadChdir(nodes, pos + 2)
  }

  lemma {:induction false} RaisesIffReached(nodes: seq<Node>, pos: nat, group: seq<nat>, status: Oracle)
    requires WellFormedLine(nodes) && pos < |nodes| && pos % 2 == 0
    ensures var p, r := FirstBadChdir(nodes, pos), RightEval(PlanFrom(nodes, pos, group), status);
      && p >= pos && (p - pos) % 2 == 0
      && (r.Raised? <==> p < |nodes| && Reached(nodes, status, pos, p))
      && (r.Raised? ==> r.error == if p + 1 == |nodes| then IndexError else TypeError)
    decreases |nodes| - pos
  {
    hide WellFormedLine, NodeOk;
    NodeAt(nodes, pos);
    if !BadChdir(nodes, pos) && pos + 1 < |nodes| {
      var group' := if nodes[pos].Chdir? then group else if nodes[pos + 1].Pipe? then group + [pos] else [];
      RaisesIffReached(nodes, pos + 2, group', status);
      var p := FirstBadChdir(nodes, pos + 2);
      if p < |nodes| { ReachedFirst(nodes, status, pos, p); }
    }
  }

  /** The commands started are those the operators lead to, in order; the last one started gives the exit code, unless
      the run gets to a `cd` that cannot be run. */
  ghost predicate StartsAsWritten(nodes: seq<Node>, status: Oracle, r: Outcome, starts: seq<nat>) {
    && Increasing(starts)
    && (forall q :: 0 <= q < |nodes| && nodes[q].Command? ==> (q in starts <==> Reached(nodes, status, 0, q)))
    && match r {
      case ExitCode(code) => starts != [] && code == status(starts[|starts| - 1])
      case Raised(error, _) =>
        var p := FirstBadChdir(nodes, 0);
        p < |nodes| && Reached(nodes, status, 0, p) && error == if p + 1 == |nodes| then IndexError else TypeError
    }
  }

  lemma CommandsEven(nodes: seq<Node>, q: nat)
    requires WellFormedLine(nodes) && q < |nodes| && nodes[q].Command?
    ensures q % 2 == 0
  {
    if q % 2 == 1 { NodeAt(nodes, q - 1); }
  }

  lemma ExecutedAsWritten(nodes: seq<Node>, status: Oracle)
    requires WellFormedLine(nodes)
    ensures StartsAsWritten(nodes, status, RightEval(Plan(nodes), status), Executed(Plan(nodes), status))
  {
    assert nodes != [];
    hide WellFormedLine, Executed, RightEval, PlanFrom, Reached, FirstBadChdir, Increasing;
    IncreasingSingle(0);
    ExecutedInOrder(nodes, 0, [], 0, status);
    RaisesIffReached(nodes, 0, [], status);
    forall q | 0 <= q < |nodes| && nodes[q].Command?
      ensures q in Executed(Plan(nodes), status) <==> Reached(nodes, status, 0, q)
    {
      CommandsEven(nodes, q);
      ExecutedIffReached(nodes, 0, [], status, q);
    }
  }

  // ----- Lines that return an exit code ------------------------------------------------------------

  ghost predicate NoBadChdir(nodes: seq<Node>, pos: nat) {
    forall p :: p >= pos && p % 2 == 0 ==> !BadChdir(nodes, p)
  }

  /** The oracle that keeps the list going. */
  ghost function KeepGoing(nodes: seq<Node>): Oracle {
    (p: nat) => if p + 1 < |nodes| && nodes[p + 1].Or? then 1 else 0
  }

  lemma {:induction false} RaisesOnBadChdir(nodes: seq<Node>, pos: nat, group: seq<nat>)
    requires WellFormedLine(nodes) && pos < |nodes| && pos % 2 == 0 && !NoBadChdir(nodes, pos)
    ensures RightEval(PlanFrom(nodes, pos, group), KeepGoing(nodes)).Raised?
    decreases |nodes| - pos
  {
    hide WellFormedLine, NodeOk;
    NodeAt(nodes, pos);
    if !BadChdir(nodes, pos) {
      var p :| p >= pos && p % 2 == 0 && BadChdir(nodes, p);
      assert p >= pos + 2 && !NoBadChdir(nodes, pos + 2);
      RaisesOnBadChdir(nodes, pos + 2, if nodes[pos].Chdir? then group else if nodes[pos + 1].Pipe? then group + [pos] else []);
    }
  }

  lemma {:induction false} ReturnsWithoutBadChdir(nodes: seq<Node>, pos: nat, group: seq<nat>, status: Oracle)
    requires WellFormedLine(nodes) && pos < |nodes| && pos % 2 == 0 && NoBadChdir(nodes, pos)
    ensures RightEval(PlanFrom(nodes, pos, group), status).ExitCode?
    decreases |nodes| - pos
  {
    hide WellFormedLine, NodeOk;
    NodeAt(nodes, pos);
    assert !BadChdir(nodes, pos);
    if pos + 1 < |nodes| {
      ReturnsWithoutBadChdir(nodes, pos + 2, if nodes[pos].Chdir? then group else if nodes[pos + 1].Pipe? then group + [pos] else [], status);
    }
  }

  /** A parsed pipeline returns an exit code under all exit codes of its commands exactly when no `cd` is bad. */
  lemma ReturnsIffNoBadChdir(nodes: seq<Node>)
    requires WellFormedLine(nodes)
    ensures NoBadChdir(nodes, 0) <==> forall status: Oracle :: RightEval(Plan(nodes), status).ExitCode?
  {
    if NoBadChdir(nodes, 0) {
      forall status: Oracle ensures RightEval(Plan(nodes), status).ExitCode? { ReturnsWithoutBadChdir(nodes, 0, [], status); }
    } else {
      RaisesOnBadChdir(nodes, 0, []);
      var status := KeepGoing(nodes);
      assert RightEval(Plan(nodes), status).Raised?;
    }
  }

  // ----- The line as the standard reads it ----------------------------------------------------------

  /** A `cd` is a command that succeeds. */
  ghost function NodeStatus(nodes: seq<Node>, pos: nat, status: Oracle): int {
    if pos < |nodes| && nodes[pos].Chdir? then 0 else status(pos)
  }

  /** Sections 2.9.2 and 2.9.3: the status of a pipeline is that of its last command; && and || have equal precedence
      and associate to the left.  From `pos` on, `v` is the value so far; a pipeline that `runs` replaces it. */
  ghost function StandardFrom(nodes: seq<Node>, pos: nat, v: int, runs: bool, status: Oracle): int
    decreases |nodes| - pos
  {
    if pos + 2 < |nodes| && nodes[pos + 1].Pipe? then StandardFrom(nodes, pos + 2, v, runs, status)
    else
      var w := if runs then NodeStatus(nodes, pos, status) else v;
      if pos + 2 < |nodes| then StandardFrom(nodes, pos + 2, w, if nodes[pos + 1].Or? then w != 0 else w == 0, status) else w
  }

  ghost function Standard(nodes: seq<Node>, status: Oracle): int {
    StandardFrom(nodes, 0, 0, true, status)
  }

  /** All of && and || from `pos` on are `op`. */
  ghost predicate OnlyOp(nodes: seq<Node>, pos: nat, op: Node) {
    forall i :: pos <= i < |nodes| && (nodes[i].And? || nodes[i].Or?) ==> nodes[i] == op
  }

  /** The end of the first pipeline that does not end in a `cd`. */
  ghost function FirstRealEnd(nodes: seq<Node>, pos: nat): nat
    decreases |nodes| - pos
  {
    if pos + 2 < |nodes| && (nodes[pos].Chdir? || nodes[pos + 1].Pipe?) then FirstRealEnd(nodes, pos + 2) else pos
  }

  /** Once the leading pipelines that end in a `cd` are dropped, only one of && and || is used. */
  ghost predicate OneKind(nodes: seq<Node>) {
    var k := FirstRealEnd(nodes, 0);
    OnlyOp(nodes, k, And) || OnlyOp(nodes, k, Or)
  }

  // ----- When the two readings agree ------------------------------------------------------------------

  /** What the rest of the run returns, whatever precedes `pos` in its pipe group. */
  ghost function RunFrom(nodes: seq<Node>, pos: nat, status: Oracle): Outcome {
    if pos <= |nodes| then RightEval(PlanFrom(nodes, pos, []), status) else ExitCode(0)
  }

  lemma {:induction false} GroupIrrelevant(nodes: seq<Node>, pos: nat, group: seq<nat>, status: Oracle)
    requires WellFormedLine(nodes) && pos < |nodes| && pos % 2 == 0 && NoBadChdir(nodes, pos)
    ensures RightEval(PlanFrom(nodes, pos, group), status) == RunFrom(nodes, pos, status)
    decreases |nodes| - pos
  {
    hide WellFormedLine, NodeOk;
    NodeAt(nodes, pos);
    assert !BadChdir(nodes, pos);
    assert (group + [pos])[|group|] == pos && [] + [pos] == [pos];
    if pos + 1 < |nodes| && (nodes[pos].Chdir? || nodes[pos + 1].Pipe?) {
      GroupIrrelevant(nodes, pos + 2, if nodes[pos].Chdir? then group else group + [pos], status);
      GroupIrrelevant(nodes, pos + 2, if nodes[pos].Chdir? then [] else [pos], status);
    }
  }

  /** One node of the line, read by the run. */
  lemma RunStep(nodes: seq<Node>, pos: nat, status: Oracle)
    requires WellFormedLine(nodes) && pos < |nodes| && pos % 2 == 0 && NoBadChdir(nodes, pos)
    ensures pos + 2 < |nodes| ==> NoBadChdir(nodes, pos + 2)
    ensures nodes[pos].Chdir? ==> pos + 2 < |nodes| && nodes[pos + 1] == And
    ensures pos + 1 < |nodes| ==> pos + 2 < |nodes| && IsOp(nodes[pos + 1])
    ensures RunFrom(nodes, pos, status) ==
            if pos + 1 == |nodes| then ExitCode(status(pos))
            else if nodes[pos].Chdir? || nodes[pos + 1].Pipe? then RunFrom(nodes, pos + 2, status)
            else if Proceeds(nodes[pos + 1], status(pos)) then RunFrom(nodes, pos + 2, status) else ExitCode(status(pos))
  {
    hide WellFormedLine, NodeOk;
    NodeAt(nodes, pos);
    assert !BadChdir(nodes, pos);
    assert [] + [pos] == [pos];
    if pos + 1 < |nodes| && nodes[pos + 1].Pipe? { GroupIrrelevant(nodes, pos + 2, [pos], status); }
  }

  /** Nothing before the end of the first real pipeline matters, to either reading. */
  lemma {:induction false} LeadingDropped(nodes: seq<Node>, pos: nat, status: Oracle)
    requires WellFormedLine(nodes) && pos < |nodes| && pos % 2 == 0 && NoBadChdir(nodes, pos)
    ensures var k := FirstRealEnd(nodes, pos);
      && pos <= k < |nodes| && k % 2 == 0 && NoBadChdir(nodes, k) && nodes[k].Command?
      && (k + 1 < |nodes| ==> nodes[k + 1].And? || nodes[k + 1].Or?)
      && RunFrom(nodes, pos, status) == RunFrom(nodes, k, status)
      && StandardFrom(nodes, pos, 0, true, status) == StandardFrom(nodes, k, 0, true, status)
    decreases |nodes| - pos
  {
    hide WellFormedLine, RunFrom;
    NodeAt(nodes, pos);
    RunStep(nodes, pos, status);
    if pos + 2 < |nodes| && (nodes[pos].Chdir? || nodes[pos + 1].Pipe?) {
      LeadingDropped(nodes, pos + 2, status);
    }
  }

  lemma {:induction false} StandardStays(nodes: seq<Node>, pos: nat, op: Node, v: int, status: Oracle)
    requires OnlyOp(nodes, pos, op) && !Proceeds(op, v)
    requires forall i :: pos <= i < |nodes| && i % 2 == 1 ==> IsOp(nodes[i])
    requires pos % 2 == 0
    ensures StandardFrom(nodes, pos, v, false, status) == v
    decreases |nodes| - pos
  {
    if pos + 2 < |nodes| { StandardStays(nodes, pos + 2, op, v, status); }
  }

  lemma OperatorsOdd(nodes: seq<Node>)
    requires WellFormedLine(nodes)
    ensures forall i :: 0 <= i < |nodes| && i % 2 == 1 ==> IsOp(nodes[i])
  {
    hide WellFormedLine, NodeOk;
    forall i | 0 <= i < |nodes| && i % 2 == 1 ensures IsOp(nodes[i]) { NodeAt(nodes, i - 1); }
  }

  lemma {:induction false} UniformAgrees(nodes: seq<Node>, pos: nat, op: Node, v: int, status: Oracle)
    requires WellFormedLine(nodes) && pos < |nodes| && pos % 2 == 0 && NoBadChdir(nodes, pos)
    requires OnlyOp(nodes, pos, op) && (op.And? || op.Or?)
    ensures RunFrom(nodes, pos, status) == ExitCode(StandardFrom(nodes, pos, v, true, status))
    decreases |nodes| - pos
  {
    hide WellFormedLine, NodeOk, RunFrom;
    RunStep(nodes, pos, status);
    if pos + 2 < |nodes| {
      var w := NodeStatus(nodes, pos, status);
      if nodes[pos + 1].Pipe? || Proceeds(nodes[pos + 1], w) {
        UniformAgrees(nodes, pos + 2, op, if nodes[pos + 1].Pipe? then v else w, status);
      } else {
        OperatorsOdd(nodes);
        StandardStays(nodes, pos + 2, op, w, status);
      }
    }
  }

  /** The oracle under which all commands have the value that lets `op` proceed, except the one at `k`. */
  ghost function AllBut(k: nat, op: Node): Oracle {
    (q: nat) => if (q == k) == op.And? then 1 else 0
  }

  /** Once a pipeline runs and all further commands have status `w`, the line has value `w`. */
  lemma {:induction false} StandardConstant(nodes: seq<Node>, pos: nat, v: int, runs: bool, w: int, status: Oracle)
    requires WellFormedLine(nodes) && pos < |nodes| && pos % 2 == 0 && NoBadChdir(nodes, pos)
    requires (runs || v == w) && (w == 0 || w == 1) && forall q :: q >= pos ==> status(q) == w
    ensures StandardFrom(nodes, pos, v, runs, status) == w
    decreases |nodes| - pos
  {
    hide WellFormedLine, NodeOk, RunFrom;
    RunStep(nodes, pos, status);
    if pos + 2 < |nodes| {
      if nodes[pos + 1].Pipe? {
        StandardConstant(nodes, pos + 2, v, runs, w, status);
      } else {
        var v' := if runs then NodeStatus(nodes, pos, status) else v;
        StandardConstant(nodes, pos + 2, v', Proceeds(nodes[pos + 1], v'), w, status);
      }
    }
  }

  /** A value that `op` does not let proceed is kept up to the first other operator, which lets it proceed. */
  lemma {:induction false} StandardRecovers(nodes: seq<Node>, pos: nat, op: Node, v: int, status: Oracle)
    requires WellFormedLine(nodes) && pos < |nodes| && pos % 2 == 0 && NoBadChdir(nodes, pos)
    requires (op.And? && v == 1) || (op.Or? && v == 0)
    requires !OnlyOp(nodes, pos, op) && forall q :: q >= pos ==> status(q) == 1 - v
    ensures StandardFrom(nodes, pos, v, false, status) == 1 - v
    decreases |nodes| - pos
  {
    hide WellFormedLine, RunFrom;
    NodeAt(nodes, pos);
    RunStep(nodes, pos, status);
    var i :| pos <= i < |nodes| && (nodes[i].And? || nodes[i].Or?) && nodes[i] != op;
    assert i != pos;
    if i == pos + 1 {
      StandardConstant(nodes, pos + 2, v, true, 1 - v, status);
    } else if nodes[pos + 1].Pipe? || nodes[pos + 1] == op {
      StandardRecovers(nodes, pos + 2, op, v, status);
    } else {
      StandardConstant(nodes, pos + 2, v, true, 1 - v, status);
    }
  }

  /** A pipeline at `k` that ends the run although another operator follows. */
  lemma StoppedTooEarly(nodes: seq<Node>, k: nat)
    requires WellFormedLine(nodes) && k + 1 < |nodes| && k % 2 == 0 && NoBadChdir(nodes, k) && nodes[k].Command?
    requires (nodes[k + 1].And? || nodes[k + 1].Or?) && !OnlyOp(nodes, k, nodes[k + 1])
    ensures var status := AllBut(k, nodes[k + 1]);
      RunFrom(nodes, k, status) == ExitCode(status(k)) && StandardFrom(nodes, k, 0, true, status) == 1 - status(k)
  {
    hide WellFormedLine, RunFrom;
    var op := nodes[k + 1];
    var status := AllBut(k, op);
    RunStep(nodes, k, status);
    var i :| k <= i < |nodes| && (nodes[i].And? || nodes[i].Or?) && nodes[i] != op;
    assert i >= k + 2;
    StandardRecovers(nodes, k + 2, op, status(k), status);
  }

  /** With both operators left, stopping the run at its first real pipeline tells the readings apart. */
  lemma MixedDisagrees(nodes: seq<Node>) returns (status: Oracle)
    requires WellFormedLine(nodes) && NoBadChdir(nodes, 0) && !OneKind(nodes)
    ensures RightEval(Plan(nodes), status) != ExitCode(Standard(nodes, status))
  {
    hide WellFormedLine, NoBadChdir, FirstRealEnd, StandardFrom, RightEval, PlanFrom;
    var k := FirstRealEnd(nodes, 0);
    LeadingDropped(nodes, 0, AllBut(k, And));
    if k + 1 < |nodes| {
      status := AllBut(k, nodes[k + 1]);
      LeadingDropped(nodes, 0, status);
      StoppedTooEarly(nodes, k);
    }
  }

  /** The run and the standard's reading of the same line agree, whatever the exit codes, exactly when no `cd` is bad
      and only one kind of operator is left after the leading pipelines that end in a `cd`. */
  lemma AgreesIffOneKind(nodes: seq<Node>)
    requires WellFormedLine(nodes)
    ensures NoBadChdir(nodes, 0) && OneKind(nodes) <==>
            forall status: Oracle :: RightEval(Plan(nodes), status) == ExitCode(Standard(nodes, status))
  {
    hide NoBadChdir, FirstRealEnd, StandardFrom, RightEval, PlanFrom;
    if !NoBadChdir(nodes, 0) {
      RaisesOnBadChdir(nodes, 0, []);
      var status := KeepGoing(nodes);
      assert RightEval(Plan(nodes), status).Raised?;
    } else if OneKind(nodes) {
      forall status: Oracle ensures RightEval(Plan(nodes), status) == ExitCode(Standard(nodes, status)) {
        var k := FirstRealEnd(nodes, 0);
        LeadingDropped(nodes, 0, status);
        UniformAgrees(nodes, k, if OnlyOp(nodes, k, And) then And else Or, 0, status);
      }
    } else {
      var status := MixedDisagrees(nodes);
    }
  }

  function Word(name: string): Node { Command(name, [name], None, Inherit, Unset, []) }

  const EXAMPLE: seq<Node> := [Word("a"), Or, Chdir(Some("x")), And, Word("b")]

  lemma ExampleWellFormed()
    ensures WellFormedLine(EXAMPLE)
  {
    OneLetterWord("a");
    OneLetterWord("b");
    hide CommandOk;
    assert PairsOk([Word("a"), Or, Chdir(Some("x")), And]);
    assert EXAMPLE[..4] == [Word("a"), Or, Chdir(Some("x")), And];
  }

  lemma ExampleParses()
    ensures WellFormedLine(EXAMPLE) && Tokens(EXAMPLE) == ["a", "||", "cd", "x", "&&", "b"]
    ensures ParseTokens(Tokens(EXAMPLE)) == Some(EXAMPLE)
  {
    hide WellFormedLine, ParseTokens;
    ExampleWellFormed();
    ParsePrinted(EXAMPLE);
    assert NodeTokens(Word("a")) == ["a"] && NodeTokens(Word("b")) == ["b"];
    assert EXAMPLE[1..] == [Or, Chdir(Some("x")), And, Word("b")] && EXAMPLE[1..][1..] == [Chdir(Some("x")), And, Word("b")];
    assert Tokens([And, Word("b")]) == ["&&", "b"];
    assert Tokens([Chdir(Some("x")), And, Word("b")]) == ["cd", "x", "&&", "b"];
  }

  /** `a || cd x && b` with a succeeding and b failing: the run stops after a, the standard goes on to b. */
  lemma OrThenChdir()
    ensures var status := (p: nat) => if p == 4 then 7 else 0;
      && ParseTokens(["a", "||", "cd", "x", "&&", "b"]) == Some(EXAMPLE)
      && RightEval(Plan(EXAMPLE), status) == ExitCode(0) && Standard(EXAMPLE, status) == 7
  {
    ExampleParses();
    var status := (p: nat) => if p == 4 then 7 else 0;
    hide WellFormedLine, Tokens, ParseTokens;
    assert StandardFrom(EXAMPLE, 4, 0, true, status) == 7;
    assert StandardFrom(EXAMPLE, 2, 0, false, status) == 7;
  }

  lemma OneLetterWord(name: string)
    requires |name| == 1 && name[0] != '='
    ensures CommandOk(Word(name))
  {
    assert UntilEquals(name) == 1 by { assert UntilEquals(name[1..]) == 0; }
  }

  // ----- The outside world ----------------------------------------------------------------------

  datatype Stream = StdIn | StdOut | StdErr

  /** A file object: the one opened for a stream of the command at `pos`. */
  datatype Handle = Handle(pos: nat, stream: Stream)

  /** `DEV_NULL` is opened once for the whole program and never closed. */
  datatype File = DevNull | Opened(handle: Handle)

  datatype Source = InheritIn | FromFile(file: File) | FromPipeOf(pos: nat)

  datatype Sink = InheritOut | NewPipe | IntoFile(file: File) | SameAsStdout

  datatype Event =
    | Open(handle: Handle, name: string)
    | Start(pos: nat, stdin: Source, stdout: Sink, stderr: Sink, cwd: string)
    | Wait(pos: nat)
    | Close(handle: Handle)

  type Trace = seq<Event>

  ghost function Opens(t: Trace): seq<Handle> {
    if t == [] then [] else
    var e := t[|t| - 1];
    Opens(t[..|t| - 1]) + if e.Open? then [e.handle] else []
  }

  ghost function Closes(t: Trace): seq<Handle> {
    if t == [] then [] else
    var e := t[|t| - 1];
    Closes(t[..|t| - 1]) + if e.Close? then [e.handle] else []
  }

  ghost function Starts(t: Trace): seq<nat> {
    if t == [] then [] else
    var e := t[|t| - 1];
    Starts(t[..|t| - 1]) + if e.Start? then [e.pos] else []
  }

  ghost function Waits(t: Trace): seq<nat> {
    if t == [] then [] else
    var e := t[|t| - 1];
    Waits(t[..|t| - 1]) + if e.Wait? then [e.pos] else []
  }

  /** Where the most recently started process writes. */
  ghost function LastSink(t: Trace): Sink {
    if t == [] then InheritOut else
    var e := t[|t| - 1];
    if e.Start? then e.stdout else LastSink(t[..|t| - 1])
  }

  function NullNames(): set<string> { {"NUL:", "/dev/null"} }

  ghost predicate IsNull(name: string) { name == "/dev/null" || name == "NUL:" }

  function OutFile(pos: nat, stream: Stream, name: string): File {
    if name in NullNames() then DevNull else Opened(Handle(pos, stream))
  }

  /** A process still unwaited feeds the new one, and then it wrote to a pipe; otherwise a redirection counts. */
  ghost predicate StdinOk(nodes: seq<Node>, t: Trace, pos: nat, stdin: Source)
    requires pos < |nodes| && nodes[pos].Command?
  {
    if Starts(t) != Waits(t) then
      LastSink(t) == NewPipe && Starts(t) != [] && stdin == FromPipeOf(Starts(t)[|Starts(t)| - 1])
    else match nodes[pos].stdin {
      case None => stdin == InheritIn
      case Some(_) => stdin == FromFile(Opened(Handle(pos, StdIn))) && Handle(pos, StdIn) in Opens(t)
    }
  }

  ghost predicate StdoutOk(nodes: seq<Node>, t: Trace, pos: nat, stdout: Sink)
    requires pos < |nodes| && nodes[pos].Command?
  {
    match nodes[pos].stdout
    case Inherit => stdout == InheritOut
    case ToPipe => stdout == NewPipe
    case ToFile(name) => if IsNull(name) then stdout == IntoFile(DevNull)
                           else stdout == IntoFile(Opened(Handle(pos, StdOut))) && Handle(pos, StdOut) in Opens(t)
  }

  ghost predicate StderrOk(nodes: seq<Node>, t: Trace, pos: nat, stderr: Sink)
    requires pos < |nodes| && nodes[pos].Command?
  {
    match nodes[pos].stderr
    case Unset => stderr == InheritOut
    case ToStdout => stderr == SameAsStdout
    case ErrFile(name) => if IsNull(name) then stderr == IntoFile(DevNull)
                            else stderr == IntoFile(Opened(Handle(pos, StdErr))) && Handle(pos, StdErr) in Opens(t)
  }

  /** How the command at `e.pos` has to be started after `t`. */
  ghost predicate StartOk(nodes: seq<Node>, t: Trace, e: Event)
    requires e.Start?
  {
    && e.pos < |nodes| && nodes[e.pos].Command? && e.pos !in Starts(t) && e.cwd == CwdAt(nodes, e.pos)
    && StdinOk(nodes, t, e.pos, e.stdin) && StdoutOk(nodes, t, e.pos, e.stdout) && StderrOk(nodes, t, e.pos, e.stderr)
  }

  /** `name` is where the command redirects the stream. */
  ghost predicate Redirects(nodes: seq<Node>, h: Handle, name: string) {
    && h.pos < |nodes| && nodes[h.pos].Command?
    && match h.stream {
      case StdIn => nodes[h.pos].stdin == Some(name)
      case StdOut => nodes[h.pos].stdout == ToFile(name)
      case StdErr => nodes[h.pos].stderr == ErrFile(name)
    }
  }

  /** What may happen next: every file is opened once, under the name in the line; processes are waited for in order; a file is closed in its
      turn, and only when every process started so far has been waited for. */
  ghost predicate EventOk(nodes: seq<Node>, t: Trace, e: Event) {
    match e
    case Open(h, name) => h !in Opens(t) && Redirects(nodes, h, name)
    case Start(_, _, _, _, _) => StartOk(nodes, t, e)
    case Wait(p) => |Waits(t)| < |Starts(t)| && p == Starts(t)[|Waits(t)|]
    case Close(h) => Starts(t) == Waits(t) && |Closes(t)| < |Opens(t)| && h == Opens(t)[|Closes(t)|]
  }

  ghost predicate Disciplined(nodes: seq<Node>, t: Trace) {
    forall k :: 0 <= k < |t| ==> EventOk(nodes, t[..k], t[k])
  }

  // ----- Working directories ---------------------------------------------------------------------

  /** The POSIX flavour of `os.path.join`. */
  function PathJoin(a: string, b: string): string {
    if b != "" && b[0] == '/' then b
    else if a == "" || a[|a| - 1] == '/' then a + b
    else a + "/" + b
  }

  /** The directory in force at `pos`, after the `cd`s at earlier command positions. */
  ghost function CwdAt(nodes: seq<Node>, pos: nat): string
    requires pos <= |nodes|
  {
    if pos < 2 then "." else
    var n := nodes[pos - 2];
    var before := CwdAt(nodes, pos - 2);
    if n.Chdir? && n.dir.Some? then PathJoin(before, n.dir.value) else before
  }

  /** What a `cd` does to the directory in force: an absolute one replaces it, a relative one is appended after a slash. */
  lemma DirectoryInForce(nodes: seq<Node>, pos: nat)
    requires pos + 2 <= |nodes|
    ensures CwdAt(nodes, 0) == "."
    ensures nodes[pos].Command? ==> CwdAt(nodes, pos + 2) == CwdAt(nodes, pos)
    ensures nodes[pos].Chdir? && nodes[pos].dir.Some? && "/" <= nodes[pos].dir.value ==> CwdAt(nodes, pos + 2) == nodes[pos].dir.value
    ensures nodes[pos].Chdir? && nodes[pos].dir.Some? && !("/" <= nodes[pos].dir.value) ==>
              CwdAt(nodes, pos + 2) == CwdAt(nodes, pos)
                + (if CwdAt(nodes, pos) == "" || CwdAt(nodes, pos)[|CwdAt(nodes, pos)| - 1] == '/' then "" else "/") + nodes[pos].dir.value
  {
  }

  // ----- Appending to a trace ------------------------------------------------------------------------

  lemma TraceAppend(nodes: seq<Node>, t: Trace, e: Event)
    ensures Opens(t + [e]) == Opens(t) + if e.Open? then [e.handle] else []
    ensures Closes(t + [e]) == Closes(t) + if e.Close? then [e.handle] else []
    ensures Starts(t + [e]) == Starts(t) + if e.Start? then [e.pos] else []
    ensures Waits(t + [e]) == Waits(t) + if e.Wait? then [e.pos] else []
    ensures LastSink(t + [e]) == if e.Start? then e.stdout else LastSink(t)
    ensures Disciplined(nodes, t) && EventOk(nodes, t, e) ==> Disciplined(nodes, t + [e])
  {
    assert (t + [e])[..|t|] == t;
    if Disciplined(nodes, t) && EventOk(nodes, t, e) {
      forall k | 0 <= k < |t + [e]| ensures EventOk(nodes, (t + [e])[..k], (t + [e])[k]) {
        if k < |t| { assert (t + [e])[..k] == t[..k]; }
      }
    }
  }

  function Handles(files: seq<File>): seq<Handle> {
    if files == [] then [] else
    Handles(files[..|files| - 1]) + if files[|files| - 1].Opened? then [files[|files| - 1].handle] else []
  }

  /** The files to be closed that the command at `pos` opens; one that reads a pipe opens no input file. */
  ghost function FilesOf(nodes: seq<Node>, pos: nat, inPipe: bool): seq<Handle> {
    if pos >= |nodes| || !nodes[pos].Command? then [] else
    var c := nodes[pos];
    (if !inPipe && c.stdin.Some? then [Handle(pos, StdIn)] else [])
    + (if c.stdout.ToFile? && !IsNull(c.stdout.file) then [Handle(pos, StdOut)] else [])
    + (if c.stderr.ErrFile? && !IsNull(c.stderr.file) then [Handle(pos, StdErr)] else [])
  }

  /** The files opened for the commands of a pipe group. */
  ghost function GroupFiles(nodes: seq<Node>, group: seq<nat>): seq<Handle> {
    if group == [] then [] else
    var front := group[..|group| - 1];
    GroupFiles(nodes, front) + FilesOf(nodes, group[|group| - 1], front != [])
  }

  // ----- The run ----------------------------------------------------------------------------------------

  /** All events concern commands before `pos`. */
  ghost predicate Before(t: Trace, pos: int) {
    (forall k :: 0 <= k < |Starts(t)| ==> Starts(t)[k] < pos) && (forall k :: 0 <= k < |Opens(t)| ==> Opens(t)[k].pos < pos)
  }

  /** Wait for the started processes of a group in order and combine their codes. */
  method ExecPipedCommands(ghost nodes: seq<Node>, commands: seq<nat>, status: Oracle, t: Trace)
    returns (retval: int, t': Trace)
    requires Disciplined(nodes, t) && Starts(t) == Waits(t) + commands
    ensures retval == GroupStatus(commands, status)
    ensures Disciplined(nodes, t') && Waits(t') == Starts(t') == Starts(t)
    ensures Opens(t') == Opens(t) && Closes(t') == Closes(t)
  {
    hide Opens, Closes, Starts, Waits, LastSink, Disciplined;
    t' := t;
    var retvals: seq<int> := [];
    for i := 0 to |commands|
      invariant Disciplined(nodes, t') && Starts(t') == Starts(t) && Waits(t') == Waits(t) + commands[..i]
      invariant Opens(t') == Opens(t) && Closes(t') == Closes(t)
      invariant |retvals| == i && forall k :: 0 <= k < i ==> retvals[k] == status(commands[k])
    {
      WaitAllowed(nodes, t', commands, i);
      TraceAppend(nodes, t', Wait(commands[i]));
      t' := t' + [Wait(commands[i])];
      retvals := retvals + [status(commands[i])];
    }
    retval := CombineCodes(retvals);
  }

  lemma WaitAllowed(nodes: seq<Node>, t: Trace, commands: seq<nat>, i: nat)
    requires i < |commands| && |Starts(t)| >= |commands| && Starts(t)[|Starts(t)| - |commands|..] == commands
    requires |Waits(t)| == |Starts(t)| - |commands| + i
    ensures EventOk(nodes, t, Wait(commands[i]))
  {
  }

  /** The status of a pipe group from the codes of its commands. */
  method CombineCodes(retvals: seq<int>) returns (retval: int)
    ensures retval == if retvals == [] then 0 else retvals[|retvals| - 1]
  {
    retval := 0;
    for i := 0 to |retvals|
      invariant retval == 0 && forall k :: 0 <= k < i ==> retvals[k] == 0
    {
      if retvals[i] != 0 {
        retval := retvals[|retvals| - 1];
        break;
      }
    }
  }

  /** Close what was opened for the group, except the null device. */
  method CloseFiles(ghost nodes: seq<Node>, files: seq<File>, t: Trace) returns (t': Trace)
    requires Disciplined(nodes, t) && Starts(t) == Waits(t) && Opens(t) == Closes(t) + Handles(files)
    ensures Disciplined(nodes, t') && Waits(t') == Starts(t') == Starts(t)
    ensures Opens(t') == Closes(t') == Opens(t)
  {
    hide Opens, Closes, Starts, Waits, LastSink, Disciplined;
    t' := t;
    for i := 0 to |files|
      invariant Disciplined(nodes, t') && Starts(t') == Waits(t') == Starts(t)
      invariant Opens(t') == Opens(t) && Closes(t') == Closes(t) + Handles(files[..i])
    {
      assert files[..i + 1][..i] == files[..i];
      HandlesPrefix(files, i + 1);
      if files[i] != DevNull {
        TraceAppend(nodes, t', Close(files[i].handle));
        t' := t' + [Close(files[i].handle)];
      }
    }
    assert files[..|files|] == files;
  }

  lemma {:induction false} HandlesPrefix(files: seq<File>, n: nat)
    requires n <= |files|
    ensures Handles(files[..n]) <= Handles(files)
  {
    if n < |files| {
      HandlesPrefix(files[..|files| - 1], n);
      assert files[..|files| - 1][..n] == files[..n];
    } else {
      assert files[..n] == files;
    }
  }

  lemma HandlesAppend(files: seq<File>, f: File)
    ensures Handles(files + [f]) == Handles(files) + if f.Opened? then [f.handle] else []
  {
  }

  /** While the streams in `done` of the command at `pos` are being set up. */
  ghost predicate Preparing(nodes: seq<Node>, pos: nat, done: set<Stream>, files: seq<File>, t: Trace) {
    && Disciplined(nodes, t) && Opens(t) == Closes(t) + Handles(files)
    && (forall k :: 0 <= k < |Starts(t)| ==> Starts(t)[k] < pos)
    && forall k :: 0 <= k < |Opens(t)| ==> Opens(t)[k].pos < pos || (Opens(t)[k].pos == pos && Opens(t)[k].stream in done)
  }

  /** Nothing but the list of open files differs. */
  ghost predicate OnlyOpened(t: Trace, t': Trace) {
    && Starts(t') == Starts(t) && Waits(t') == Waits(t) && Closes(t') == Closes(t) && LastSink(t') == LastSink(t)
    && Opens(t) <= Opens(t')
  }

  /** `open(...)`, and remember to close it. */
  method OpenFile(ghost nodes: seq<Node>, pos: nat, stream: Stream, name: string, ghost done: set<Stream>,
                  files: seq<File>, t: Trace)
    returns (files': seq<File>, t': Trace)
    requires Preparing(nodes, pos, done, files, t) && stream !in done && Redirects(nodes, Handle(pos, stream), name)
    ensures Preparing(nodes, pos, done + {stream}, files', t') && OnlyOpened(t, t')
    ensures Handle(pos, stream) in Opens(t') && Handles(files') == Handles(files) + [Handle(pos, stream)]
  {
    hide Opens, Closes, Starts, Waits, LastSink, Disciplined, Handles;
    var h := Handle(pos, stream);
    TraceAppend(nodes, t, Open(h, name));
    HandlesAppend(files, Opened(h));
    files', t' := files + [Opened(h)], t + [Open(h, name)];
    assert Opens(t')[|Opens(t)|] == h;
  }

  /** Redirect an output stream to a file; the null device is remembered too, but was opened long ago. */
  method OpenOutFile(ghost nodes: seq<Node>, pos: nat, stream: Stream, name: string, ghost done: set<Stream>,
                     files: seq<File>, t: Trace)
    returns (files': seq<File>, t': Trace)
    requires Preparing(nodes, pos, done, files, t) && stream !in done && Redirects(nodes, Handle(pos, stream), name)
    ensures Preparing(nodes, pos, done + {stream}, files', t') && OnlyOpened(t, t')
    ensures !IsNull(name) ==> Handle(pos, stream) in Opens(t')
    ensures Handles(files') == Handles(files) + if IsNull(name) then [] else [Handle(pos, stream)]
  {
    if name in NullNames() {
      HandlesAppend(files, DevNull);
      files', t' := files + [DevNull], t;
    } else {
      files', t' := OpenFile(nodes, pos, stream, name, done, files, t);
    }
  }

  method SetUpStdin(nodes: seq<Node>, pos: nat, inPipe: bool, piped: seq<nat>, files: seq<File>, t: Trace)
    returns (stdin: Source, files': seq<File>, t': Trace)
    requires pos < |nodes| && nodes[pos].Command? && Preparing(nodes, pos, {}, files, t) && Starts(t) == Waits(t) + piped
    requires inPipe == (piped != []) && (inPipe ==> LastSink(t) == NewPipe)
    ensures Preparing(nodes, pos, {StdIn}, files', t') && OnlyOpened(t, t') && StdinOk(nodes, t', pos, stdin)
    ensures Handles(files') == Handles(files) + if !inPipe && nodes[pos].stdin.Some? then [Handle(pos, StdIn)] else []
  {
    hide Opens, Closes, Starts, Waits, LastSink, Handles, Disciplined;
    stdin, files', t' := InheritIn, files, t;
    if inPipe {
      stdin := FromPipeOf(piped[|piped| - 1]);
    } else if nodes[pos].stdin != None {
      files', t' := OpenFile(nodes, pos, StdIn, nodes[pos].stdin.value, {}, files', t');
      stdin := FromFile(Opened(Handle(pos, StdIn)));
    }
  }

  method SetUpStdout(nodes: seq<Node>, pos: nat, files: seq<File>, t: Trace)
    returns (stdout: Sink, files': seq<File>, t': Trace)
    requires pos < |nodes| && nodes[pos].Command? && Preparing(nodes, pos, {StdIn}, files, t)
    ensures Preparing(nodes, pos, {StdIn, StdOut}, files', t') && OnlyOpened(t, t') && StdoutOk(nodes, t', pos, stdout)
    ensures Handles(files') == Handles(files)
      + if nodes[pos].stdout.ToFile? && !IsNull(nodes[pos].stdout.file) then [Handle(pos, StdOut)] else []
  {
    hide Opens, Closes, Starts, Waits, LastSink, Handles, Disciplined;
    stdout, files', t' := InheritOut, files, t;
    if nodes[pos].stdout.ToPipe? {
      stdout := NewPipe;
    } else if nodes[pos].stdout.ToFile? {
      files', t' := OpenOutFile(nodes, pos, StdOut, nodes[pos].stdout.file, {StdIn}, files', t');
      stdout := IntoFile(OutFile(pos, StdOut, nodes[pos].stdout.file));
    }
  }

  method SetUpStderr(nodes: seq<Node>, pos: nat, files: seq<File>, t: Trace)
    returns (stderr: Sink, files': seq<File>, t': Trace)
    requires pos < |nodes| && nodes[pos].Command? && Preparing(nodes, pos, {StdIn, StdOut}, files, t)
    ensures Preparing(nodes, pos, {StdIn, StdOut, StdErr}, files', t') && OnlyOpened(t, t') && StderrOk(nodes, t', pos, stderr)
    ensures Handles(files') == Handles(files)
      + if nodes[pos].stderr.ErrFile? && !IsNull(nodes[pos].stderr.file) then [Handle(pos, StdErr)] else []
  {
    hide Opens, Closes, Starts, Waits, LastSink, Handles, Disciplined;
    stderr, files', t' := InheritOut, files, t;
    if nodes[pos].stderr.ToStdout? {
      stderr := SameAsStdout;
    } else if nodes[pos].stderr.ErrFile? {
      files', t' := OpenOutFile(nodes, pos, StdErr, nodes[pos].stderr.file, {StdIn, StdOut}, files', t');
      stderr := IntoFile(OutFile(pos, StdErr, nodes[pos].stderr.file));
    }
  }

  lemma OkStays(nodes: seq<Node>, pos: nat, stdin: Source, stdout: Sink, t1: Trace, t2: Trace, t3: Trace)
    requires pos < |nodes| && nodes[pos].Command? && OnlyOpened(t1, t2) && OnlyOpened(t2, t3)
    requires StdinOk(nodes, t1, pos, stdin) && StdoutOk(nodes, t2, pos, stdout)
    ensures StdinOk(nodes, t3, pos, stdin) && StdoutOk(nodes, t3, pos, stdout)
  {
  }

  /** Open what the command at `pos` needs and start it. */
  method StartCommand(nodes: seq<Node>, pos: nat, inPipe: bool, piped: seq<nat>, cwd: string, files: seq<File>, t: Trace)
    returns (files': seq<File>, t': Trace)
    requires pos < |nodes| && nodes[pos].Command? && cwd == CwdAt(nodes, pos)
    requires Disciplined(nodes, t) && Before(t, pos) && Starts(t) == Waits(t) + piped
    requires Opens(t) == Closes(t) + Handles(files)
    requires inPipe == (piped != []) && (inPipe ==> LastSink(t) == NewPipe)
    ensures Disciplined(nodes, t') && Before(t', pos + 1)
    ensures Starts(t') == Starts(t) + [pos] && Waits(t') == Waits(t)
    ensures Closes(t') == Closes(t) && Opens(t') == Closes(t') + Handles(files')
    ensures Handles(files') == Handles(files) + FilesOf(nodes, pos, inPipe)
    ensures nodes[pos].stdout.ToPipe? ==> LastSink(t') == NewPipe
  {
    hide Opens, Closes, Starts, Waits, LastSink, Handles, CwdAt, Disciplined, StdinOk, StdoutOk, StderrOk, NullNames;
    var stdin, stdout, stderr;
    stdin, files', t' := SetUpStdin(nodes, pos, inPipe, piped, files, t);
    ghost var t1 := t';
    stdout, files', t' := SetUpStdout(nodes, pos, files', t');
    ghost var t2 := t';
    stderr, files', t' := SetUpStderr(nodes, pos, files', t');
    OkStays(nodes, pos, stdin, stdout, t1, t2, t');
    var e := Start(pos, stdin, stdout, stderr, cwd);
    TraceAppend(nodes, t', e);
    t' := t' + [e];
  }

  /** A run that has returned a code: everything started was waited for, every file opened was closed. */
  ghost predicate TidyTrace(nodes: seq<Node>, t: Trace) {
    Disciplined(nodes, t) && Starts(t) == Waits(t) && Opens(t) == Closes(t)
  }

  /** The position stands right after a pipe, or only `cd`s with their && are in between. */
  ghost predicate AfterAPipe(nodes: seq<Node>, pos: nat) {
    2 <= pos <= |nodes| && (nodes[pos - 1].Pipe? || (nodes[pos - 2].Chdir? && AfterAPipe(nodes, pos - 2)))
  }

  /** The invariant of the main loop at position `pos`, with `piped` the processes of the group being built. */
  ghost predicate RunInv(nodes: seq<Node>, pos: nat, inPipe: bool, piped: seq<nat>, cwd: string, files: seq<File>,
                         t: Trace, status: Oracle)
  {
    && pos < |nodes| && pos % 2 == 0 && cwd == CwdAt(nodes, pos)
    && Disciplined(nodes, t) && Before(t, pos) && Starts(t) == Waits(t) + piped
    && Opens(t) == Closes(t) + Handles(files)
    && inPipe == (piped != []) == AfterAPipe(nodes, pos) && (inPipe ==> LastSink(t) == NewPipe)
    && Handles(files) == GroupFiles(nodes, piped) && FirstBadChdir(nodes, 0) == FirstBadChdir(nodes, pos)
    && RightEval(Plan(nodes), status) == RightEval(PlanFrom(nodes, pos, piped), status)
    && Executed(Plan(nodes), status) == Waits(t) + Executed(PlanFrom(nodes, pos, piped), status)
  }

  /** What the rest of the run owes when a `cd` pair is skipped ... */
  lemma SkipChdir(nodes: seq<Node>, pos: nat, piped: seq<nat>)
    requires pos + 1 < |nodes| && nodes[pos].Chdir? && nodes[pos].dir.Some?
    ensures pos + 2 <= |nodes| ==> PlanFrom(nodes, pos, piped) == PlanFrom(nodes, pos + 2, piped)
    ensures pos + 2 <= |nodes| ==> CwdAt(nodes, pos + 2) == PathJoin(CwdAt(nodes, pos), nodes[pos].dir.value)
    ensures FirstBadChdir(nodes, pos) == FirstBadChdir(nodes, pos + 2)
    ensures pos + 2 <= |nodes| && !nodes[pos + 1].Pipe? ==> AfterAPipe(nodes, pos + 2) == AfterAPipe(nodes, pos)
  {
  }

  /** ... when a command ends the line ... */
  lemma EndOfLine(nodes: seq<Node>, pos: nat, piped: seq<nat>, status: Oracle)
    requires pos + 1 == |nodes| && !nodes[pos].Chdir?
    ensures RightEval(PlanFrom(nodes, pos, piped), status) == ExitCode(GroupStatus(piped + [pos], status))
    ensures Executed(PlanFrom(nodes, pos, piped), status) == piped + [pos]
  {
  }

  /** ... and when an operator follows. */
  lemma PassOperator(nodes: seq<Node>, pos: nat, piped: seq<nat>, status: Oracle)
    requires pos + 2 < |nodes| && !nodes[pos].Chdir?
    ensures CwdAt(nodes, pos + 2) == CwdAt(nodes, pos)
    ensures FirstBadChdir(nodes, pos) == FirstBadChdir(nodes, pos + 2)
    ensures AfterAPipe(nodes, pos + 2) == nodes[pos + 1].Pipe?
    ensures nodes[pos + 1].Pipe? ==> PlanFrom(nodes, pos, piped) == PlanFrom(nodes, pos + 2, piped + [pos])
    ensures !nodes[pos + 1].Pipe? ==>
              var v, rest := GroupStatus(piped + [pos], status), PlanFrom(nodes, pos + 2, []);
              if Proceeds(nodes[pos + 1], v)
              then RightEval(PlanFrom(nodes, pos, piped), status) == RightEval(rest, status)
                   && Executed(PlanFrom(nodes, pos, piped), status) == piped + [pos] + Executed(rest, status)
              else RightEval(PlanFrom(nodes, pos, piped), status) == ExitCode(v)
                   && Executed(PlanFrom(nodes, pos, piped), status) == piped + [pos]
  {
  }

  lemma BadChdirRaises(nodes: seq<Node>, pos: nat, piped: seq<nat>, status: Oracle)
    requires BadChdir(nodes, pos)
    ensures RightEval(PlanFrom(nodes, pos, piped), status) == Raised(if pos + 1 == |nodes| then IndexError else TypeError, piped)
    ensures Executed(PlanFrom(nodes, pos, piped), status) == piped && FirstBadChdir(nodes, pos) == pos
  {
  }

  /** Wait for the group and close its files, whatever happens next. */
  method FinishGroup(ghost nodes: seq<Node>, piped: seq<nat>, files: seq<File>, status: Oracle, t: Trace)
    returns (retval: int, t': Trace)
    requires Disciplined(nodes, t) && Starts(t) == Waits(t) + piped && Opens(t) == Closes(t) + Handles(files)
    ensures retval == GroupStatus(piped, status)
    ensures TidyTrace(nodes, t') && Starts(t') == Starts(t) && Opens(t') == Opens(t)
  {
    retval, t' := ExecPipedCommands(nodes, piped, status, t);
    t' := CloseFiles(nodes, files, t');
  }

  /** The command at `pos` has been started as the last one so far of `group`. */
  ghost predicate GroupInv(nodes: seq<Node>, pos: nat, group: seq<nat>, cwd: string, files: seq<File>, t: Trace, status: Oracle) {
    && WellFormedLine(nodes) && pos < |nodes| && pos % 2 == 0 && nodes[pos].Command? && cwd == CwdAt(nodes, pos)
    && group != [] && group[|group| - 1] == pos
    && Disciplined(nodes, t) && Before(t, pos + 1) && Starts(t) == Waits(t) + group
    && Opens(t) == Closes(t) + Handles(files)
    && (nodes[pos].stdout.ToPipe? ==> LastSink(t) == NewPipe)
    && Handles(files) == GroupFiles(nodes, group) && FirstBadChdir(nodes, 0) == FirstBadChdir(nodes, pos)
    && RightEval(Plan(nodes), status) == RightEval(PlanFrom(nodes, pos, group[..|group| - 1]), status)
    && Executed(Plan(nodes), status) == Waits(t) + Executed(PlanFrom(nodes, pos, group[..|group| - 1]), status)
  }

  lemma GroupFilesAppend(nodes: seq<Node>, group: seq<nat>, pos: nat)
    ensures GroupFiles(nodes, group + [pos]) == GroupFiles(nodes, group) + FilesOf(nodes, pos, group != [])
  {
    assert (group + [pos])[..|group|] == group;
  }

  /** Start the command and count it to the group. */
  method StartGroupMember(nodes: seq<Node>, pos: nat, inPipe: bool, piped: seq<nat>, cwd: string, files: seq<File>,
                          t: Trace, ghost status: Oracle)
    returns (files': seq<File>, t': Trace)
    requires WellFormedLine(nodes) && RunInv(nodes, pos, inPipe, piped, cwd, files, t, status) && nodes[pos].Command?
    ensures GroupInv(nodes, pos, piped + [pos], cwd, files', t', status)
  {
    hide Opens, Closes, Starts, Waits, LastSink, Disciplined, Handles, WellFormedLine, PlanFrom, RightEval, Executed, CwdAt, GroupFiles, FilesOf, FirstBadChdir, AfterAPipe;
    files', t' := StartCommand(nodes, pos, inPipe, piped, cwd, files, t);
    GroupFilesAppend(nodes, piped, pos);
    assert (piped + [pos])[..|piped|] == piped;
  }

  lemma AfterPipe(nodes: seq<Node>, pos: nat, group: seq<nat>, cwd: string, files: seq<File>, t: Trace, status: Oracle)
    requires GroupInv(nodes, pos, group, cwd, files, t, status) && pos + 1 < |nodes| && nodes[pos + 1].Pipe?
    ensures RunInv(nodes, pos + 2, true, group, cwd, files, t, status)
  {
    hide Opens, Closes, Starts, Waits, LastSink, Disciplined, Handles, PlanFrom, RightEval, Executed, CwdAt, GroupFiles, FilesOf, FirstBadChdir, AfterAPipe, NodeOk, GroupStatus, Proceeds;
    NodeAt(nodes, pos);
    SplitLast(group);
    PassOperator(nodes, pos, group[..|group| - 1], status);
    hide WellFormedLine;
  }

  /** The end of the line. */
  method LastGroup(ghost nodes: seq<Node>, ghost pos: nat, group: seq<nat>, ghost cwd: string, files: seq<File>,
                   t: Trace, status: Oracle)
    returns (retval: int, t': Trace)
    requires GroupInv(nodes, pos, group, cwd, files, t, status) && pos + 1 == |nodes|
    ensures RightEval(Plan(nodes), status) == ExitCode(retval)
    ensures TidyTrace(nodes, t') && Starts(t') == Executed(Plan(nodes), status)
  {
    hide Opens, Closes, Starts, Waits, LastSink, Disciplined, Handles, WellFormedLine, PlanFrom, RightEval, Executed, CwdAt, GroupStatus;
    assert group[..|group| - 1] + [pos] == group;
    EndOfLine(nodes, pos, group[..|group| - 1], status);
    retval, t' := FinishGroup(nodes, group, files, status, t);
  }

  /** An && or || that follows the group. */
  method AndOrGroup(nodes: seq<Node>, pos: nat, group: seq<nat>, ghost cwd: string, files: seq<File>,
                    t: Trace, status: Oracle)
    returns (result: Option<int>, t': Trace)
    requires GroupInv(nodes, pos, group, cwd, files, t, status) && pos + 1 < |nodes| && !nodes[pos + 1].Pipe?
    ensures result == None ==> RunInv(nodes, pos + 2, false, [], cwd, [], t', status)
    ensures result.Some? ==> RightEval(Plan(nodes), status) == ExitCode(result.value)
    ensures result.Some? ==> TidyTrace(nodes, t') && Starts(t') == Executed(Plan(nodes), status)
  {
    var thisRetval;
    thisRetval, t' := FinishGroup(nodes, group, files, status, t);
    AfterAndOr(nodes, pos, group, cwd, files, t, t', status);
    hide RunInv, GroupInv, TidyTrace, RightEval, Executed, Starts, GroupStatus;
    result := None;
    if nodes[pos + 1].Or? {
      if thisRetval == 0 { result := Some(thisRetval); }
    } else {
      if thisRetval != 0 { result := Some(thisRetval); }
    }
  }

  /** After && or || has let the list proceed, the loop starts afresh. */
  lemma FreshStart(nodes: seq<Node>, pos: nat, cwd: string, t: Trace, status: Oracle)
    requires pos < |nodes| && pos % 2 == 0 && cwd == CwdAt(nodes, pos)
    requires TidyTrace(nodes, t) && Before(t, pos - 1)
    requires FirstBadChdir(nodes, 0) == FirstBadChdir(nodes, pos) && !AfterAPipe(nodes, pos)
    requires RightEval(Plan(nodes), status) == RightEval(PlanFrom(nodes, pos, []), status)
    requires Executed(Plan(nodes), status) == Starts(t) + Executed(PlanFrom(nodes, pos, []), status)
    ensures RunInv(nodes, pos, false, [], cwd, [], t, status)
  {
  }

  lemma AfterAndOr(nodes: seq<Node>, pos: nat, group: seq<nat>, cwd: string, files: seq<File>, t: Trace, t': Trace, status: Oracle)
    requires GroupInv(nodes, pos, group, cwd, files, t, status) && pos + 1 < |nodes| && !nodes[pos + 1].Pipe?
    requires TidyTrace(nodes, t') && Starts(t') == Starts(t) && Opens(t') == Opens(t)
    ensures nodes[pos + 1].Or? || nodes[pos + 1].And?
    ensures var v := GroupStatus(group, status);
      if Proceeds(nodes[pos + 1], v)
      then RunInv(nodes, pos + 2, false, [], cwd, [], t', status)
      else RightEval(Plan(nodes), status) == ExitCode(v) && Starts(t') == Executed(Plan(nodes), status)
  {
    hide Opens, Closes, Starts, Waits, LastSink, Disciplined, WellFormedLine, PlanFrom, RightEval, Executed, CwdAt, GroupStatus, RunInv, Handles, NodeOk, Plan, GroupFiles, FirstBadChdir, AfterAPipe;
    NodeAt(nodes, pos);
    SplitLast(group);
    PassOperator(nodes, pos, group[..|group| - 1], status);
    var rest := Executed(PlanFrom(nodes, pos + 2, []), status);
    ConcatAssoc(Waits(t), group, rest);
    if Proceeds(nodes[pos + 1], GroupStatus(group, status)) {
      FreshStart(nodes, pos + 2, cwd, t', status);
    }
  }

  lemma SplitLast<T>(s: seq<T>)
    requires s != []
    ensures s[..|s| - 1] + [s[|s| - 1]] == s
  {
  }

  /** In a disciplined trace no file is opened twice and no process started twice; so in a tidy one each file is
      closed exactly once and each process waited for exactly once. */
  lemma {:induction false} OpenedOnce(nodes: seq<Node>, t: Trace)
    requires Disciplined(nodes, t)
    ensures NoDup(Opens(t)) && NoDup(Starts(t))
  {
    if t != [] {
      var front, e := t[..|t| - 1], t[|t| - 1];
      forall k | 0 <= k < |front| ensures EventOk(nodes, front[..k], front[k]) {
        assert t[..k] == front[..k] && EventOk(nodes, t[..k], t[k]);
      }
      OpenedOnce(nodes, front);
      assert EventOk(nodes, t[..|t| - 1], t[|t| - 1]);
    }
  }

  /** A run that an exception ends has started and waited for what the plan says; it leaves the processes and files
      of the unfinished group behind. */
  lemma RaiseLeavesGroup(nodes: seq<Node>, pos: nat, inPipe: bool, piped: seq<nat>, cwd: string, files: seq<File>,
                         t: Trace, status: Oracle)
    requires RunInv(nodes, pos, inPipe, piped, cwd, files, t, status) && BadChdir(nodes, pos)
    ensures RightEval(Plan(nodes), status) == Raised(if pos + 1 == |nodes| then IndexError else TypeError, piped)
    ensures Disciplined(nodes, t) && Starts(t) == Executed(Plan(nodes), status)
    ensures Starts(t) == Waits(t) + piped && Opens(t) == Closes(t) + GroupFiles(nodes, piped)
    ensures TidyTrace(nodes, t) <==> !AfterAPipe(nodes, FirstBadChdir(nodes, 0))
  {
    BadChdirRaises(nodes, pos, piped, status);
    hide Opens, Closes, Starts, Waits, LastSink, Disciplined, Handles, PlanFrom, RightEval, Executed, CwdAt, FirstBadChdir, AfterAPipe;
  }

  method Run(pipeline: seq<Node>, status: Oracle) returns (r: Outcome, t: Trace)
    requires WellFormedLine(pipeline)
    ensures r == RightEval(Plan(pipeline), status)
    ensures Disciplined(pipeline, t) && Starts(t) == Executed(Plan(pipeline), status)
    ensures StartsAsWritten(pipeline, status, r, Starts(t))
    ensures r.ExitCode? ==> TidyTrace(pipeline, t)
    // An exception leaves a group behind exactly when the `cd` that cannot be run follows a pipe.
    ensures r.Raised? ==> Starts(t) == Waits(t) + r.unwaited && Opens(t) == Closes(t) + GroupFiles(pipeline, r.unwaited)
    ensures r.Raised? ==> (TidyTrace(pipeline, t) <==> !AfterAPipe(pipeline, FirstBadChdir(pipeline, 0)))
  {
    hide Opens, Closes, Starts, Waits, Disciplined, WellFormedLine, PlanFrom, RightEval, Executed, RunInv, GroupInv, GroupFiles, FirstBadChdir, AfterAPipe, Handles, StartsAsWritten;
    ExecutedAsWritten(pipeline, status);
    var pos: nat, inPipe, cwd := 0, false, ".";
    var files: seq<File>, piped: seq<nat> := [], [];
    t := [];
    RunStarts(pipeline, status);
    while true
      invariant pos < |pipeline| && pos % 2 == 0
      invariant RunInv(pipeline, pos, inPipe, piped, cwd, files, t, status)
      decreases |pipeline| - pos
    {
      NodeAt(pipeline, pos);
      var node := pipeline[pos];
      if node.Chdir? {
        if BadChdir(pipeline, pos) { RaiseLeavesGroup(pipeline, pos, inPipe, piped, cwd, files, t, status); }
        if pos + 1 == |pipeline| { return Raised(IndexError, piped), t; }
        if node.dir == None { return Raised(TypeError, piped), t; }
        AfterChdir(pipeline, pos, inPipe, piped, cwd, files, t, status);
        cwd := PathJoin(cwd, node.dir.value);
      } else {
        var group := piped + [pos];
        files, t := StartGroupMember(pipeline, pos, inPipe, piped, cwd, files, t, status);
        if pos + 1 == |pipeline| {
          var retval;
          retval, t := LastGroup(pipeline, pos, group, cwd, files, t, status);
          return ExitCode(retval), t;
        }
        if pipeline[pos + 1].Pipe? {
          AfterPipe(pipeline, pos, group, cwd, files, t, status);
          inPipe, piped := true, group;
        } else {
          var result;
          result, t := AndOrGroup(pipeline, pos, group, cwd, files, t, status);
          if result != None { return ExitCode(result.value), t; }
          inPipe, piped, files := false, [], [];
        }
      }
      pos := pos + 2;
    }
  }

  lemma RunStarts(nodes: seq<Node>, status: Oracle)
    requires WellFormedLine(nodes)
    ensures RunInv(nodes, 0, false, [], ".", [], [], status)
  {
  }

  lemma AfterChdir(nodes: seq<Node>, pos: nat, inPipe: bool, piped: seq<nat>, cwd: string, files: seq<File>, t: Trace, status: Oracle)
    requires RunInv(nodes, pos, inPipe, piped, cwd, files, t, status)
    requires pos + 2 < |nodes| && nodes[pos].Chdir? && nodes[pos].dir.Some? && nodes[pos + 1].And?
    ensures RunInv(nodes, pos + 2, inPipe, piped, PathJoin(cwd, nodes[pos].dir.value), files, t, status)
  {
    SkipChdir(nodes, pos, piped);
    hide Opens, Closes, Starts, Waits, LastSink, Disciplined, Handles, PlanFrom, RightEval, Executed, CwdAt, FirstBadChdir, AfterAPipe, GroupFiles;
  }
}
