/** The token-driven parser of shell pipelines. */
module ShellSyntax {
  import opened Basics

  datatype Stdout = Inherit | ToPipe | ToFile(file: string)

  datatype Stderr = Unset | ToStdout | ErrFile(file: string)

  /** An insertion-ordered dictionary of environment variables. */
  type Env = seq<(string, string)>

  datatype Node =
    | Command(name: string, argv: seq<string>, stdin: Option<string>, stdout: Stdout, stderr: Stderr, env: Env)
    | Chdir(dir: Option<string>)
    | Pipe
    | And
    | Or

  // ----- Environment assignments --------------------------------------------------------

  predicate IsWordChar(c: char) {
    'a' <= c <= 'z' || 'A' <= c <= 'Z' || '0' <= c <= '9' || c == '_'
  }

  /** Tab to carriage return, the four ASCII separators, and the blank. */
  predicate IsSpace(c: char) {
    9 as char <= c <= 13 as char || 28 as char <= c <= 31 as char || c == ' '
  }

  predicate IsEnvName(s: string) {
    s != "" && forall i :: 0 <= i < |s| ==> IsWordChar(s[i])
  }

  predicate IsEnvValue(s: string) {
    s != "" && forall i :: 0 <= i < |s| ==> !IsSpace(s[i])
  }

  /** The length of the part before the first '='. */
  function UntilEquals(s: string): (n: nat)
    ensures n <= |s| && forall i :: 0 <= i < n ==> s[i] != '='
    ensures n < |s| ==> s[n] == '='
  {
    if s == "" || s[0] == '=' then 0 else 1 + UntilEquals(s[1..])
  }

  /** The match of a token against NAME=VALUE; one newline may follow the value. */
  function EnvMatch(token: string): Option<(string, string)> {
    var n := UntilEquals(token);
    if n == |token| then None else
    var rest := token[n + 1..];
    var value := if rest != "" && rest[|rest| - 1] == '\n' then rest[..|rest| - 1] else rest;
    if IsEnvName(token[..n]) && IsEnvValue(value) then Some((token[..n], value)) else None
  }

  /** Dictionary assignment: replace in place, or insert at the end. */
  function EnvPut(env: Env, key: string, value: string): Env {
    if env == [] then [(key, value)]
    else if env[0].0 == key then [(key, value)] + env[1..]
    else [env[0]] + EnvPut(env[1..], key, value)
  }

  // ----- The state machine --------------------------------------------------------------------

  datatype Mode = Begin | InCommand | InChdir | WantStderr | WantStdout | WantStdin

  datatype PState = PState(mode: Mode, current: Option<Node>, nodes: seq<Node>, env: Env)

  const START := PState(Begin, None, [], [])

  /** One token; `None` is a failed assertion of the parser. */
  function Advance(st: PState, token: string): Option<PState>
    requires st.mode != Begin ==> st.current.Some? && if st.mode == InChdir then st.current.value.Chdir? else st.current.value.Command?
  {
    match st.mode
    case Begin =>
      var m := EnvMatch(token);
      if m.Some? then Some(st.(env := EnvPut(st.env, m.value.0, m.value.1)))
      else if st.current.Some? then None
      else if token == "cd" then
        if st.env != [] then None else Some(st.(mode := InChdir, current := Some(Chdir(None))))
      else
        Some(PState(InCommand, Some(Command(token, [token], None, Inherit, Unset, st.env)), st.nodes, []))
    case InCommand =>
      var c := st.current.value;
      if token == ">" then Some(st.(mode := WantStdout))
      else if token == "2>" then Some(st.(mode := WantStderr))
      else if token == "2>&1" then
        if c.stderr != Unset then None else Some(st.(current := Some(c.(stderr := ToStdout))))
      else if token == "<" then Some(st.(mode := WantStdin))
      else if token == "|" then
        if c.stdout != Inherit then None else
        Some(st.(mode := Begin, current := None, nodes := st.nodes + [c.(stdout := ToPipe)] + [Pipe]))
      else if token == "&&" then Some(st.(mode := Begin, current := None, nodes := st.nodes + [c] + [And]))
      else if token == "||" then Some(st.(mode := Begin, current := None, nodes := st.nodes + [c] + [Or]))
      else Some(st.(current := Some(c.(argv := c.argv + [token]))))
    case InChdir =>
      var c := st.current.value;
      if token == "&&" then Some(st.(mode := Begin, current := None, nodes := st.nodes + [c] + [And]))
      else if c.dir.Some? then None
      else Some(st.(current := Some(c.(dir := Some(token)))))
    case WantStdout =>
      var c := st.current.value;
      if c.stdout != Inherit then None else Some(st.(mode := InCommand, current := Some(c.(stdout := ToFile(token)))))
    case WantStderr =>
      var c := st.current.value;
      if c.stderr != Unset then None else Some(st.(mode := InCommand, current := Some(c.(stderr := ErrFile(token)))))
    case WantStdin =>
      var c := st.current.value;
      if c.stdin != None then None else Some(st.(mode := InCommand, current := Some(c.(stdin := Some(token)))))
  }

  // ----- What a parsed pipeline looks like ------------------------------------------------------

  const OPERATORS: set<string> := {">", "2>", "2>&1", "<", "|", "&&", "||"}

  ghost predicate EnvOk(env: Env) {
    && (forall i :: 0 <= i < |env| ==> IsEnvName(env[i].0) && IsEnvValue(env[i].1))
    && (forall i, j :: 0 <= i < j < |env| ==> env[i].0 != env[j].0)
  }

  ghost predicate CommandOk(c: Node) {
    && c.Command? && c.name != "cd" && EnvMatch(c.name) == None && EnvOk(c.env)
    && c.argv != [] && c.argv[0] == c.name
    && forall k :: 0 < k < |c.argv| ==> c.argv[k] !in OPERATORS
  }

  ghost predicate ChdirOk(c: Node) {
    c.Chdir? && c.dir != Some("&&")
  }

  predicate IsOp(n: Node) { n.Pipe? || n.And? || n.Or? }

  /** `op` may follow `n`: a command writes to a pipe exactly when a pipe follows, a `cd` is followed by `&&` only. */
  ghost predicate MayFollow(n: Node, op: Node) {
    IsOp(op) && if n.Chdir? then op.And? else n.Command? && (n.stdout.ToPipe? <==> op.Pipe?)
  }

  ghost predicate NodeOk(n: Node) { CommandOk(n) || ChdirOk(n) }

  /** Complete node/operator pairs. */
  ghost predicate PairsOk(nodes: seq<Node>) {
    && |nodes| % 2 == 0
    && forall i :: 0 <= i < |nodes| && i % 2 == 0 ==> NodeOk(nodes[i]) && MayFollow(nodes[i], nodes[i + 1])
  }

  /** Commands and operators alternate, starting and ending with a command. */
  ghost predicate WellFormedLine(nodes: seq<Node>) {
    && nodes != [] && PairsOk(nodes[..|nodes| - 1])
    && NodeOk(nodes[|nodes| - 1]) && (nodes[|nodes| - 1].Command? ==> !nodes[|nodes| - 1].stdout.ToPipe?)
  }

  // ----- Parsing ------------------------------------------------------------------------------------

  ghost predicate StateOk(st: PState) {
    && PairsOk(st.nodes) && EnvOk(st.env)
    && match st.mode {
      case Begin => st.current == None
      case InChdir => st.current.Some? && ChdirOk(st.current.value) && st.env == []
      case _ => st.current.Some? && CommandOk(st.current.value) && !st.current.value.stdout.ToPipe? && st.env == []
    }
  }

  lemma {:induction false} EnvPutKeys(env: Env, key: string, value: string)
    ensures forall e :: e in EnvPut(env, key, value) ==> e == (key, value) || e in env
  {
    if env != [] && env[0].0 != key {
      EnvPutKeys(env[1..], key, value);
    }
  }

  lemma EnvConsOk(e: (string, string), rest: Env)
    requires EnvOk(rest) && IsEnvName(e.0) && IsEnvValue(e.1) && forall x :: x in rest ==> x.0 != e.0
    ensures EnvOk([e] + rest)
  {
    hide IsEnvName, IsEnvValue;
  }

  lemma EnvTailOk(env: Env)
    requires EnvOk(env) && env != []
    ensures EnvOk(env[1..]) && IsEnvName(env[0].0) && IsEnvValue(env[0].1) && forall x :: x in env[1..] ==> x.0 != env[0].0
  {
    hide IsEnvName, IsEnvValue;
  }

  lemma {:induction false} EnvPutOk(env: Env, key: string, value: string)
    requires EnvOk(env) && IsEnvName(key) && IsEnvValue(value)
    ensures EnvOk(EnvPut(env, key, value))
  {
    if env == [] {
      assert EnvPut(env, key, value) == [(key, value)];
    } else {
      EnvTailOk(env);
      hide EnvOk, IsEnvName, IsEnvValue;
      if env[0].0 == key {
        EnvConsOk((key, value), env[1..]);
      } else {
        EnvPutOk(env[1..], key, value);
        EnvPutKeys(env[1..], key, value);
        EnvConsOk(env[0], EnvPut(env[1..], key, value));
      }
    }
  }

  function EnvGet(env: Env, key: string): Option<string> {
    if env == [] then None else if env[0].0 == key then Some(env[0].1) else EnvGet(env[1..], key)
  }

  /** Assigning a variable twice keeps the last value and every other variable. */
  lemma {:induction false} EnvPutGet(env: Env, key: string, value: string, x: string)
    ensures EnvGet(EnvPut(env, key, value), x) == if x == key then Some(value) else EnvGet(env, x)
  {
    if env != [] && env[0].0 != key {
      EnvPutGet(env[1..], key, value, x);
    }
  }

  lemma PairsAppend(nodes: seq<Node>, n: Node, op: Node)
    requires PairsOk(nodes) && NodeOk(n) && MayFollow(n, op)
    ensures PairsOk(nodes + [n] + [op])
  {
    var r := nodes + [n] + [op];
    forall i | 0 <= i < |r| && i % 2 == 0 ensures NodeOk(r[i]) && MayFollow(r[i], r[i + 1]) {
      if i < |nodes| { assert NodeOk(nodes[i]) && MayFollow(nodes[i], nodes[i + 1]); }
    }
  }

  lemma BeginKeepsOk(st: PState, token: string)
    requires StateOk(st) && st.mode == Begin
    ensures Advance(st, token).Some? ==> StateOk(Advance(st, token).value)
  {
    hide PairsOk, UntilEquals, IsEnvName, IsEnvValue;
    var m := EnvMatch(token);
    if m.Some? {
      hide EnvOk;
      assert IsEnvName(m.value.0) && IsEnvValue(m.value.1);
      EnvPutOk(st.env, m.value.0, m.value.1);
    }
  }

  lemma AdvanceKeepsOk(st: PState, token: string)
    requires StateOk(st)
    ensures Advance(st, token).Some? ==> StateOk(Advance(st, token).value)
  {
    if st.mode == Begin {
      BeginKeepsOk(st, token);
    } else {
      var c := st.current.value;
      if st.mode == InCommand && token == "|" && c.stdout == Inherit {
        PairsAppend(st.nodes, c.(stdout := ToPipe), Pipe);
      } else if (st.mode == InCommand || st.mode == InChdir) && token == "&&" {
        PairsAppend(st.nodes, c, And);
      } else if st.mode == InCommand && token == "||" {
        PairsAppend(st.nodes, c, Or);
      }
      hide PairsOk, EnvMatch, IsEnvName, IsEnvValue;
    }
  }

  /** The state after all tokens, unless an assertion fails on the way. */
  ghost function Feed(st: PState, tokens: seq<string>): (r: Option<PState>)
    requires StateOk(st)
    ensures r.Some? ==> StateOk(r.value)
    decreases |tokens|
  {
    if tokens == [] then Some(st) else
    var next := Advance(st, tokens[0]);
    AdvanceKeepsOk(st, tokens[0]);
    if next == None then None else Feed(next.value, tokens[1..])
  }

  /** The final commit fails when no command is open. */
  ghost function Finish(st: PState): Option<seq<Node>> {
    if st.current == None then None else Some(st.nodes + [st.current.value])
  }

  ghost function ParseTokens(tokens: seq<string>): Option<seq<Node>> {
    var st := Feed(START, tokens);
    if st == None then None else Finish(st.value)
  }

  class Pipeline {
    var currentCommand: Option<Node>
    var pipeline: seq<Node>

    constructor ()
      ensures currentCommand == None && pipeline == []
    {
      currentCommand, pipeline := None, [];
    }

    method CommitCommand() returns (ok: bool)
      modifies this
      ensures ok <==> old(currentCommand).Some?
      ensures ok ==> pipeline == old(pipeline) + [old(currentCommand).value] && currentCommand == None
      ensures !ok ==> pipeline == old(pipeline) && currentCommand == old(currentCommand)
    {
      if currentCommand == None { return false; }
      pipeline := pipeline + [currentCommand.value];
      currentCommand := None;
      return true;
    }

    /** The body of the token loop: `ok` is false when an assertion fails. */
    method Consume(token: string, state: Mode, envVars: Env) returns (ok: bool, state': Mode, envVars': Env)
      requires StateOk(PState(state, currentCommand, pipeline, envVars))
      modifies this
      ensures ok <==> Advance(old(PState(state, currentCommand, pipeline, envVars)), token).Some?
      ensures ok ==> Advance(old(PState(state, currentCommand, pipeline, envVars)), token)
                     == Some(PState(state', currentCommand, pipeline, envVars'))
    {
      ok, state', envVars' := true, state, envVars;
      match state
      case Begin =>
        var envVarMatch := EnvMatch(token);
        if envVarMatch != None {
          envVars' := EnvPut(envVars, envVarMatch.value.0, envVarMatch.value.1);
        } else if token == "cd" {
          currentCommand := Some(Chdir(None));
          if envVars != [] { return false, state, envVars; }
          state' := InChdir;
        } else {
          currentCommand := Some(Command(token, [token], None, Inherit, Unset, []));
          if envVars != [] {
            currentCommand := Some(currentCommand.value.(env := envVars));
            envVars' := [];
          }
          state' := InCommand;
        }
      case InCommand =>
        if token == ">" {
          state' := WantStdout;
        } else if token == "2>" {
          state' := WantStderr;
        } else if token == "2>&1" {
          if currentCommand.value.stderr != Unset { return false, state, envVars; }
          currentCommand := Some(currentCommand.value.(stderr := ToStdout));
        } else if token == "<" {
          state' := WantStdin;
        } else if token == "|" {
          if currentCommand.value.stdout != Inherit { return false, state, envVars; }
          currentCommand := Some(currentCommand.value.(stdout := ToPipe));
          ok := CommitCommand();
          pipeline := pipeline + [Pipe];
          state' := Begin;
        } else if token == "&&" {
          ok := CommitCommand();
          pipeline := pipeline + [And];
          state' := Begin;
        } else if token == "||" {
          ok := CommitCommand();
          pipeline := pipeline + [Or];
          state' := Begin;
        } else {
          currentCommand := Some(currentCommand.value.(argv := currentCommand.value.argv + [token]));
        }
      case InChdir =>
        if token == "&&" {
          ok := CommitCommand();
          pipeline := pipeline + [And];
          state' := Begin;
        } else {
          if currentCommand.value.dir != None { return false, state, envVars; }
          currentCommand := Some(currentCommand.value.(dir := Some(token)));
        }
      case WantStdout =>
        if currentCommand.value.stdout != Inherit { return false, state, envVars; }
        currentCommand := Some(currentCommand.value.(stdout := ToFile(token)));
        state' := InCommand;
      case WantStderr =>
        if currentCommand.value.stderr != Unset { return false, state, envVars; }
        currentCommand := Some(currentCommand.value.(stderr := ErrFile(token)));
        state' := InCommand;
      case WantStdin =>
        if currentCommand.value.stdin != None { return false, state, envVars; }
        currentCommand := Some(currentCommand.value.(stdin := Some(token)));
        state' := InCommand;
    }

    method Parse(command: seq<string>) returns (r: Option<seq<Node>>)
      modifies this
      ensures r == ParseTokens(command)
      ensures r.Some? ==> pipeline == r.value && currentCommand == None && WellFormedLine(r.value)
    {
      currentCommand, pipeline := None, [];
      var tokens := command;
      var state, envVars: Env := Begin, [];
      while tokens != []
        invariant StateOk(PState(state, currentCommand, pipeline, envVars))
        invariant Feed(START, command) == Feed(PState(state, currentCommand, pipeline, envVars), tokens)
        decreases |tokens|
      {
        var token := tokens[0];
        AdvanceKeepsOk(PState(state, currentCommand, pipeline, envVars), token);
        tokens := tokens[1..];
        var ok;
        ok, state, envVars := Consume(token, state, envVars);
        if !ok { return None; }
      }
      var ok := CommitCommand();
      if ok {
        FinishWellFormed(pipeline);
        return Some(pipeline);
      }
      return None;
    }
  }

  lemma FinishWellFormed(nodes: seq<Node>)
    requires nodes != [] && PairsOk(nodes[..|nodes| - 1]) && NodeOk(nodes[|nodes| - 1])
    requires nodes[|nodes| - 1].Command? ==> !nodes[|nodes| - 1].stdout.ToPipe?
    ensures WellFormedLine(nodes)
  {
  }

  // ----- Printing, and the round trip ---------------------------------------------------------------

  function EnvTokens(env: Env): seq<string> {
    if env == [] then [] else [env[0].0 + "=" + env[0].1] + EnvTokens(env[1..])
  }

  function InTokens(c: Node): seq<string> requires c.Command? {
    if c.stdin.Some? then ["<", c.stdin.value] else []
  }

  function OutTokens(c: Node): seq<string> requires c.Command? {
    if c.stdout.ToFile? then [">", c.stdout.file] else []
  }

  function ErrTokens(c: Node): seq<string> requires c.Command? {
    match c.stderr
    case Unset => []
    case ToStdout => ["2>&1"]
    case ErrFile(f) => ["2>", f]
  }

  /** The tokens that spell a node. */
  function NodeTokens(n: Node): seq<string> {
    match n
    case Command(name, argv, _, _, _, env) =>
      EnvTokens(env) + ([name] + ((if argv == [] then [] else argv[1..]) + (InTokens(n) + (OutTokens(n) + ErrTokens(n)))))
    case Chdir(dir) => ["cd"] + if dir.Some? then [dir.value] else []
    case Pipe => ["|"]
    case And => ["&&"]
    case Or => ["||"]
  }

  function Tokens(nodes: seq<Node>): seq<string> {
    if nodes == [] then [] else NodeTokens(nodes[0]) + Tokens(nodes[1..])
  }

  lemma {:induction false} FeedConcat(st: PState, a: seq<string>, b: seq<string>)
    requires StateOk(st)
    ensures Feed(st, a + b) == if Feed(st, a) == None then None else Feed(Feed(st, a).value, b)
    decreases |a|
  {
    if a == [] {
      assert a + b == b;
    } else {
      assert (a + b)[1..] == a[1..] + b;
      var next := Advance(st, a[0]);
      AdvanceKeepsOk(st, a[0]);
      if next.Some? { FeedConcat(next.value, a[1..], b); }
    }
  }

  lemma FeedOne(st: PState, token: string)
    requires StateOk(st)
    ensures Feed(st, [token]) == Advance(st, token)
  {
  }

  lemma {:induction false} UntilEqualsOf(k: string, rest: string)
    requires IsEnvName(k) || k == ""
    ensures UntilEquals(k + "=" + rest) == |k|
  {
    if k != "" {
      assert (k + "=" + rest)[0] == k[0] && IsWordChar(k[0]);
      assert (k + "=" + rest)[1..] == k[1..] + "=" + rest;
      UntilEqualsOf(k[1..], rest);
    }
  }

  lemma EnvMatchNewline(k: string, v: string)
    requires IsEnvName(k) && IsEnvValue(v)
    ensures EnvMatch(k + "=" + v + "\n") == Some((k, v))
  {
    UntilEqualsOf(k, v + "\n");
    hide IsEnvName, IsEnvValue, UntilEquals;
    var token := k + "=" + v + "\n";
    assert token == k + "=" + (v + "\n");
    assert token[..|k|] == k && token[|k| + 1..] == v + "\n" && (v + "\n")[..|v|] == v;
  }

  lemma EnvMatchOnly(token: string)
    requires EnvMatch(token).Some?
    ensures var (k, v) := EnvMatch(token).value;
      IsEnvName(k) && IsEnvValue(v) && (token == k + "=" + v || token == k + "=" + v + "\n")
  {
    hide IsEnvName, IsEnvValue, UntilEquals;
    var n := UntilEquals(token);
    var rest := token[n + 1..];
    assert token == token[..n] + "=" + rest;
    if rest != "" && rest[|rest| - 1] == '\n' { assert rest == rest[..|rest| - 1] + "\n"; }
  }

  /** A token is an assignment exactly when it reads NAME=VALUE, possibly with a newline at the end. */
  lemma EnvMatchIff(token: string, k: string, v: string)
    ensures EnvMatch(token) == Some((k, v)) <==>
            IsEnvName(k) && IsEnvValue(v) && (token == k + "=" + v || token == k + "=" + v + "\n")
  {
    hide EnvMatch, IsEnvName, IsEnvValue;
    if IsEnvName(k) && IsEnvValue(v) {
      EnvMatchOf(k, v);
      EnvMatchNewline(k, v);
    }
    if EnvMatch(token).Some? { EnvMatchOnly(token); }
  }

  lemma EnvMatchOf(k: string, v: string)
    requires IsEnvName(k) && IsEnvValue(v)
    ensures EnvMatch(k + "=" + v) == Some((k, v))
  {
    UntilEqualsOf(k, v);
    var token := k + "=" + v;
    assert token[..|k|] == k && token[|k| + 1..] == v;
    assert !IsSpace(v[|v| - 1]);
  }

  lemma {:induction false} EnvPutFresh(env: Env, key: string, value: string)
    requires forall i :: 0 <= i < |env| ==> env[i].0 != key
    ensures EnvPut(env, key, value) == env + [(key, value)]
  {
    if env != [] {
      EnvPutFresh(env[1..], key, value);
    }
  }

  lemma EnvPrefixOk(done: Env, rest: Env)
    requires EnvOk(done + rest) && rest != []
    ensures EnvOk(done + [rest[0]]) && done + [rest[0]] + rest[1..] == done + rest
    ensures forall i :: 0 <= i < |done| ==> done[i].0 != rest[0].0
  {
    var done' := done + [rest[0]];
    assert forall i :: 0 <= i < |done'| ==> (done + rest)[i] == done'[i];
    forall i | 0 <= i < |done| ensures done[i].0 != rest[0].0 {
      assert done'[i] == done[i] && done'[|done|] == rest[0];
    }
  }

  /** Assignment tokens rebuild the dictionary in order. */
  lemma {:induction false} FeedEnv(nodes: seq<Node>, done: Env, rest: Env)
    requires PairsOk(nodes) && EnvOk(done + rest) && EnvOk(done)
    ensures Feed(PState(Begin, None, nodes, done), EnvTokens(rest)) == Some(PState(Begin, None, nodes, done + rest))
    decreases |rest|
  {
    if rest == [] {
      assert done + rest == done;
    } else {
      var (k, v) := rest[0];
      EnvPrefixOk(done, rest);
      assert (done + rest)[|done|] == rest[0];
      EnvMatchOf(k, v);
      EnvPutFresh(done, k, v);
      AdvanceKeepsOk(PState(Begin, None, nodes, done), k + "=" + v);
      FeedEnv(nodes, done + [rest[0]], rest[1..]);
    }
  }

  lemma {:induction false} FeedArgs(nodes: seq<Node>, c: Node, args: seq<string>)
    requires StateOk(PState(InCommand, Some(c), nodes, []))
    requires forall k :: 0 <= k < |args| ==> args[k] !in OPERATORS
    ensures Feed(PState(InCommand, Some(c), nodes, []), args) == Some(PState(InCommand, Some(c.(argv := c.argv + args)), nodes, []))
    decreases |args|
  {
    if args == [] {
      assert c.argv + args == c.argv;
    } else {
      var st := PState(InCommand, Some(c), nodes, []);
      AdvanceKeepsOk(st, args[0]);
      var c' := c.(argv := c.argv + [args[0]]);
      assert args[0] !in OPERATORS;
      assert c'.argv + args[1..] == c.argv + args;
      FeedArgs(nodes, c', args[1..]);
    }
  }

  lemma FeedTwo(st: PState, a: string, b: string)
    requires StateOk(st) && Advance(st, a).Some?
    ensures StateOk(Advance(st, a).value) && Feed(st, [a, b]) == Advance(Advance(st, a).value, b)
  {
    AdvanceKeepsOk(st, a);
    assert [a, b] == [a] + [b];
    FeedConcat(st, [a], [b]);
    FeedOne(st, a);
    FeedOne(Advance(st, a).value, b);
  }

  /** What the parser has built of a command before an operator follows. */
  ghost function Unpiped(c: Node): Node requires c.Command? {
    if c.stdout.ToPipe? then c.(stdout := Inherit) else c
  }

  lemma FeedRedirects(nodes: seq<Node>, c: Node)
    requires PairsOk(nodes) && CommandOk(c)
    ensures var c0 := c.(stdin := None, stdout := Inherit, stderr := Unset);
      && StateOk(PState(InCommand, Some(c0), nodes, []))
      && Feed(PState(InCommand, Some(c0), nodes, []), InTokens(c) + (OutTokens(c) + ErrTokens(c)))
         == Some(PState(InCommand, Some(Unpiped(c)), nodes, []))
  {
    hide PairsOk, EnvMatch, EnvOk;
    var c0 := c.(stdin := None, stdout := Inherit, stderr := Unset);
    var c1 := c0.(stdin := c.stdin);
    var c2 := c1.(stdout := if c.stdout.ToFile? then c.stdout else Inherit);
    var s0 := PState(InCommand, Some(c0), nodes, []);
    var s1 := s0.(current := Some(c1));
    var s2 := s0.(current := Some(c2));
    FeedConcat(s0, InTokens(c), OutTokens(c) + ErrTokens(c));
    assert Feed(s0, InTokens(c)) == Some(s1) by {
      if c.stdin.Some? { FeedTwo(s0, "<", c.stdin.value); }
    }
    FeedConcat(s1, OutTokens(c), ErrTokens(c));
    assert Feed(s1, OutTokens(c)) == Some(s2) by {
      if c.stdout.ToFile? { FeedTwo(s1, ">", c.stdout.file); }
    }
    match c.stderr {
      case Unset =>
      case ToStdout => FeedOne(s2, "2>&1");
      case ErrFile(f) => FeedTwo(s2, "2>", f);
    }
  }

  lemma FeedCommand(nodes: seq<Node>, c: Node)
    requires PairsOk(nodes) && CommandOk(c)
    ensures Feed(PState(Begin, None, nodes, []), NodeTokens(c)) == Some(PState(InCommand, Some(Unpiped(c)), nodes, []))
  {
    hide PairsOk, EnvMatch, EnvOk, Feed;
    var st := PState(Begin, None, nodes, []);
    var args, redirects := c.argv[1..], InTokens(c) + (OutTokens(c) + ErrTokens(c));
    assert [] + c.env == c.env;
    FeedEnv(nodes, [], c.env);
    FeedConcat(st, EnvTokens(c.env), [c.name] + (args + redirects));
    var st1 := PState(Begin, None, nodes, c.env);
    var bare := Command(c.name, [c.name], None, Inherit, Unset, c.env);
    FeedConcat(st1, [c.name], args + redirects);
    FeedOne(st1, c.name);
    var st2 := PState(InCommand, Some(bare), nodes, []);
    FeedConcat(st2, args, redirects);
    FeedArgs(nodes, bare, args);
    assert [c.name] + args == c.argv;
    FeedRedirects(nodes, c);
  }

  /** Reading a node and the operator after it. */
  lemma FeedPair(nodes: seq<Node>, n: Node, op: Node)
    requires PairsOk(nodes) && NodeOk(n) && MayFollow(n, op)
    ensures Feed(PState(Begin, None, nodes, []), NodeTokens(n) + NodeTokens(op)) == Some(PState(Begin, None, nodes + [n] + [op], []))
  {
    var st := PState(Begin, None, nodes, []);
    FeedConcat(st, NodeTokens(n), NodeTokens(op));
    var st1 := FeedNode(nodes, n);
    FeedOne(st1, NodeTokens(op)[0]);
  }

  lemma FeedNode(nodes: seq<Node>, n: Node) returns (st: PState)
    requires PairsOk(nodes) && NodeOk(n)
    ensures Feed(PState(Begin, None, nodes, []), NodeTokens(n)) == Some(st)
    ensures st == PState(if n.Chdir? then InChdir else InCommand, Some(if n.Chdir? then n else Unpiped(n)), nodes, [])
  {
    st := PState(if n.Chdir? then InChdir else InCommand, Some(if n.Chdir? then n else Unpiped(n)), nodes, []);
    if n.Chdir? {
      var st0 := PState(Begin, None, nodes, []);
      assert EnvMatch("cd") == None by { assert UntilEquals("cd") == 2; }
      if n.dir.Some? {
        FeedTwo(st0, "cd", n.dir.value);
        assert ["cd"] + [n.dir.value] == ["cd", n.dir.value];
      } else {
        FeedOne(st0, "cd");
        assert ["cd"] + [] == ["cd"];
      }
    } else {
      FeedCommand(nodes, n);
    }
  }

  /** Feeding the tokens of `nodes` after `done` gives `done + nodes`. */
  ghost predicate ReadsBack(done: seq<Node>, nodes: seq<Node>)
    requires PairsOk(done)
  {
    var r := Feed(PState(Begin, None, done, []), Tokens(nodes));
    r.Some? && Finish(r.value) == Some(done + nodes)
  }

  lemma ReadBackOne(done: seq<Node>, n: Node)
    requires PairsOk(done) && NodeOk(n) && (n.Command? ==> !n.stdout.ToPipe?)
    ensures ReadsBack(done, [n])
  {
    assert Tokens([n]) == NodeTokens(n) + Tokens([]) == NodeTokens(n);
    var st1 := FeedNode(done, n);
  }

  lemma BeginOk(done: seq<Node>)
    requires PairsOk(done)
    ensures StateOk(PState(Begin, None, done, []))
  {
  }

  lemma ReadBackPair(done: seq<Node>, nodes: seq<Node>)
    requires |nodes| >= 2 && PairsOk(done) && NodeOk(nodes[0]) && MayFollow(nodes[0], nodes[1])
    requires PairsOk(done + [nodes[0]] + [nodes[1]]) && ReadsBack(done + [nodes[0]] + [nodes[1]], nodes[2..])
    ensures ReadsBack(done, nodes)
  {
    hide Tokens, NodeTokens, Feed, MayFollow, NodeOk, StateOk, PairsOk, Finish;
    BeginOk(done);
    TokensOfPair(nodes);
    FeedPair(done, nodes[0], nodes[1]);
    FeedConcat(PState(Begin, None, done, []), NodeTokens(nodes[0]) + NodeTokens(nodes[1]), Tokens(nodes[2..]));
    assert done + [nodes[0]] + [nodes[1]] + nodes[2..] == done + nodes;
  }

  lemma {:induction false} ReadBack(done: seq<Node>, nodes: seq<Node>)
    requires PairsOk(done) && WellFormedLine(nodes)
    ensures ReadsBack(done, nodes)
    decreases |nodes|
  {
    if |nodes| == 1 {
      assert nodes == [nodes[0]];
      ReadBackOne(done, nodes[0]);
    } else {
      var n, op, rest := nodes[0], nodes[1], nodes[2..];
      RestWellFormed(nodes);
      PairsAppend(done, n, op);
      hide WellFormedLine, ReadsBack, PairsOk, NodeOk, MayFollow;
      ReadBack(done + [n] + [op], rest);
      ReadBackPair(done, nodes);
    }
  }

  lemma TokensOfPair(nodes: seq<Node>)
    requires |nodes| >= 2
    ensures Tokens(nodes) == (NodeTokens(nodes[0]) + NodeTokens(nodes[1])) + Tokens(nodes[2..])
  {
  }

  lemma RestWellFormed(nodes: seq<Node>)
    requires WellFormedLine(nodes) && |nodes| > 1
    ensures |nodes| > 2 && WellFormedLine(nodes[2..])
    ensures NodeOk(nodes[0]) && MayFollow(nodes[0], nodes[1])
  {
    hide NodeOk, MayFollow;
    var front, rest := nodes[..|nodes| - 1], nodes[2..];
    assert NodeOk(front[0]) && MayFollow(front[0], front[0 + 1]);
    assert |front| % 2 == 0;
    var restFront := rest[..|rest| - 1];
    forall i | 0 <= i < |restFront| && i % 2 == 0 ensures NodeOk(restFront[i]) && MayFollow(restFront[i], restFront[i + 1]) {
      assert NodeOk(front[i + 2]) && MayFollow(front[i + 2], front[i + 2 + 1]);
    }
  }

  /** Every well-formed pipeline is recovered from its tokens. */
  lemma ParsePrinted(nodes: seq<Node>)
    requires WellFormedLine(nodes)
    ensures ParseTokens(Tokens(nodes)) == Some(nodes)
  {
    ReadBack([], nodes);
    assert [] + nodes == nodes;
  }

  /** The pipelines the parser can return are exactly the well-formed ones. */
  lemma ParseImage(nodes: seq<Node>)
    ensures WellFormedLine(nodes) <==> exists tokens :: ParseTokens(tokens) == Some(nodes)
  {
    if WellFormedLine(nodes) {
      ParsePrinted(nodes);
    }
    if tokens :| ParseTokens(tokens) == Some(nodes) {
      var st := Feed(START, tokens).value;
      assert nodes[..|nodes| - 1] == st.nodes;
      FinishWellFormed(nodes);
    }
  }

  // ----- Every order of arguments and redirections ---------------------------------------------------

  /** What may follow a command name. */
  datatype Item = Arg(word: string) | In(file: string) | Out(file: string) | Err(file: string) | ErrToOut

  function ItemTokens(item: Item): seq<string> {
    match item
    case Arg(w) => [w]
    case In(f) => ["<", f]
    case Out(f) => [">", f]
    case Err(f) => ["2>", f]
    case ErrToOut => ["2>&1"]
  }

  function ItemsTokens(items: seq<Item>): seq<string> {
    if items == [] then [] else ItemTokens(items[0]) + ItemsTokens(items[1..])
  }

  /** The arguments among the items, in order. */
  function Args(items: seq<Item>): seq<string> {
    if items == [] then [] else (if items[0].Arg? then [items[0].word] else []) + Args(items[1..])
  }

  function Ins(items: seq<Item>): seq<string> {
    if items == [] then [] else (if items[0].In? then [items[0].file] else []) + Ins(items[1..])
  }

  function Outs(items: seq<Item>): seq<string> {
    if items == [] then [] else (if items[0].Out? then [items[0].file] else []) + Outs(items[1..])
  }

  /** Where standard error is sent, each time. */
  function Errs(items: seq<Item>): seq<Stderr> {
    if items == [] then [] else
    (if items[0].Err? then [ErrFile(items[0].file)] else if items[0].ErrToOut? then [ToStdout] else []) + Errs(items[1..])
  }

  /** No stream is redirected twice, counting what `c` already redirects. */
  ghost predicate Compatible(c: Node, items: seq<Item>)
    requires c.Command?
  {
    && |Ins(items)| <= (if c.stdin == None then 1 else 0)
    && |Outs(items)| <= (if c.stdout == Inherit then 1 else 0)
    && |Errs(items)| <= (if c.stderr == Unset then 1 else 0)
  }

  /** `c` with the arguments appended and the streams redirected. */
  ghost function With(c: Node, items: seq<Item>): Node
    requires c.Command?
  {
    c.(argv := c.argv + Args(items),
       stdin := if Ins(items) == [] then c.stdin else Some(Ins(items)[0]),
       stdout := if Outs(items) == [] then c.stdout else ToFile(Outs(items)[0]),
       stderr := if Errs(items) == [] then c.stderr else Errs(items)[0])
  }

  ghost predicate ItemsOk(items: seq<Item>) {
    forall k :: 0 <= k < |items| && items[k].Arg? ==> items[k].word !in OPERATORS
  }

  ghost predicate Open(c: Node, nodes: seq<Node>) {
    PairsOk(nodes) && CommandOk(c) && !c.stdout.ToPipe?
  }

  lemma OneItem(item: Item)
    ensures Args([item]) == if item.Arg? then [item.word] else []
    ensures Ins([item]) == if item.In? then [item.file] else []
    ensures Outs([item]) == if item.Out? then [item.file] else []
    ensures Errs([item]) == if item.Err? then [ErrFile(item.file)] else if item.ErrToOut? then [ToStdout] else []
  {
    assert [item][1..] == [];
  }

  lemma FeedItem(nodes: seq<Node>, c: Node, item: Item)
    requires Open(c, nodes) && (item.Arg? ==> item.word !in OPERATORS)
    ensures Feed(PState(InCommand, Some(c), nodes, []), ItemTokens(item)) ==
            if Compatible(c, [item]) then Some(PState(InCommand, Some(With(c, [item])), nodes, [])) else None
    ensures Compatible(c, [item]) ==> Open(With(c, [item]), nodes)
  {
    hide PairsOk, EnvMatch, EnvOk, Args, Ins, Outs, Errs;
    var st := PState(InCommand, Some(c), nodes, []);
    OneItem(item);
    assert c.argv + [] == c.argv;
    match item {
      case Arg(w) => FeedOne(st, w);
      case In(f) => FeedTwo(st, "<", f);
      case Out(f) => FeedTwo(st, ">", f);
      case Err(f) => FeedTwo(st, "2>", f);
      case ErrToOut => FeedOne(st, "2>&1");
    }
  }

  lemma SplitItems(items: seq<Item>)
    requires items != []
    ensures Args(items) == Args([items[0]]) + Args(items[1..]) && Ins(items) == Ins([items[0]]) + Ins(items[1..])
    ensures Outs(items) == Outs([items[0]]) + Outs(items[1..]) && Errs(items) == Errs([items[0]]) + Errs(items[1..])
  {
    OneItem(items[0]);
  }

  lemma WithStep(c: Node, items: seq<Item>)
    requires c.Command? && items != []
    ensures Compatible(c, items) <==> Compatible(c, [items[0]]) && Compatible(With(c, [items[0]]), items[1..])
    ensures Compatible(c, items) ==> With(c, items) == With(With(c, [items[0]]), items[1..])
  {
    SplitItems(items);
    NotUnset([items[0]]);
    hide Args, Ins, Outs, Errs;
    ConcatAssoc(c.argv, Args([items[0]]), Args(items[1..]));
  }

  lemma {:induction false} NotUnset(items: seq<Item>)
    ensures Unset !in Errs(items)
  {
    if items != [] { NotUnset(items[1..]); }
  }

  /** Arguments and redirections are read alike in every order; two redirections of one stream are refused. */
  lemma {:induction false} FeedItems(nodes: seq<Node>, c: Node, items: seq<Item>)
    requires Open(c, nodes) && ItemsOk(items)
    ensures StateOk(PState(InCommand, Some(c), nodes, []))
    ensures Feed(PState(InCommand, Some(c), nodes, []), ItemsTokens(items)) ==
            if Compatible(c, items) then Some(PState(InCommand, Some(With(c, items)), nodes, [])) else None
    decreases |items|
  {
    var st := PState(InCommand, Some(c), nodes, []);
    if items == [] {
      assert c.argv + Args(items) == c.argv;
    } else {
      OpenIsOk(c, nodes);
      hide Feed, With, Compatible, ItemTokens, PairsOk, CommandOk, Open, StateOk;
      FeedItem(nodes, c, items[0]);
      WithStep(c, items);
      FeedConcat(st, ItemTokens(items[0]), ItemsTokens(items[1..]));
      if Compatible(c, [items[0]]) { FeedItems(nodes, With(c, [items[0]]), items[1..]); }
    }
  }

  lemma OpenIsOk(c: Node, nodes: seq<Node>)
    requires Open(c, nodes)
    ensures StateOk(PState(InCommand, Some(c), nodes, []))
  {
  }

  // ----- Whole lines -----------------------------------------------------------------------------------

  /** A command with assignments before its name, or a `cd`; assignments before a `cd` are refused. */
  datatype Part =
    | Invoke(assigns: Env, name: string, items: seq<Item>)
    | ChangeDir(assigns: Env, words: seq<string>)

  ghost predicate AssignsOk(assigns: Env) {
    forall k :: 0 <= k < |assigns| ==> IsEnvName(assigns[k].0) && IsEnvValue(assigns[k].1)
  }

  ghost predicate PartOk(p: Part) {
    AssignsOk(p.assigns) && match p {
      case Invoke(_, name, items) => name != "cd" && EnvMatch(name) == None && ItemsOk(items)
      case ChangeDir(_, words) => "&&" !in words
    }
  }

  function PartTokens(p: Part): seq<string> {
    EnvTokens(p.assigns) + match p {
      case Invoke(_, name, items) => [name] + ItemsTokens(items)
      case ChangeDir(_, words) => ["cd"] + words
    }
  }

  /** The dictionary after a list of assignments. */
  ghost function Assigned(env: Env, assigns: Env): Env
    decreases |assigns|
  {
    if assigns == [] then env else Assigned(EnvPut(env, assigns[0].0, assigns[0].1), assigns[1..])
  }

  /** The value last assigned to `x`. */
  function LastValue(assigns: Env, x: string): Option<string> {
    if assigns == [] then None else
    var a := assigns[|assigns| - 1];
    if a.0 == x then Some(a.1) else LastValue(assigns[..|assigns| - 1], x)
  }

  lemma {:induction false} LastValueCons(a: (string, string), rest: Env, x: string)
    ensures LastValue([a] + rest, x) ==
            if LastValue(rest, x).Some? then LastValue(rest, x) else if a.0 == x then Some(a.1) else None
  {
    if rest == [] {
      assert [a] + rest == [a] && [a][..0] == [];
    } else {
      assert ([a] + rest)[..|rest|] == [a] + rest[..|rest| - 1];
      LastValueCons(a, rest[..|rest| - 1], x);
    }
  }

  /** Of several assignments of a variable the last one counts. */
  lemma {:induction false} AssignedGet(env: Env, assigns: Env, x: string)
    ensures EnvGet(Assigned(env, assigns), x) == if LastValue(assigns, x).Some? then LastValue(assigns, x) else EnvGet(env, x)
    decreases |assigns|
  {
    if assigns != [] {
      var (k, v) := assigns[0];
      EnvPutGet(env, k, v, x);
      AssignedGet(EnvPut(env, k, v), assigns[1..], x);
      LastValueCons(assigns[0], assigns[1..], x);
      assert assigns == [assigns[0]] + assigns[1..];
    }
  }

  /** What a part is read as; `None` where the parser refuses it. */
  ghost function PartNode(p: Part): Option<Node> {
    match p
    case Invoke(assigns, name, items) =>
      var bare := Command(name, [name], None, Inherit, Unset, Assigned([], assigns));
      if Compatible(bare, items) then Some(With(bare, items)) else None
    case ChangeDir(assigns, words) =>
      if assigns != [] || |words| > 1 then None else Some(Chdir(if words == [] then None else Some(words[0])))
  }

  lemma {:induction false} FeedAssigns(nodes: seq<Node>, env: Env, assigns: Env)
    requires PairsOk(nodes) && EnvOk(env) && AssignsOk(assigns)
    ensures EnvOk(Assigned(env, assigns))
    ensures Feed(PState(Begin, None, nodes, env), EnvTokens(assigns)) == Some(PState(Begin, None, nodes, Assigned(env, assigns)))
    decreases |assigns|
  {
    if assigns != [] {
      var (k, v) := assigns[0];
      hide EnvOk, IsEnvName, IsEnvValue, PairsOk;
      EnvMatchOf(k, v);
      EnvPutOk(env, k, v);
      FeedAssigns(nodes, EnvPut(env, k, v), assigns[1..]);
    }
  }

  lemma {:induction false} AssignedSome(env: Env, assigns: Env)
    ensures Assigned(env, assigns) == [] <==> env == [] && assigns == []
    decreases |assigns|
  {
    if assigns != [] { AssignedSome(EnvPut(env, assigns[0].0, assigns[0].1), assigns[1..]); }
  }

  /** The parser's state once a part has been read. */
  ghost function Reading(nodes: seq<Node>, n: Node): PState {
    PState(if n.Chdir? then InChdir else InCommand, Some(n), nodes, [])
  }

  lemma FeedChangeDir(nodes: seq<Node>, env: Env, words: seq<string>)
    requires PairsOk(nodes) && EnvOk(env) && "&&" !in words
    ensures Feed(PState(Begin, None, nodes, env), ["cd"] + words) ==
            if env != [] || |words| > 1 then None
            else Some(Reading(nodes, Chdir(if words == [] then None else Some(words[0]))))
  {
    hide PairsOk, EnvOk;
    var st := PState(Begin, None, nodes, env);
    assert EnvMatch("cd") == None by { assert UntilEquals("cd") == 2; }
    FeedConcat(st, ["cd"], words);
    FeedOne(st, "cd");
    if env == [] && words != [] {
      var st1 := Reading(nodes, Chdir(None));
      var st2 := Reading(nodes, Chdir(Some(words[0])));
      AdvanceKeepsOk(st, "cd");
      AdvanceKeepsOk(st1, words[0]);
      assert words[0] in words && Advance(st1, words[0]) == Some(st2);
      if |words| > 1 { assert words[1] in words && words[1..][0] == words[1]; }
    }
  }

  lemma FeedPart(nodes: seq<Node>, p: Part)
    requires PairsOk(nodes) && PartOk(p)
    ensures StateOk(PState(Begin, None, nodes, []))
    ensures Feed(PState(Begin, None, nodes, []), PartTokens(p)) ==
            if PartNode(p) == None then None else Some(Reading(nodes, PartNode(p).value))
  {
    var st, env := PState(Begin, None, nodes, []), Assigned([], p.assigns);
    var st1 := PState(Begin, None, nodes, env);
    FeedAssigns(nodes, [], p.assigns);
    match p {
      case Invoke(_, name, items) =>
        hide PairsOk, EnvMatch, EnvOk, Feed, With, Compatible;
        FeedConcat(st, EnvTokens(p.assigns), [name] + ItemsTokens(items));
        FeedConcat(st1, [name], ItemsTokens(items));
        FeedOne(st1, name);
        FeedItems(nodes, Command(name, [name], None, Inherit, Unset, env), items);
      case ChangeDir(_, words) =>
        hide PairsOk, EnvMatch, EnvOk, Feed;
        FeedConcat(st, EnvTokens(p.assigns), ["cd"] + words);
        FeedChangeDir(nodes, env, words);
        AssignedSome([], p.assigns);
    }
  }

  /** Parts joined by operators; after a `cd` only && ends the list of its words. */
  datatype Line = One(part: Part) | Joined(part: Part, op: Node, rest: Line)

  ghost predicate LineOk(l: Line) {
    PartOk(l.part) && (l.Joined? ==> IsOp(l.op) && (l.part.ChangeDir? ==> l.op == And) && LineOk(l.rest))
  }

  function LineTokens(l: Line): seq<string> {
    match l
    case One(p) => PartTokens(p)
    case Joined(p, op, rest) => PartTokens(p) + (NodeTokens(op) + LineTokens(rest))
  }

  /** A command before a pipe must not redirect its output ... */
  ghost predicate Refused(n: Node, op: Node) { op.Pipe? && n.Command? && n.stdout != Inherit }

  /** ... and then writes to the pipe. */
  ghost function Piped(n: Node, op: Node): Node { if op.Pipe? && n.Command? then n.(stdout := ToPipe) else n }

  /** What a line is read as. */
  ghost function LineNodes(l: Line): Option<seq<Node>> {
    match PartNode(l.part) {
      case None => None
      case Some(n) =>
        if l.One? then Some([n])
        else if Refused(n, l.op) then None
        else if LineNodes(l.rest) == None then None
        else Some([Piped(n, l.op)] + [l.op] + LineNodes(l.rest).value)
    }
  }

  lemma FeedOp(nodes: seq<Node>, n: Node, op: Node)
    requires StateOk(Reading(nodes, n)) && (n.Command? || n.Chdir?) && IsOp(op) && (n.Chdir? ==> op == And)
    ensures Feed(Reading(nodes, n), NodeTokens(op)) ==
            if Refused(n, op) then None else Some(PState(Begin, None, nodes + [Piped(n, op)] + [op], []))
  {
    hide PairsOk;
    FeedOne(Reading(nodes, n), NodeTokens(op)[0]);
  }

  /** The parser's state after the nodes `done` and then `nodes`, the last of which is still open. */
  ghost function OpenAt(done: seq<Node>, nodes: seq<Node>): PState
    requires nodes != []
  {
    Reading(done + nodes[..|nodes| - 1], nodes[|nodes| - 1])
  }

  /** Reading `tokens` after `done` gives `r`. */
  ghost predicate GivesAfter(done: seq<Node>, tokens: seq<string>, r: Option<seq<Node>>)
    requires PairsOk(done)
  {
    var st := Feed(PState(Begin, None, done, []), tokens);
    match r {
      case None => st == None
      case Some(nodes) => nodes != [] && st == Some(OpenAt(done, nodes))
    }
  }

  lemma {:induction false} FeedLine(done: seq<Node>, l: Line)
    requires PairsOk(done) && LineOk(l)
    ensures GivesAfter(done, LineTokens(l), LineNodes(l))
    decreases l, 0
  {
    FeedPart(done, l.part);
    hide PartTokens, NodeTokens, PairsOk, Feed, With, Compatible;
    if l.One? && PartNode(l.part).Some? {
      assert done + [PartNode(l.part).value][..0] == done;
    }
    if l.Joined? {
      FeedConcat(PState(Begin, None, done, []), PartTokens(l.part), NodeTokens(l.op) + LineTokens(l.rest));
      if PartNode(l.part).Some? { FeedRest(done, PartNode(l.part).value, l.op, l.rest); }
    }
  }

  lemma BeginPairs(nodes: seq<Node>)
    requires StateOk(PState(Begin, None, nodes, []))
    ensures PairsOk(nodes)
  {
  }

  lemma OpenAfter(a: seq<Node>, b: seq<Node>, c: seq<Node>)
    requires c != []
    ensures b + c != [] && OpenAt(a + b, c) == OpenAt(a, b + c)
  {
    assert (b + c)[..|b + c| - 1] == b + c[..|c| - 1];
    ConcatAssoc(a, b, c[..|c| - 1]);
  }

  lemma {:induction false} FeedRest(done: seq<Node>, n: Node, op: Node, rest: Line)
    requires StateOk(Reading(done, n)) && (n.Command? || n.Chdir?) && IsOp(op) && (n.Chdir? ==> op == And) && LineOk(rest)
    ensures var st := Feed(Reading(done, n), NodeTokens(op) + LineTokens(rest));
      if Refused(n, op) || LineNodes(rest) == None then st == None
      else st == Some(OpenAt(done, [Piped(n, op)] + [op] + LineNodes(rest).value))
    decreases rest, 1
  {
    hide LineTokens, Feed, NodeTokens, LineNodes, LineOk, PairsOk, StateOk, Refused, Piped, Reading, OpenAt;
    FeedConcat(Reading(done, n), NodeTokens(op), LineTokens(rest));
    FeedOp(done, n, op);
    if !Refused(n, op) {
      var done' := done + [Piped(n, op)] + [op];
      BeginPairs(done');
      FeedLine(done', rest);
      if LineNodes(rest).Some? {
        OpenAfter(done, [Piped(n, op)] + [op], LineNodes(rest).value);
        ConcatAssoc(done, [Piped(n, op)], [op]);
      }
    }
  }

  /** Parsing a line, whatever the order of arguments and redirections. */
  lemma ParseLine(l: Line)
    requires LineOk(l)
    ensures ParseTokens(LineTokens(l)) == LineNodes(l)
  {
    FeedLine([], l);
    if LineNodes(l).Some? { LastOpen(LineNodes(l).value); }
  }

  lemma LastOpen(nodes: seq<Node>)
    requires nodes != []
    ensures Finish(OpenAt([], nodes)) == Some(nodes)
  {
    assert [] + nodes[..|nodes| - 1] + [nodes[|nodes| - 1]] == nodes;
  }

  function LastPart(l: Line): Part {
    if l.One? then l.part else LastPart(l.rest)
  }

  lemma {:induction false} LastKind(l: Line)
    requires LineOk(l) && LineNodes(l).Some?
    ensures var nodes := LineNodes(l).value; nodes != [] && (LastPart(l).Invoke? <==> nodes[|nodes| - 1].Command?)
    ensures LineNodes(l).value[|LineNodes(l).value| - 1].Command? || LineNodes(l).value[|LineNodes(l).value| - 1].Chdir?
  {
    if l.Joined? { LastKind(l.rest); }
  }

  /** A redirection operator at the end of a line, with no file after it, has no effect. */
  lemma ParseDangling(l: Line, op: string)
    requires LineOk(l) && LastPart(l).Invoke? && op in {">", "2>", "<"}
    ensures ParseTokens(LineTokens(l) + [op]) == LineNodes(l)
  {
    FeedLine([], l);
    FeedConcat(START, LineTokens(l), [op]);
    if LineNodes(l).Some? {
      var nodes := LineNodes(l).value;
      LastKind(l);
      LastOpen(nodes);
      hide LineTokens, LineNodes, LastPart, PairsOk;
      FeedOne(OpenAt([], nodes), op);
    }
  }

  /** After an operator, with no command yet. */
  lemma NothingOpen(done: seq<Node>, n: Node, op: Node, assigns: Env)
    requires StateOk(Reading(done, n)) && (n.Command? || n.Chdir?) && IsOp(op) && (n.Chdir? ==> op == And) && AssignsOk(assigns)
    ensures var st := Feed(Reading(done, n), NodeTokens(op) + EnvTokens(assigns)); st.Some? ==> st.value.current == None
  {
    hide PairsOk, NodeTokens, EnvTokens, StateOk, Refused, Piped, Feed, Reading, EnvOk;
    FeedConcat(Reading(done, n), NodeTokens(op), EnvTokens(assigns));
    FeedOp(done, n, op);
    if !Refused(n, op) {
      var done' := done + [Piped(n, op)] + [op];
      BeginPairs(done');
      assert EnvOk([]) by { EmptyEnvOk(); }
      FeedAssigns(done', [], assigns);
    }
  }

  lemma EmptyEnvOk()
    ensures EnvOk([])
  {
  }

  /** A line that breaks off after an operator, or after assignments, is refused; so is one without any command. */
  lemma ParseUnfinished(l: Line, op: Node, assigns: Env)
    requires LineOk(l) && IsOp(op) && (LastPart(l).ChangeDir? ==> op == And) && AssignsOk(assigns)
    ensures ParseTokens(LineTokens(l) + (NodeTokens(op) + EnvTokens(assigns))) == None
    ensures ParseTokens(EnvTokens(assigns)) == None
  {
    FeedLine([], l);
    FeedAssigns([], [], assigns);
    FeedConcat(START, LineTokens(l), NodeTokens(op) + EnvTokens(assigns));
    if LineNodes(l).Some? {
      var nodes := LineNodes(l).value;
      LastKind(l);
      hide LineTokens, LineNodes, LastPart, PairsOk, NodeTokens, EnvTokens, Feed;
      NothingOpen([] + nodes[..|nodes| - 1], nodes[|nodes| - 1], op, assigns);
    }
  }
}
