/** Unified diffs: the line classifier, the parser on values, the printer, and the round trip between them. */
module PatchText {
  import opened Basics

  // ----- Patches as values --------------------------------------------------------------------

  /** `Unset` is the kind of a line object that no setter has touched. */
  datatype Kind = Unset | Src | Dst | Both

  datatype Line = Line(kind: Kind, text: string)

  datatype Chunk = Chunk(srcPos: nat, dstPos: nat, lines: seq<Line>)

  datatype Patch = Patch(src: string, dst: string, chunks: seq<Chunk>)

  predicate IsSrc(l: Line) { l.kind == Src || l.kind == Both }

  predicate IsDst(l: Line) { l.kind == Dst || l.kind == Both }

  function SrcSide(lines: seq<Line>): seq<Line> {
    if lines == [] then [] else SrcSide(lines[..|lines| - 1]) + if IsSrc(lines[|lines| - 1]) then [lines[|lines| - 1]] else []
  }

  function DstSide(lines: seq<Line>): seq<Line> {
    if lines == [] then [] else DstSide(lines[..|lines| - 1]) + if IsDst(lines[|lines| - 1]) then [lines[|lines| - 1]] else []
  }

  // ----- Numbers -----------------------------------------------------------------------------------

  predicate IsDigit(c: char) { '0' <= c <= '9' }

  function Decimal(n: nat): (s: string)
    ensures s != "" && forall i :: 0 <= i < |s| ==> IsDigit(s[i])
  {
    if n < 10 then [('0' as int + n) as char] else Decimal(n / 10) + [('0' as int + n % 10) as char]
  }

  function Value(digits: string): nat
    requires forall i :: 0 <= i < |digits| ==> IsDigit(digits[i])
  {
    if digits == "" then 0 else
    assert IsDigit(digits[|digits| - 1]);
    10 * Value(digits[..|digits| - 1]) + (digits[|digits| - 1] as int - '0' as int)
  }

  lemma {:induction false} ValueOfDecimal(n: nat)
    ensures Value(Decimal(n)) == n
  {
    if n >= 10 {
      ValueOfDecimal(n / 10);
      assert Decimal(n)[..|Decimal(n)| - 1] == Decimal(n / 10);
    } else {
      assert Decimal(n)[..0] == "";
    }
  }

  /** The longest prefix of digits. */
  function Digits(s: string): (n: nat)
    ensures n <= |s| && forall i :: 0 <= i < n ==> IsDigit(s[i])
  {
    if s != "" && IsDigit(s[0]) then 1 + Digits(s[1..]) else 0
  }

  lemma {:induction false} DigitsThen(d: string, rest: string)
    requires forall i :: 0 <= i < |d| ==> IsDigit(d[i])
    requires rest != "" && !IsDigit(rest[0])
    ensures Digits(d + rest) == |d|
  {
    if d == "" {
      assert d + rest == rest;
    } else {
      assert (d + rest)[1..] == d[1..] + rest;
      DigitsThen(d[1..], rest);
    }
  }

  // ----- Classifying one line ------------------------------------------------------------------------

  datatype Item =
    | SrcFile(name: string)
    | DstFile(name: string)
    | ChunkStart(srcPos: nat, dstPos: nat)
    | Body(line: Line)
    | NoMatch

  predicate StartsWith(s: string, prefix: string) { prefix <= s }

  /** `(.*)$` on the rest of a line: no newline, except that one may end it. */
  function RestOfLine(s: string): Option<string> {
    var r := if s != "" && s[|s| - 1] == '\n' then s[..|s| - 1] else s;
    if '\n' in r then None else Some(r)
  }

  /** One number followed by `after`: its value and what comes next. */
  function NumberThen(s: string, after: string): Option<(nat, string)> {
    var n := Digits(s);
    if n == 0 || !StartsWith(s[n..], after) then None else Some((Value(s[..n]), s[n + |after|..]))
  }

  const RANGE_START := "@@ -"

  /** The four numbers of a chunk header; the parser uses the first and the third. */
  function ParseRange(line: string): Option<(nat, nat, nat, nat)> {
    if !StartsWith(line, RANGE_START) then None else
    var a := NumberThen(line[|RANGE_START|..], ",");
    if a == None then None else
    var b := NumberThen(a.value.1, " +");
    if b == None then None else
    var c := NumberThen(b.value.1, ",");
    if c == None then None else
    var d := NumberThen(c.value.1, " @@");
    if d == None then None else Some((a.value.0, b.value.0, c.value.0, d.value.0))
  }

  /** The rest of the line after a prefix, when the whole line matches. */
  function After(line: string, prefix: string): Option<string> {
    if StartsWith(line, prefix) then RestOfLine(line[|prefix|..]) else None
  }

  /** The patterns are tried in this order. */
  function Classify(line: string): Item {
    if After(line, "--- ") != None then SrcFile(After(line, "--- ").value)
    else if After(line, "+++ ") != None then DstFile(After(line, "+++ ").value)
    else if ParseRange(line) != None then ChunkStart(ParseRange(line).value.0, ParseRange(line).value.2)
    else if After(line, "-") != None then Body(Line(Src, After(line, "-").value))
    else if After(line, "+") != None then Body(Line(Dst, After(line, "+").value))
    else if After(line, " ") != None then Body(Line(Both, After(line, " ").value))
    else NoMatch
  }

  // ----- The parser on values ----------------------------------------------------------------------------

  /** The patches so far and where the current chunk is; it may belong to an earlier patch than the last. */
  datatype PState = PState(patches: seq<Patch>, current: Option<(nat, nat)>)

  ghost predicate StateOk(st: PState) {
    st.current.Some? ==> st.current.value.0 < |st.patches| && st.current.value.1 < |st.patches[st.current.value.0].chunks|
  }

  function AddToChunk(patches: seq<Patch>, pi: nat, ci: nat, l: Line): seq<Patch>
    requires pi < |patches| && ci < |patches[pi].chunks|
  {
    var c := patches[pi].chunks[ci];
    patches[pi := patches[pi].(chunks := patches[pi].chunks[ci := c.(lines := c.lines + [l])])]
  }

  /** `None` is an exception. */
  function Advance(st: PState, line: string): (r: Option<PState>)
    requires StateOk(st)
    ensures r.Some? ==> StateOk(r.value)
  {
    match Classify(line)
    case SrcFile(name) => Some(st.(patches := st.patches + [Patch(name, "", [])]))
    case DstFile(name) =>
      if st.patches == [] then None else
      var k := |st.patches| - 1;
      Some(st.(patches := st.patches[k := st.patches[k].(dst := name)]))
    case ChunkStart(s, d) =>
      if st.patches == [] then None else
      var k := |st.patches| - 1;
      Some(PState(st.patches[k := st.patches[k].(chunks := st.patches[k].chunks + [Chunk(s, d, [])])],
                  Some((k, |st.patches[k].chunks|))))
    case Body(l) =>
      if st.current == None then None else
      Some(st.(patches := AddToChunk(st.patches, st.current.value.0, st.current.value.1, l)))
    case NoMatch => None
  }

  ghost function Feed(st: PState, lines: seq<string>): (r: Option<PState>)
    requires StateOk(st)
    ensures r.Some? ==> StateOk(r.value)
    decreases |lines|
  {
    if lines == [] then Some(st) else
    var next := Advance(st, lines[0]);
    if next == None then None else Feed(next.value, lines[1..])
  }

  ghost function ParseLines(lines: seq<string>): Option<seq<Patch>> {
    var r := Feed(PState([], None), lines);
    if r == None then None else Some(r.value.patches)
  }

  // ----- The printer ----------------------------------------------------------------------------------------

  /** The printed form of a line; `None` is the exception for an unset kind. */
  function Mark(kind: Kind): string {
    match kind
    case Unset => ""
    case Src => "-"
    case Dst => "+"
    case Both => " "
  }

  function LineText(l: Line): string { Mark(l.kind) + l.text + "\n" }

  function Range(c: Chunk): string {
    RANGE_START + (Decimal(c.srcPos) + ("," + (Decimal(|SrcSide(c.lines)|) + (" +" +
      (Decimal(c.dstPos) + ("," + (Decimal(|DstSide(c.lines)|) + " @@\n")))))))
  }

  function LinesText(lines: seq<Line>): seq<string> {
    if lines == [] then [] else [LineText(lines[0])] + LinesText(lines[1..])
  }

  function ChunkText(c: Chunk): seq<string> { [Range(c)] + LinesText(c.lines) }

  function ChunksText(cs: seq<Chunk>): seq<string> {
    if cs == [] then [] else ChunkText(cs[0]) + ChunksText(cs[1..])
  }

  function PatchLines(p: Patch): seq<string> {
    ["--- " + p.src + "\n"] + (["+++ " + p.dst + "\n"] + ChunksText(p.chunks))
  }

  /** The lines that `write` prints, one patch after another. */
  function Printed(ps: seq<Patch>): seq<string> {
    if ps == [] then [] else PatchLines(ps[0]) + Printed(ps[1..])
  }

  predicate OneLine(s: string) { '\n' !in s }

  /** What `write` can print as whole lines. */
  ghost predicate PrintableLine(l: Line) { l.kind != Unset && OneLine(l.text) }

  ghost predicate PrintableChunk(c: Chunk) { forall i :: 0 <= i < |c.lines| ==> PrintableLine(c.lines[i]) }

  ghost predicate PrintablePatch(p: Patch) {
    OneLine(p.src) && OneLine(p.dst) && forall i :: 0 <= i < |p.chunks| ==> PrintableChunk(p.chunks[i])
  }

  ghost predicate Printable(ps: seq<Patch>) {
    forall i :: 0 <= i < |ps| ==> PrintablePatch(ps[i])
  }

  /** Lines whose printed form reads as a file header. */
  predicate LooksLikeHeader(l: Line) {
    (l.kind == Src && StartsWith(l.text, "-- ")) || (l.kind == Dst && StartsWith(l.text, "++ "))
  }

  // ----- What the classifier makes of printed lines ---------------------------------------------------------------

  lemma AfterPrefix(prefix: string, text: string)
    requires OneLine(text)
    ensures After(prefix + text + "\n", prefix) == Some(text)
  {
    var line := prefix + text + "\n";
    assert line[|prefix|..] == text + "\n";
    assert (text + "\n")[..|text + "\n"| - 1] == text;
  }

  lemma ClassifySrcFile(name: string)
    requires OneLine(name)
    ensures Classify("--- " + name + "\n") == SrcFile(name)
  {
    AfterPrefix("--- ", name);
  }

  lemma ClassifyDstFile(name: string)
    requires OneLine(name)
    ensures Classify("+++ " + name + "\n") == DstFile(name)
  {
    AfterPrefix("+++ ", name);
    assert ("+++ " + name + "\n")[0] == '+';
  }

  lemma NumberThenPrinted(n: nat, after: string, rest: string)
    requires after != "" && !IsDigit(after[0])
    ensures NumberThen(Decimal(n) + (after + rest), after) == Some((n, rest))
  {
    var s := Decimal(n) + (after + rest);
    DigitsThen(Decimal(n), after + rest);
    ValueOfDecimal(n);
    assert s[..|Decimal(n)|] == Decimal(n);
    assert s[|Decimal(n)|..] == after + rest;
    assert s[|Decimal(n)| + |after|..] == rest;
  }

  lemma RangeParses(a: nat, b: nat, c: nat, d: nat)
    ensures ParseRange(RANGE_START + (Decimal(a) + ("," + (Decimal(b) + (" +" + (Decimal(c) + ("," + (Decimal(d) + " @@\n"))))))))
            == Some((a, b, c, d))
  {
    hide NumberThen, Decimal, Value, Digits;
    assert " @@" + "\n" == " @@\n";
    var t3 := Decimal(d) + (" @@" + "\n");
    var t2 := Decimal(c) + ("," + t3);
    var t1 := Decimal(b) + (" +" + t2);
    var t0 := Decimal(a) + ("," + t1);
    assert (RANGE_START + t0)[|RANGE_START|..] == t0;
    NumberThenPrinted(a, ",", t1);
    NumberThenPrinted(b, " +", t2);
    NumberThenPrinted(c, ",", t3);
    NumberThenPrinted(d, " @@", "\n");
  }

  lemma ClassifyRange(c: Chunk)
    ensures Classify(Range(c)) == ChunkStart(c.srcPos, c.dstPos)
  {
    hide ParseRange, Decimal;
    RangeParses(c.srcPos, |SrcSide(c.lines)|, c.dstPos, |DstSide(c.lines)|);
    assert Range(c)[0] == '@';
  }

  /** A printed body line is read back as itself, unless it looks like a file header. */
  lemma ClassifyLine(l: Line)
    requires PrintableLine(l) && !LooksLikeHeader(l)
    ensures Classify(LineText(l)) == Body(l)
  {
    hide RestOfLine;
    AfterPrefix(Mark(l.kind), l.text);
    assert LineText(l)[0] == Mark(l.kind)[0];
    NotHeader(l);
  }

  lemma PrefixOfTail(first: string, rest: string, text: string)
    requires '\n' !in rest
    ensures first + rest <= first + text + "\n" <==> rest <= text
  {
    var line := first + text + "\n";
    if first + rest <= line {
      assert forall i :: 0 <= i < |rest| ==> rest[i] == (first + rest)[|first| + i] == line[|first| + i];
      assert line[|first| + |text|] == '\n';
      assert forall i :: 0 <= i < |rest| ==> rest[i] == text[i];
    }
    if rest <= text {
      assert line == first + rest + (text[|rest|..] + "\n");
    }
  }

  lemma NotHeader(l: Line)
    requires PrintableLine(l) && !LooksLikeHeader(l)
    ensures l.kind == Src ==> !StartsWith(LineText(l), "--- ")
    ensures l.kind == Dst ==> !StartsWith(LineText(l), "+++ ")
  {
    PrefixOfTail("-", "-- ", l.text);
    PrefixOfTail("+", "++ ", l.text);
    assert "-" + "-- " == "--- " && "+" + "++ " == "+++ ";
  }

  lemma ClassifyFalseHeader(l: Line)
    requires PrintableLine(l) && LooksLikeHeader(l)
    ensures if l.kind == Src then Classify(LineText(l)).SrcFile? else Classify(LineText(l)).DstFile?
  {
    var prefix, tail := if l.kind == Src then "--- " else "+++ ", l.text[3..];
    assert l.text == (if l.kind == Src then "-- " else "++ ") + tail;
    assert OneLine(tail) by { assert forall c :: c in tail ==> c in l.text; }
    assert LineText(l) == prefix + tail + "\n";
    if l.kind == Src { ClassifySrcFile(tail); } else { ClassifyDstFile(tail); }
  }

  // ----- The round trip --------------------------------------------------------------------------------------------

  lemma {:induction false} FeedConcat(st: PState, a: seq<string>, b: seq<string>)
    requires StateOk(st)
    ensures Feed(st, a + b) == if Feed(st, a) == None then None else Feed(Feed(st, a).value, b)
    decreases |a|
  {
    if a == [] {
      assert a + b == b;
    } else {
      assert (a + b)[1..] == a[1..] + b;
      var next := Advance(st, a[0]);
      if next.Some? { FeedConcat(next.value, a[1..], b); }
    }
  }

  /** No line of the patch set prints as a file header. */
  ghost predicate NoFalseHeaders(ps: seq<Patch>) {
    forall p, c, l :: p in ps && c in p.chunks && l in c.lines ==> !LooksLikeHeader(l)
  }

  /** The last chunk of the last patch is the current one. */
  ghost function At(done: seq<Patch>, p: Patch, cs: seq<Chunk>, c: Chunk): PState {
    PState(done + [p.(chunks := cs + [c])], Some((|done|, |cs|)))
  }

  lemma AddAtEnd(done: seq<Patch>, p: Patch, cs: seq<Chunk>, c: Chunk, l: Line)
    ensures AddToChunk(At(done, p, cs, c).patches, |done|, |cs|, l) == At(done, p, cs, c.(lines := c.lines + [l])).patches
  {
    assert (cs + [c])[|cs| := c.(lines := c.lines + [l])] == cs + [c.(lines := c.lines + [l])];
  }

  lemma AdvanceLine(done: seq<Patch>, p: Patch, cs: seq<Chunk>, c: Chunk, l: Line)
    requires PrintableLine(l) && !LooksLikeHeader(l)
    ensures Advance(At(done, p, cs, c), LineText(l)) == Some(At(done, p, cs, c.(lines := c.lines + [l])))
  {
    hide Classify, LineText;
    ClassifyLine(l);
    AddAtEnd(done, p, cs, c, l);
  }

  lemma {:induction false} FeedLines(done: seq<Patch>, p: Patch, cs: seq<Chunk>, c: Chunk, lines: seq<Line>)
    requires forall i :: 0 <= i < |lines| ==> PrintableLine(lines[i]) && !LooksLikeHeader(lines[i])
    ensures Feed(At(done, p, cs, c), LinesText(lines)) == Some(At(done, p, cs, c.(lines := c.lines + lines)))
    decreases |lines|
  {
    hide PrintableLine, LooksLikeHeader, Advance, LineText;
    if lines == [] {
      assert c.lines + lines == c.lines;
    } else {
      var c' := c.(lines := c.lines + [lines[0]]);
      AdvanceLine(done, p, cs, c, lines[0]);
      FeedLines(done, p, cs, c', lines[1..]);
      assert c'.lines + lines[1..] == c.lines + lines;
      assert LinesText(lines)[1..] == LinesText(lines[1..]);
    }
  }

  lemma AdvanceRange(done: seq<Patch>, p: Patch, cs: seq<Chunk>, c: Chunk, current: Option<(nat, nat)>)
    requires StateOk(PState(done + [p.(chunks := cs)], current))
    ensures Advance(PState(done + [p.(chunks := cs)], current), Range(c)) == Some(At(done, p, cs, c.(lines := [])))
  {
    hide Classify, Range;
    ClassifyRange(c);
    var ps := done + [p.(chunks := cs)];
    assert ps[|done| := p.(chunks := cs + [c.(lines := [])])] == done + [p.(chunks := cs + [c.(lines := [])])];
  }

  ghost predicate ChunkReadable(c: Chunk) {
    forall i :: 0 <= i < |c.lines| ==> PrintableLine(c.lines[i]) && !LooksLikeHeader(c.lines[i])
  }

  lemma FeedChunk(done: seq<Patch>, p: Patch, cs: seq<Chunk>, c: Chunk, current: Option<(nat, nat)>)
    requires ChunkReadable(c) && StateOk(PState(done + [p.(chunks := cs)], current))
    ensures Feed(PState(done + [p.(chunks := cs)], current), ChunkText(c)) == Some(At(done, p, cs, c))
  {
    hide Advance, Range, PrintableLine, LooksLikeHeader;
    AdvanceRange(done, p, cs, c, current);
    FeedLines(done, p, cs, c.(lines := []), c.lines);
    assert [] + c.lines == c.lines;
    assert ChunkText(c)[1..] == LinesText(c.lines);
  }

  /** The chunks of a patch, read after those in `cs`. */
  lemma {:induction false} FeedChunks(done: seq<Patch>, p: Patch, cs: seq<Chunk>, rest: seq<Chunk>, current: Option<(nat, nat)>)
    returns (current': Option<(nat, nat)>)
    requires forall i :: 0 <= i < |rest| ==> ChunkReadable(rest[i])
    requires StateOk(PState(done + [p.(chunks := cs)], current))
    ensures Feed(PState(done + [p.(chunks := cs)], current), ChunksText(rest))
            == Some(PState(done + [p.(chunks := cs + rest)], current'))
    decreases |rest|
  {
    hide ChunkReadable, ChunkText, Advance;
    if rest == [] {
      assert cs + rest == cs;
      current' := current;
    } else {
      FeedChunk(done, p, cs, rest[0], current);
      hide Feed;
      FeedConcat(PState(done + [p.(chunks := cs)], current), ChunkText(rest[0]), ChunksText(rest[1..]));
      current' := FeedChunks(done, p, cs + [rest[0]], rest[1..], At(done, p, cs, rest[0]).current);
      assert cs + [rest[0]] + rest[1..] == cs + rest;
    }
  }

  lemma FeedPatch(done: seq<Patch>, p: Patch, current: Option<(nat, nat)>) returns (current': Option<(nat, nat)>)
    requires PrintablePatch(p) && forall i :: 0 <= i < |p.chunks| ==> ChunkReadable(p.chunks[i])
    requires StateOk(PState(done, current))
    ensures Feed(PState(done, current), PatchLines(p)) == Some(PState(done + [p], current'))
    ensures StateOk(PState(done + [p], current'))
  {
    var st := PState(done, current);
    var h0, h1 := "--- " + p.src + "\n", "+++ " + p.dst + "\n";
    ClassifySrcFile(p.src);
    ClassifyDstFile(p.dst);
    var p1 := Patch(p.src, p.dst, []);
    var st1 := PState(done + [Patch(p.src, "", [])], current);
    var st2 := PState(done + [p1], current);
    assert Advance(st, h0) == Some(st1);
    assert Advance(st1, h1) == Some(st2) by { assert st1.patches[|done| := p1] == st2.patches; }
    var tail := ChunksText(p.chunks);
    assert PatchLines(p)[1..] == [h1] + tail && ([h1] + tail)[1..] == tail;
    assert p1.(chunks := []) == p1 && [] + p.chunks == p.chunks;
    current' := FeedChunks(done, p1, [], p.chunks, current);
  }

  ghost predicate PatchReadable(p: Patch) {
    PrintablePatch(p) && forall i :: 0 <= i < |p.chunks| ==> ChunkReadable(p.chunks[i])
  }

  lemma AllReadable(ps: seq<Patch>)
    requires Printable(ps) && NoFalseHeaders(ps)
    ensures forall k :: 0 <= k < |ps| ==> PatchReadable(ps[k])
  {
  }

  lemma {:induction false} FeedPatches(done: seq<Patch>, ps: seq<Patch>, current: Option<(nat, nat)>)
    requires (forall k :: 0 <= k < |ps| ==> PatchReadable(ps[k])) && StateOk(PState(done, current))
    ensures var r := Feed(PState(done, current), Printed(ps));
      r.Some? && r.value.patches == done + ps
    decreases |ps|
  {
    hide PrintablePatch, ChunkReadable, PatchLines, Advance;
    if ps == [] {
      assert done + ps == done;
    } else {
      var current' := FeedPatch(done, ps[0], current);
      hide Feed, StateOk;
      FeedConcat(PState(done, current), PatchLines(ps[0]), Printed(ps[1..]));
      FeedPatches(done + [ps[0]], ps[1..], current');
      assert done + [ps[0]] + ps[1..] == done + ps;
    }
  }

  // ----- Counting: what a false header costs ----------------------------------------------------------------------

  ghost function FileHeaders(lines: seq<string>): nat {
    if lines == [] then 0 else (if Classify(lines[0]).SrcFile? then 1 else 0) + FileHeaders(lines[1..])
  }

  ghost function BodyLines(lines: seq<string>): nat {
    if lines == [] then 0 else (if Classify(lines[0]).Body? then 1 else 0) + BodyLines(lines[1..])
  }

  ghost function LinesIn(cs: seq<Chunk>): nat {
    if cs == [] then 0 else |cs[0].lines| + LinesIn(cs[1..])
  }

  ghost function TotalLines(ps: seq<Patch>): nat {
    if ps == [] then 0 else LinesIn(ps[0].chunks) + TotalLines(ps[1..])
  }

  lemma {:induction false} LinesInUpdate(cs: seq<Chunk>, i: nat, c: Chunk)
    requires i < |cs|
    ensures LinesIn(cs[i := c]) + |cs[i].lines| == LinesIn(cs) + |c.lines|
  {
    if i == 0 {
      assert cs[0 := c][1..] == cs[1..];
    } else {
      assert cs[i := c][1..] == cs[1..][i - 1 := c];
      LinesInUpdate(cs[1..], i - 1, c);
    }
  }

  lemma {:induction false} TotalLinesUpdate(ps: seq<Patch>, i: nat, p: Patch)
    requires i < |ps|
    ensures TotalLines(ps[i := p]) + LinesIn(ps[i].chunks) == TotalLines(ps) + LinesIn(p.chunks)
  {
    if i == 0 {
      assert ps[0 := p][1..] == ps[1..];
    } else {
      assert ps[i := p][1..] == ps[1..][i - 1 := p];
      TotalLinesUpdate(ps[1..], i - 1, p);
    }
  }

  lemma {:induction false} LinesInConcat(a: seq<Chunk>, b: seq<Chunk>)
    ensures LinesIn(a + b) == LinesIn(a) + LinesIn(b)
  {
    if a == [] {
      assert a + b == b;
    } else {
      assert (a + b)[1..] == a[1..] + b;
      LinesInConcat(a[1..], b);
    }
  }

  lemma {:induction false} TotalLinesConcat(a: seq<Patch>, b: seq<Patch>)
    ensures TotalLines(a + b) == TotalLines(a) + TotalLines(b)
  {
    if a == [] {
      assert a + b == b;
    } else {
      assert (a + b)[1..] == a[1..] + b;
      TotalLinesConcat(a[1..], b);
    }
  }

  lemma AdvanceCounts(st: PState, line: string)
    requires StateOk(st) && Advance(st, line).Some?
    ensures var ps := Advance(st, line).value.patches;
      && |ps| == |st.patches| + (if Classify(line).SrcFile? then 1 else 0)
      && TotalLines(ps) == TotalLines(st.patches) + (if Classify(line).Body? then 1 else 0)
  {
    match Classify(line)
    case SrcFile(name) =>
      TotalLinesConcat(st.patches, [Patch(name, "", [])]);
    case DstFile(name) =>
      var k := |st.patches| - 1;
      TotalLinesUpdate(st.patches, k, st.patches[k].(dst := name));
    case ChunkStart(s, d) =>
      var k := |st.patches| - 1;
      var p := st.patches[k].(chunks := st.patches[k].chunks + [Chunk(s, d, [])]);
      LinesInConcat(st.patches[k].chunks, [Chunk(s, d, [])]);
      TotalLinesUpdate(st.patches, k, p);
    case Body(l) =>
      var (pi, ci) := st.current.value;
      var c := st.patches[pi].chunks[ci];
      var c' := c.(lines := c.lines + [l]);
      LinesInUpdate(st.patches[pi].chunks, ci, c');
      TotalLinesUpdate(st.patches, pi, st.patches[pi].(chunks := st.patches[pi].chunks[ci := c']));
    case NoMatch =>
  }

  /** The parser makes one patch of every file header and keeps every body line. */
  lemma {:induction false} FeedCounts(st: PState, lines: seq<string>)
    requires StateOk(st) && Feed(st, lines).Some?
    ensures var ps := Feed(st, lines).value.patches;
      |ps| == |st.patches| + FileHeaders(lines) && TotalLines(ps) == TotalLines(st.patches) + BodyLines(lines)
    decreases |lines|
  {
    if lines != [] {
      AdvanceCounts(st, lines[0]);
      FeedCounts(Advance(st, lines[0]).value, lines[1..]);
    }
  }

  lemma {:induction false} CountsConcat(a: seq<string>, b: seq<string>)
    ensures FileHeaders(a + b) == FileHeaders(a) + FileHeaders(b) && BodyLines(a + b) == BodyLines(a) + BodyLines(b)
  {
    if a == [] {
      assert a + b == b;
    } else {
      assert (a + b)[1..] == a[1..] + b;
      CountsConcat(a[1..], b);
    }
  }

  ghost predicate HasFalse(lines: seq<Line>) { exists i :: 0 <= i < |lines| && LooksLikeHeader(lines[i]) }

  lemma {:induction false} LinesCounts(lines: seq<Line>)
    requires forall i :: 0 <= i < |lines| ==> PrintableLine(lines[i])
    ensures BodyLines(LinesText(lines)) <= |lines|
    ensures HasFalse(lines) ==> BodyLines(LinesText(lines)) < |lines|
  {
    if lines != [] {
      LinesCounts(lines[1..]);
      assert LinesText(lines)[1..] == LinesText(lines[1..]);
      if LooksLikeHeader(lines[0]) {
        ClassifyFalseHeader(lines[0]);
      } else {
        ClassifyLine(lines[0]);
        if i :| 0 <= i < |lines| && LooksLikeHeader(lines[i]) { assert LooksLikeHeader(lines[1..][i - 1]); }
      }
    }
  }

  ghost predicate ChunksHaveFalse(cs: seq<Chunk>) { exists i :: 0 <= i < |cs| && HasFalse(cs[i].lines) }

  lemma {:induction false} ChunksCounts(cs: seq<Chunk>)
    requires forall i :: 0 <= i < |cs| ==> PrintableChunk(cs[i])
    ensures BodyLines(ChunksText(cs)) <= LinesIn(cs)
    ensures ChunksHaveFalse(cs) ==> BodyLines(ChunksText(cs)) < LinesIn(cs)
  {
    if cs != [] {
      ChunksCounts(cs[1..]);
      ClassifyRange(cs[0]);
      LinesCounts(cs[0].lines);
      assert ChunkText(cs[0])[1..] == LinesText(cs[0].lines);
      CountsConcat(ChunkText(cs[0]), ChunksText(cs[1..]));
      if i :| 0 <= i < |cs| && HasFalse(cs[i].lines) {
        if i > 0 { assert HasFalse(cs[1..][i - 1].lines); }
      }
    }
  }

  ghost predicate PatchesHaveFalse(ps: seq<Patch>) { exists i :: 0 <= i < |ps| && ChunksHaveFalse(ps[i].chunks) }

  lemma {:induction false} PatchesCounts(ps: seq<Patch>)
    requires Printable(ps)
    ensures BodyLines(Printed(ps)) <= TotalLines(ps)
    ensures PatchesHaveFalse(ps) ==> BodyLines(Printed(ps)) < TotalLines(ps)
  {
    if ps != [] {
      var p := ps[0];
      assert PrintablePatch(p);
      PatchesCounts(ps[1..]);
      ClassifySrcFile(p.src);
      ClassifyDstFile(p.dst);
      ChunksCounts(p.chunks);
      assert PatchLines(p)[1..][1..] == ChunksText(p.chunks);
      CountsConcat(PatchLines(p), Printed(ps[1..]));
      if i :| 0 <= i < |ps| && ChunksHaveFalse(ps[i].chunks) {
        if i > 0 { assert ChunksHaveFalse(ps[1..][i - 1].chunks); }
      }
    }
  }

  /** Printing and parsing gives the patch set back exactly when no body line prints as a file header. */
  lemma RoundTrip(ps: seq<Patch>)
    requires Printable(ps)
    ensures ParseLines(Printed(ps)) == Some(ps) <==> NoFalseHeaders(ps)
  {
    if NoFalseHeaders(ps) {
      AllReadable(ps);
      FeedPatches([], ps, None);
      assert [] + ps == ps;
    } else {
      var p, c, l :| p in ps && c in p.chunks && l in c.lines && LooksLikeHeader(l);
      assert HasFalse(c.lines) && ChunksHaveFalse(p.chunks) && PatchesHaveFalse(ps);
      PatchesCounts(ps);
      if ParseLines(Printed(ps)) == Some(ps) {
        FeedCounts(PState([], None), Printed(ps));
      }
    }
  }

  // ----- Header counts and text ------------------------------------------------------------------------------------

  /** How many printed lines start with `mark`. */
  function Marked(lines: seq<string>, mark: char): nat {
    if lines == [] then 0 else
    Marked(lines[..|lines| - 1], mark) + if lines[|lines| - 1] != "" && lines[|lines| - 1][0] == mark then 1 else 0
  }

  lemma {:induction false} LinesTextSnoc(lines: seq<Line>, l: Line)
    ensures LinesText(lines + [l]) == LinesText(lines) + [LineText(l)]
  {
    if lines == [] {
      assert LinesText([l]) == [LineText(l)] + LinesText([]);
    } else {
      assert (lines + [l])[1..] == lines[1..] + [l];
      LinesTextSnoc(lines[1..], l);
    }
  }

  lemma MarkedSnoc(lines: seq<string>, line: string, mark: char)
    ensures Marked(lines + [line], mark) == Marked(lines, mark) + if line != "" && line[0] == mark then 1 else 0
  {
  }

  lemma {:induction false} SidesAreMarked(lines: seq<Line>)
    requires forall i :: 0 <= i < |lines| ==> PrintableLine(lines[i])
    ensures |SrcSide(lines)| == Marked(LinesText(lines), '-') + Marked(LinesText(lines), ' ')
    ensures |DstSide(lines)| == Marked(LinesText(lines), '+') + Marked(LinesText(lines), ' ')
  {
    if lines != [] {
      var front, l := lines[..|lines| - 1], lines[|lines| - 1];
      SidesAreMarked(front);
      LinesTextSnoc(front, l);
      assert front + [l] == lines && LineText(l)[0] == Mark(l.kind)[0];
      hide LinesText, Marked, LineText;
      MarkedSnoc(LinesText(front), LineText(l), '-');
      MarkedSnoc(LinesText(front), LineText(l), '+');
      MarkedSnoc(LinesText(front), LineText(l), ' ');
    }
  }

  /** The two counts of a printed chunk header are the numbers of source and destination lines printed below it. */
  lemma HeaderCountsMatch(c: Chunk)
    requires PrintableChunk(c)
    ensures var body := LinesText(c.lines);
      ParseRange(Range(c)) == Some((c.srcPos, Marked(body, '-') + Marked(body, ' '), c.dstPos, Marked(body, '+') + Marked(body, ' ')))
  {
    SidesAreMarked(c.lines);
    hide ParseRange, Decimal, Marked;
    RangeParses(c.srcPos, |SrcSide(c.lines)|, c.dstPos, |DstSide(c.lines)|);
  }

  function Join(lines: seq<string>): string {
    if lines == [] then "" else lines[0] + Join(lines[1..])
  }

  /** Reading a file line by line: each line with the newline that ends it. */
  function SplitLines(text: string): seq<string>
    decreases |text|
  {
    if text == "" then [] else
    var n := FirstLine(text);
    [text[..n]] + SplitLines(text[n..])
  }

  function FirstLine(text: string): (n: nat)
    requires text != ""
    ensures 0 < n <= |text|
  {
    if text[0] == '\n' || |text| == 1 then 1 else 1 + FirstLine(text[1..])
  }

  ghost predicate Terminated(line: string) {
    line != "" && line[|line| - 1] == '\n' && OneLine(line[..|line| - 1])
  }

  lemma OneLineSuffix(s: string)
    requires s != "" && OneLine(s)
    ensures OneLine(s[1..])
  {
  }

  lemma {:induction false} FirstLineOf(line: string, rest: string)
    requires Terminated(line)
    ensures FirstLine(line + rest) == |line|
  {
    if |line| > 1 {
      assert line[0] in line[..|line| - 1];
      assert (line + rest)[1..] == line[1..] + rest;
      assert line[1..][..|line[1..]| - 1] == line[..|line| - 1][1..];
      OneLineSuffix(line[..|line| - 1]);
      FirstLineOf(line[1..], rest);
    }
  }

  lemma {:induction false} SplitJoined(lines: seq<string>)
    requires forall i :: 0 <= i < |lines| ==> Terminated(lines[i])
    ensures SplitLines(Join(lines)) == lines
  {
    if lines != [] {
      FirstLineOf(lines[0], Join(lines[1..]));
      SplitJoined(lines[1..]);
      var text := Join(lines);
      assert text[..|lines[0]|] == lines[0] && text[|lines[0]|..] == Join(lines[1..]);
    }
  }

  lemma TerminatedLine(prefix: string, text: string)
    requires OneLine(prefix) && OneLine(text)
    ensures Terminated(prefix + text + "\n")
  {
  }

  lemma TerminatedRange(c: Chunk)
    ensures Terminated(Range(c))
  {
  }

  lemma {:induction false} LinesTerminated(lines: seq<Line>)
    requires forall i :: 0 <= i < |lines| ==> PrintableLine(lines[i])
    ensures forall i :: 0 <= i < |LinesText(lines)| ==> Terminated(LinesText(lines)[i])
  {
    if lines != [] {
      TerminatedLine(Mark(lines[0].kind), lines[0].text);
      LinesTerminated(lines[1..]);
    }
  }

  lemma {:induction false} ChunksTerminated(cs: seq<Chunk>)
    requires forall i :: 0 <= i < |cs| ==> PrintableChunk(cs[i])
    ensures forall i :: 0 <= i < |ChunksText(cs)| ==> Terminated(ChunksText(cs)[i])
  {
    if cs != [] {
      TerminatedRange(cs[0]);
      assert PrintableChunk(cs[0]);
      LinesTerminated(cs[0].lines);
      ChunksTerminated(cs[1..]);
    }
  }

  lemma {:induction false} PrintedTerminated(ps: seq<Patch>)
    requires Printable(ps)
    ensures forall i :: 0 <= i < |Printed(ps)| ==> Terminated(Printed(ps)[i])
  {
    if ps != [] {
      assert PrintablePatch(ps[0]);
      TerminatedLine("--- ", ps[0].src);
      TerminatedLine("+++ ", ps[0].dst);
      ChunksTerminated(ps[0].chunks);
      PrintedTerminated(ps[1..]);
    }
  }

  /** The same through a text: what `write` prints is cut at its newlines. */
  lemma RoundTripThroughText(ps: seq<Patch>)
    requires Printable(ps)
    ensures ParseLines(SplitLines(Join(Printed(ps)))) == Some(ps) <==> NoFalseHeaders(ps)
  {
    PrintedTerminated(ps);
    SplitJoined(Printed(ps));
    RoundTrip(ps);
  }

  // ----- What every line is read as -----------------------------------------------------------------------------------

  ghost predicate IsNumber(d: string) { d != "" && forall i :: 0 <= i < |d| ==> IsDigit(d[i]) }

  /** A chunk header with these four numbers, and anything after the second pair of at signs. */
  ghost predicate IsRange(line: string, a: string, b: string, c: string, d: string, rest: string) {
    && IsNumber(a) && IsNumber(b) && IsNumber(c) && IsNumber(d)
    && line == "@@ -" + (a + ("," + (b + (" +" + (c + ("," + (d + (" @@" + rest))))))))
  }

  lemma NumberThenReads(d: string, after: string, rest: string)
    requires IsNumber(d) && after != "" && !IsDigit(after[0])
    ensures NumberThen(d + (after + rest), after) == Some((Value(d), rest))
  {
    hide Value;
    var s := d + (after + rest);
    DigitsThen(d, after + rest);
    assert s[..|d|] == d && s[|d|..] == after + rest && s[|d| + |after|..] == rest;
  }

  lemma NumberThenOnly(s: string, after: string) returns (d: string)
    requires NumberThen(s, after).Some?
    ensures IsNumber(d) && NumberThen(s, after).value.0 == Value(d)
    ensures s == d + (after + NumberThen(s, after).value.1)
  {
    var n := Digits(s);
    d := s[..n];
    assert s[n..] == after + s[n + |after|..];
  }

  lemma RangeReads(line: string, a: string, b: string, c: string, d: string, rest: string)
    requires IsRange(line, a, b, c, d, rest)
    ensures ParseRange(line) == Some((Value(a), Value(b), Value(c), Value(d)))
  {
    hide NumberThen, Value, Digits, IsNumber;
    var t3 := d + (" @@" + rest);
    var t2 := c + ("," + t3);
    var t1 := b + (" +" + t2);
    var t0 := a + ("," + t1);
    assert line[|RANGE_START|..] == t0;
    NumberThenReads(a, ",", t1);
    NumberThenReads(b, " +", t2);
    NumberThenReads(c, ",", t3);
    NumberThenReads(d, " @@", rest);
  }

  lemma RangeOnly(line: string) returns (a: string, b: string, c: string, d: string, rest: string)
    requires ParseRange(line).Some?
    ensures IsRange(line, a, b, c, d, rest) && ParseRange(line).value == (Value(a), Value(b), Value(c), Value(d))
  {
    hide NumberThen, Value, Digits, IsNumber;
    var s0 := line[|RANGE_START|..];
    assert line == RANGE_START + s0;
    a := NumberThenOnly(s0, ",");
    var s1 := NumberThen(s0, ",").value.1;
    b := NumberThenOnly(s1, " +");
    var s2 := NumberThen(s1, " +").value.1;
    c := NumberThenOnly(s2, ",");
    var s3 := NumberThen(s2, ",").value.1;
    d := NumberThenOnly(s3, " @@");
    rest := NumberThen(s3, " @@").value.1;
  }

  /** What a line, without the newline that may end it, is read as. */
  ghost predicate ReadsAs(t: string, item: Item) {
    match item
    case SrcFile(name) => t == "--- " + name
    case DstFile(name) => t == "+++ " + name
    case ChunkStart(s, d) => exists a, b, c, e, rest :: IsRange(t, a, b, c, e, rest) && s == Value(a) && d == Value(c)
    case Body(l) =>
      (match l.kind {
        case Src => t == "-" + l.text && !("-- " <= l.text)
        case Dst => t == "+" + l.text && !("++ " <= l.text)
        case Both => t == " " + l.text
        case Unset => false
      })
    case NoMatch => (t == "" || t[0] !in {'-', '+', ' '}) && forall a, b, c, e, rest :: !IsRange(t, a, b, c, e, rest)
  }

  lemma RestIs(t: string)
    requires OneLine(t)
    ensures RestOfLine(t) == Some(t) && RestOfLine(t + "\n") == Some(t)
  {
    assert (t + "\n")[..|t|] == t;
  }

  lemma PrefixOfLine(prefix: string, t: string)
    requires OneLine(prefix)
    ensures prefix <= t + "\n" <==> prefix <= t
  {
    if prefix <= t + "\n" {
      assert (t + "\n")[|t|] == '\n' && (|prefix| == |t| + 1 ==> '\n' in prefix);
      assert forall i :: 0 <= i < |prefix| ==> prefix[i] == (t + "\n")[i] == t[i];
    }
    if prefix <= t { assert t + "\n" == prefix + (t[|prefix|..] + "\n"); }
  }

  lemma AfterIs(t: string, prefix: string)
    requires OneLine(t) && OneLine(prefix)
    ensures After(t, prefix) == if prefix <= t then Some(t[|prefix|..]) else None
    ensures After(t + "\n", prefix) == After(t, prefix)
  {
    hide RestOfLine;
    PrefixOfLine(prefix, t);
    if prefix <= t {
      var rest := t[|prefix|..];
      assert t == prefix + rest && t + "\n" == prefix + (rest + "\n") && (t + "\n")[|prefix|..] == rest + "\n";
      assert OneLine(rest) by { assert forall c :: c in rest ==> c in t; }
      RestIs(rest);
    }
  }

  lemma RangeNewline(t: string)
    ensures ParseRange(t).Some? <==> ParseRange(t + "\n").Some?
    ensures ParseRange(t).Some? ==> ParseRange(t + "\n") == ParseRange(t)
  {
    hide ParseRange, Value, IsNumber;
    if ParseRange(t).Some? {
      var a, b, c, d, rest := RangeOnly(t);
      AppendToRange(t, a, b, c, d, rest, "\n");
      RangeReads(t + "\n", a, b, c, d, rest + "\n");
    } else if ParseRange(t + "\n").Some? {
      var a, b, c, d, rest := RangeOnly(t + "\n");
      CutRange(t, a, b, c, d, rest);
      RangeReads(t, a, b, c, d, rest[..|rest| - 1]);
    }
  }

  lemma AppendToRange(t: string, a: string, b: string, c: string, d: string, rest: string, more: string)
    requires IsRange(t, a, b, c, d, rest)
    ensures IsRange(t + more, a, b, c, d, rest + more)
  {
    hide IsNumber;
    var head := "@@ -" + (a + ("," + (b + (" +" + (c + ("," + (d + " @@")))))));
    HeadOfRange(a, b, c, d, rest);
    HeadOfRange(a, b, c, d, rest + more);
    assert head + rest + more == head + (rest + more);
  }

  lemma HeadOfRange(a: string, b: string, c: string, d: string, rest: string)
    ensures "@@ -" + (a + ("," + (b + (" +" + (c + ("," + (d + (" @@" + rest))))))))
            == "@@ -" + (a + ("," + (b + (" +" + (c + ("," + (d + " @@"))))))) + rest
  {
    var h3 := d + " @@";
    var h2 := c + ("," + h3);
    var h1 := b + (" +" + h2);
    var h0 := a + ("," + h1);
    assert d + (" @@" + rest) == h3 + rest;
    assert c + ("," + (h3 + rest)) == h2 + rest;
    assert b + (" +" + (h2 + rest)) == h1 + rest;
    assert a + ("," + (h1 + rest)) == h0 + rest;
  }

  lemma CutRange(t: string, a: string, b: string, c: string, d: string, rest: string)
    requires IsRange(t + "\n", a, b, c, d, rest)
    ensures rest != "" && IsRange(t, a, b, c, d, rest[..|rest| - 1])
  {
    hide IsNumber;
    var h3 := d + " @@";
    var h2 := c + ("," + h3);
    var h1 := b + (" +" + h2);
    var h0 := a + ("," + h1);
    var head := "@@ -" + h0;
    HeadOfRange(a, b, c, d, rest);
    assert t + "\n" == head + rest;
    assert head[|head| - 1] == h0[|h0| - 1] == h1[|h1| - 1] == h2[|h2| - 1] == h3[|h3| - 1] == '@';
    assert (t + "\n")[|t|] == '\n';
    assert rest != "";
    assert t == (head + rest)[..|t|] == head + rest[..|rest| - 1];
    HeadOfRange(a, b, c, d, rest[..|rest| - 1]);
  }

  /** A newline at the end of a line makes no difference. */
  lemma ClassifyNewline(t: string)
    requires OneLine(t)
    ensures Classify(t + "\n") == Classify(t)
  {
    hide After, ParseRange;
    AfterIs(t, "--- ");
    AfterIs(t, "+++ ");
    AfterIs(t, "-");
    AfterIs(t, "+");
    AfterIs(t, " ");
    RangeNewline(t);
  }

  lemma ReadsAsClassified(t: string)
    requires OneLine(t)
    ensures ReadsAs(t, Classify(t))
  {
    hide After, ParseRange, IsRange, Value;
    AfterIs(t, "--- ");
    AfterIs(t, "+++ ");
    AfterIs(t, "-");
    AfterIs(t, "+");
    AfterIs(t, " ");
    if ParseRange(t).Some? {
      var a, b, c, d, rest := RangeOnly(t);
    } else {
      forall a, b, c, d, rest ensures !IsRange(t, a, b, c, d, rest) {
        if IsRange(t, a, b, c, d, rest) { RangeReads(t, a, b, c, d, rest); }
      }
    }
    assert "--- " == "-" + "-- " && "+++ " == "+" + "++ ";
  }

  lemma RangeOfRead(t: string, s: nat, d: nat)
    requires ReadsAs(t, ChunkStart(s, d))
    ensures ParseRange(t).Some? && ParseRange(t).value.0 == s && ParseRange(t).value.2 == d && t != "" && t[0] == '@'
  {
    hide ParseRange, Value;
    var a, b, c, e, rest :| IsRange(t, a, b, c, e, rest) && s == Value(a) && d == Value(c);
    RangeReads(t, a, b, c, e, rest);
    RangeFirst(t, a, b, c, e, rest);
  }

  lemma BodyOfRead(t: string, l: Line)
    requires ReadsAs(t, Body(l))
    ensures t != "" && t[1..] == l.text && t[0] == (if l.kind == Src then '-' else if l.kind == Dst then '+' else ' ')
    ensures !("--- " <= t) && !("+++ " <= t) && l.kind != Unset
  {
    assert "--- " == "-" + "-- " && "+++ " == "+" + "++ ";
    PrefixOfRest("-", "-- ", l.text);
    PrefixOfRest("+", "++ ", l.text);
  }

  lemma ReadsAsOnly(t: string, item: Item)
    requires OneLine(t) && ReadsAs(t, item)
    ensures Classify(t) == item
  {
    hide After, ParseRange, IsRange, Value, ReadsAs;
    AfterIs(t, "--- ");
    AfterIs(t, "+++ ");
    AfterIs(t, "-");
    AfterIs(t, "+");
    AfterIs(t, " ");
    if ParseRange(t).Some? {
      var a, b, c, d, rest := RangeOnly(t);
      RangeFirst(t, a, b, c, d, rest);
    }
    match item {
      case SrcFile(name) => NamesOfRead(t, item);
      case DstFile(name) => NamesOfRead(t, item);
      case ChunkStart(s, d) => RangeOfRead(t, s, d);
      case Body(l) => BodyOfRead(t, l);
      case NoMatch => NothingRead(t);
    }
  }

  lemma NamesOfRead(t: string, item: Item)
    requires ReadsAs(t, item)
    ensures item.SrcFile? ==> "--- " <= t && t[4..] == item.name
    ensures item.DstFile? ==> "+++ " <= t && !("--- " <= t) && t[4..] == item.name
  {
    if item.DstFile? { assert t[0] == '+' && ("--- " <= t ==> t[0] == "--- "[0]); }
  }

  lemma NothingRead(t: string)
    requires ReadsAs(t, NoMatch)
    ensures (t == "" || t[0] !in {'-', '+', ' '}) && ParseRange(t) == None
  {
    hide ParseRange, IsRange;
    if ParseRange(t).Some? { var a, b, c, d, rest := RangeOnly(t); }
  }

  lemma PrefixOfRest(first: string, rest: string, text: string)
    ensures first + rest <= first + text <==> rest <= text
  {
    assert (first + text)[|first|..] == text && (first + rest)[|first|..] == rest;
    if first + rest <= first + text {
      assert forall i :: 0 <= i < |rest| ==> rest[i] == (first + rest)[|first| + i] == (first + text)[|first| + i] == text[i];
    }
    if rest <= text { assert first + text == first + rest + text[|rest|..]; }
  }

  lemma RangeFirst(t: string, a: string, b: string, c: string, d: string, rest: string)
    requires IsRange(t, a, b, c, d, rest)
    ensures t != "" && t[0] == '@'
  {
  }

  /** How every line is read, whether a newline ends it or not. */
  lemma ClassifyIff(t: string, item: Item)
    requires OneLine(t)
    ensures Classify(t) == item <==> ReadsAs(t, item)
    ensures Classify(t + "\n") == item <==> ReadsAs(t, item)
  {
    ClassifyNewline(t);
    ReadsAsClassified(t);
    if ReadsAs(t, item) { ReadsAsOnly(t, item); }
  }

  // ----- What a whole file is read as ------------------------------------------------------------------------------------

  ghost function Items(lines: seq<string>): seq<Item> {
    if lines == [] then [] else [Classify(lines[0])] + Items(lines[1..])
  }

  /** The body lines up to the next chunk header. */
  ghost function Bodies(items: seq<Item>): seq<Line> {
    if items == [] || items[0].ChunkStart? then [] else (if items[0].Body? then [items[0].line] else []) + Bodies(items[1..])
  }

  /** All chunks; a chunk ends where the next one starts, and not at a file header. */
  ghost function Chunks(items: seq<Item>): seq<Chunk> {
    if items == [] then [] else
    (if items[0].ChunkStart? then [Chunk(items[0].srcPos, items[0].dstPos, Bodies(items[1..]))] else []) + Chunks(items[1..])
  }

  /** How many chunk headers there are up to the next source-file header. */
  ghost function ChunksHere(items: seq<Item>): (n: nat)
    ensures n <= |Chunks(items)|
  {
    if items == [] || items[0].SrcFile? then 0 else (if items[0].ChunkStart? then 1 else 0) + ChunksHere(items[1..])
  }

  /** The last destination name up to the next source-file header; `name` when there is none. */
  ghost function DstHere(items: seq<Item>, name: string): string
    decreases |items|
  {
    if items == [] || items[0].SrcFile? then name else DstHere(items[1..], if items[0].DstFile? then items[0].name else name)
  }

  /** One patch for every source-file header. */
  ghost function Patches(items: seq<Item>): seq<Patch> {
    if items == [] then [] else
    var rest := items[1..];
    (if items[0].SrcFile? then [Patch(items[0].name, DstHere(rest, ""), Chunks(rest)[..ChunksHere(rest)])] else []) + Patches(rest)
  }

  /** Every line is understood, no header comes before the first source-file header and no body line before the first chunk. */
  ghost predicate Accepted(items: seq<Item>, hasPatch: bool, hasChunk: bool)
    decreases |items|
  {
    items == [] ||
    match items[0]
    case SrcFile(_) => Accepted(items[1..], true, hasChunk)
    case DstFile(_) => hasPatch && Accepted(items[1..], hasPatch, hasChunk)
    case ChunkStart(_, _) => hasPatch && Accepted(items[1..], hasPatch, true)
    case Body(_) => hasChunk && Accepted(items[1..], hasPatch, hasChunk)
    case NoMatch => false
  }

  ghost predicate IsChunk(ps: seq<Patch>, pi: nat, ci: nat) { pi < |ps| && ci < |ps[pi].chunks| }

  ghost function AddLines(ps: seq<Patch>, pi: nat, ci: nat, lines: seq<Line>): seq<Patch>
    requires IsChunk(ps, pi, ci)
  {
    var c := ps[pi].chunks[ci];
    ps[pi := ps[pi].(chunks := ps[pi].chunks[ci := c.(lines := c.lines + lines)])]
  }

  ghost function GrowLast(ps: seq<Patch>, dst: string, cs: seq<Chunk>): seq<Patch>
    requires ps != []
  {
    var p := ps[|ps| - 1];
    ps[|ps| - 1 := Patch(p.src, dst, p.chunks + cs)]
  }

  lemma AddNoLines(ps: seq<Patch>, pi: nat, ci: nat)
    requires IsChunk(ps, pi, ci)
    ensures AddLines(ps, pi, ci, []) == ps
  {
    var c := ps[pi].chunks[ci];
    assert c.lines + [] == c.lines;
    assert ps[pi].chunks[ci := c] == ps[pi].chunks;
  }

  lemma AddLinesTwice(ps: seq<Patch>, pi: nat, ci: nat, a: seq<Line>, b: seq<Line>)
    requires IsChunk(ps, pi, ci)
    ensures IsChunk(AddLines(ps, pi, ci, a), pi, ci)
    ensures AddLines(AddLines(ps, pi, ci, a), pi, ci, b) == AddLines(ps, pi, ci, a + b)
  {
    var c := ps[pi].chunks[ci];
    assert c.lines + a + b == c.lines + (a + b);
    var cs := ps[pi].chunks;
    assert cs[ci := c.(lines := c.lines + a)][ci := c.(lines := c.lines + (a + b))] == cs[ci := c.(lines := c.lines + (a + b))];
  }

  lemma AddLinesBefore(ps: seq<Patch>, pi: nat, ci: nat, lines: seq<Line>, p: Patch)
    requires IsChunk(ps, pi, ci)
    ensures IsChunk(ps + [p], pi, ci) && AddLines(ps + [p], pi, ci, lines) == AddLines(ps, pi, ci, lines) + [p]
  {
  }

  lemma AddLinesToNew(ps: seq<Patch>, dst: string, s: nat, d: nat, lines: seq<Line>)
    requires ps != []
    ensures var k := |ps| - 1;
      var ps' := GrowLast(ps, dst, [Chunk(s, d, [])]);
      IsChunk(ps', k, |ps[k].chunks|) && AddLines(ps', k, |ps[k].chunks|, lines) == GrowLast(ps, dst, [Chunk(s, d, lines)])
  {
    var cs := ps[|ps| - 1].chunks;
    assert [] + lines == lines;
    assert (cs + [Chunk(s, d, [])])[|cs| := Chunk(s, d, lines)] == cs + [Chunk(s, d, lines)];
  }

  lemma GrowNothing(ps: seq<Patch>)
    requires ps != []
    ensures GrowLast(ps, ps[|ps| - 1].dst, []) == ps
  {
    var p := ps[|ps| - 1];
    assert p.chunks + [] == p.chunks;
  }

  lemma GrowTwice(ps: seq<Patch>, dst: string, a: seq<Chunk>, dst': string, b: seq<Chunk>)
    requires ps != []
    ensures GrowLast(GrowLast(ps, dst, a), dst', b) == GrowLast(ps, dst', a + b)
  {
    var p := ps[|ps| - 1];
    assert p.chunks + a + b == p.chunks + (a + b);
  }

  lemma GrowAdded(ps: seq<Patch>, p: Patch, dst: string, cs: seq<Chunk>)
    ensures GrowLast(ps + [p], dst, cs) == ps + [Patch(p.src, dst, p.chunks + cs)]
  {
  }

  /** The new name of the last patch does not matter for its lines. */
  lemma AddAndRename(ps: seq<Patch>, pi: nat, ci: nat, lines: seq<Line>, name: string)
    requires IsChunk(ps, pi, ci)
    ensures IsChunk(GrowLast(ps, name, []), pi, ci)
    ensures AddLines(GrowLast(ps, name, []), pi, ci, lines) == GrowLast(AddLines(ps, pi, ci, lines), name, [])
  {
    var k := |ps| - 1;
    var p, q := ps[k], AddLines(ps, pi, ci, lines)[k];
    assert p.chunks + [] == p.chunks && q.chunks + [] == q.chunks;
  }

  /** The body lines still to come go to the current chunk ... */
  ghost function Filled(st: PState, items: seq<Item>): (r: seq<Patch>)
    requires StateOk(st)
    ensures |r| == |st.patches| && forall k :: 0 <= k < |r| ==> r[k].dst == st.patches[k].dst
  {
    if st.current == None then st.patches else AddLines(st.patches, st.current.value.0, st.current.value.1, Bodies(items))
  }

  /** ... and the names and chunks to the last patch. */
  ghost function Grown(ps: seq<Patch>, items: seq<Item>): seq<Patch> {
    if ps == [] then ps else GrowLast(ps, DstHere(items, ps[|ps| - 1].dst), Chunks(items)[..ChunksHere(items)])
  }

  lemma FilledBefore(st: PState, items: seq<Item>, p: Patch)
    requires StateOk(st) && items != [] && items[0].SrcFile?
    ensures StateOk(PState(st.patches + [p], st.current))
    ensures Filled(PState(st.patches + [p], st.current), items[1..]) == Filled(st, items) + [p]
  {
    hide AddLines;
    assert Bodies(items) == Bodies(items[1..]);
    if st.current.Some? { AddLinesBefore(st.patches, st.current.value.0, st.current.value.1, Bodies(items), p); }
  }

  lemma FilledRenamed(st: PState, items: seq<Item>, name: string)
    requires StateOk(st) && items != [] && items[0].DstFile? && st.patches != []
    ensures StateOk(st.(patches := GrowLast(st.patches, name, [])))
    ensures Filled(st.(patches := GrowLast(st.patches, name, [])), items[1..]) == GrowLast(Filled(st, items), name, [])
  {
    hide AddLines, GrowLast;
    assert Bodies(items) == Bodies(items[1..]);
    if st.current.Some? { AddAndRename(st.patches, st.current.value.0, st.current.value.1, Bodies(items), name); }
  }

  lemma GrowIs(ps: seq<Patch>, dst: string, cs: seq<Chunk>)
    requires ps != []
    ensures var k := |ps| - 1; GrowLast(ps, dst, cs) == ps[k := ps[k].(dst := dst, chunks := ps[k].chunks + cs)]
  {
  }

  lemma ReadSrcFile(st: PState, items: seq<Item>)
    requires StateOk(st) && items != [] && items[0].SrcFile?
    ensures var st' := PState(st.patches + [Patch(items[0].name, "", [])], st.current);
      StateOk(st') && Grown(Filled(st', items[1..]), items[1..]) + Patches(items[1..]) == Grown(Filled(st, items), items) + Patches(items)
  {
    var rest := items[1..];
    var p := Patch(items[0].name, "", []);
    var before, cs := Filled(st, items), Chunks(rest)[..ChunksHere(rest)];
    var full := Patch(items[0].name, DstHere(rest, ""), cs);
    FilledBefore(st, items, p);
    hide AddLines, Filled;
    GrowAdded(before, p, DstHere(rest, ""), cs);
    assert [] + cs == cs;
    assert Chunks(items)[..ChunksHere(items)] == [];
    if before != [] { GrowNothing(before); }
    hide GrowLast, Patches;
    PatchesOfHeader(items);
    ConcatAssoc(before, [full], Patches(rest));
  }

  lemma PatchesOfHeader(items: seq<Item>)
    requires items != [] && items[0].SrcFile?
    ensures var rest := items[1..];
      Patches(items) == [Patch(items[0].name, DstHere(rest, ""), Chunks(rest)[..ChunksHere(rest)])] + Patches(rest)
  {
  }

  lemma ReadDstFile(st: PState, items: seq<Item>)
    requires StateOk(st) && items != [] && items[0].DstFile? && st.patches != []
    ensures var k := |st.patches| - 1;
      var st' := st.(patches := st.patches[k := st.patches[k].(dst := items[0].name)]);
      StateOk(st') && Grown(Filled(st', items[1..]), items[1..]) == Grown(Filled(st, items), items)
  {
    var k, rest, name := |st.patches| - 1, items[1..], items[0].name;
    hide AddLines, Filled, GrowLast, StateOk;
    GrowIs(st.patches, name, []);
    assert st.patches[k].chunks + [] == st.patches[k].chunks;
    FilledRenamed(st, items, name);
    var now, cs := Filled(st, items), Chunks(rest)[..ChunksHere(rest)];
    assert Chunks(items) == Chunks(rest) && ChunksHere(items) == ChunksHere(rest);
    GrowIs(now, name, []);
    GrowTwice(now, name, [], DstHere(rest, name), cs);
    assert [] + cs == cs;
  }

  lemma FilledNewChunk(st: PState, items: seq<Item>)
    requires StateOk(st) && items != [] && items[0].ChunkStart? && st.patches != []
    ensures var k := |st.patches| - 1;
      var p, s, d := st.patches[k], items[0].srcPos, items[0].dstPos;
      var st' := PState(GrowLast(st.patches, p.dst, [Chunk(s, d, [])]), Some((k, |p.chunks|)));
      && StateOk(st') && Filled(st, items) == st.patches
      && Filled(st', items[1..]) == GrowLast(st.patches, p.dst, [Chunk(s, d, Bodies(items[1..]))])
  {
    hide AddLines, GrowLast;
    AddLinesToNew(st.patches, st.patches[|st.patches| - 1].dst, items[0].srcPos, items[0].dstPos, Bodies(items[1..]));
    if st.current.Some? { AddNoLines(st.patches, st.current.value.0, st.current.value.1); }
  }

  lemma ReadChunkStart(st: PState, items: seq<Item>)
    requires StateOk(st) && items != [] && items[0].ChunkStart? && st.patches != []
    ensures var k := |st.patches| - 1;
      var st' := PState(st.patches[k := st.patches[k].(chunks := st.patches[k].chunks + [Chunk(items[0].srcPos, items[0].dstPos, [])])],
                        Some((k, |st.patches[k].chunks|)));
      StateOk(st') && Grown(Filled(st', items[1..]), items[1..]) == Grown(Filled(st, items), items)
  {
    var k, rest := |st.patches| - 1, items[1..];
    var p := st.patches[k];
    var s, d, cs := items[0].srcPos, items[0].dstPos, Chunks(rest)[..ChunksHere(rest)];
    var full := Chunk(s, d, Bodies(rest));
    hide GrowLast, StateOk, Filled;
    GrowIs(st.patches, p.dst, [Chunk(s, d, [])]);
    GrowIs(st.patches, p.dst, [full]);
    FilledNewChunk(st, items);
    GrowTwice(st.patches, p.dst, [full], DstHere(rest, p.dst), cs);
    assert Chunks(items)[..ChunksHere(items)] == [full] + cs;
  }

  lemma ReadBody(st: PState, items: seq<Item>)
    requires StateOk(st) && items != [] && items[0].Body? && st.current.Some?
    ensures var st' := st.(patches := AddToChunk(st.patches, st.current.value.0, st.current.value.1, items[0].line));
      StateOk(st') && st'.patches != [] && st.patches != []
      && Grown(Filled(st', items[1..]), items[1..]) == Grown(Filled(st, items), items)
  {
    var (pi, ci) := st.current.value;
    AddLinesTwice(st.patches, pi, ci, [items[0].line], Bodies(items[1..]));
    assert AddToChunk(st.patches, pi, ci, items[0].line) == AddLines(st.patches, pi, ci, [items[0].line]);
    hide AddLines, GrowLast;
    assert Chunks(items) == Chunks(items[1..]) && ChunksHere(items) == ChunksHere(items[1..]);
  }

  lemma {:induction false} FeedItems(st: PState, lines: seq<string>)
    requires StateOk(st)
    ensures var r, items := Feed(st, lines), Items(lines);
      if Accepted(items, st.patches != [], st.current.Some?)
      then r.Some? && r.value.patches == Grown(Filled(st, items), items) + Patches(items)
      else r == None
    decreases |lines|
  {
    var items := Items(lines);
    hide Classify, StateOk, AddToChunk, Filled, Grown, Patches;
    if lines == [] {
      NoItems(st);
    } else {
      assert items[0] == Classify(lines[0]) && items[1..] == Items(lines[1..]);
      var next := Advance(st, lines[0]);
      if next.Some? {
        FeedItems(next.value, lines[1..]);
        match items[0] {
          case SrcFile(_) => ReadSrcFile(st, items);
          case DstFile(_) => ReadDstFile(st, items); NoHeader(items);
          case ChunkStart(_, _) => ReadChunkStart(st, items); NoHeader(items);
          case Body(_) => ReadBody(st, items); NoHeader(items);
          case NoMatch =>
        }
      }
    }
  }

  lemma NoHeader(items: seq<Item>)
    requires items != [] && !items[0].SrcFile?
    ensures Patches(items) == Patches(items[1..])
  {
  }

  lemma NoItems(st: PState)
    requires StateOk(st)
    ensures Grown(Filled(st, []), []) + Patches([]) == st.patches
  {
    if st.current.Some? { AddNoLines(st.patches, st.current.value.0, st.current.value.1); }
    if st.patches != [] { GrowNothing(st.patches); }
  }

  /** The parser, which moves a current patch and a current chunk along, reads every list of lines as its headers divide it. */
  lemma ParseLinesResult(lines: seq<string>)
    ensures ParseLines(lines) == if Accepted(Items(lines), false, false) then Some(Patches(Items(lines))) else None
  {
    FeedItems(PState([], None), lines);
    assert [] + Patches(Items(lines)) == Patches(Items(lines));
  }
}
