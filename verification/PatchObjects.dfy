/** The parser that builds line objects, and the pass that rewrites them in place. */
module PatchObjects {
  import opened Basics
  import opened PatchText

  // ----- Line objects ------------------------------------------------------------------------

  class PatchChunkLine {
    var kind: Kind
    var text: string

    constructor ()
      ensures View() == Line(Unset, "")
    {
      kind, text := Unset, "";
    }

    ghost function View(): Line
      reads this
    {
      Line(kind, text)
    }

    method SetSrc(line: string)
      modifies this
      ensures View() == Line(Src, line)
    {
      kind, text := Src, line;
    }

    method SetDst(line: string)
      modifies this
      ensures View() == Line(Dst, line)
    {
      kind, text := Dst, line;
    }

    method SetBoth(line: string)
      modifies this
      ensures View() == Line(Both, line)
    {
      kind, text := Both, line;
    }

    method AppendToLine(s: string)
      modifies this
      ensures View() == old(View()).(text := old(text) + s)
    {
      text := text + s;
    }
  }

  datatype ObjChunk = ObjChunk(srcPos: nat, dstPos: nat, lines: seq<PatchChunkLine>)

  datatype ObjPatch = ObjPatch(src: string, dst: string, chunks: seq<ObjChunk>)

  ghost function AllLines(ps: seq<ObjPatch>): set<PatchChunkLine> {
    set p, c, i | 0 <= p < |ps| && 0 <= c < |ps[p].chunks| && 0 <= i < |ps[p].chunks[c].lines| :: ps[p].chunks[c].lines[i]
  }

  /** The line objects hold these lines now. */
  ghost predicate LinesAre(objs: seq<PatchChunkLine>, lines: seq<Line>)
    reads objs
  {
    |objs| == |lines| && forall i :: 0 <= i < |objs| ==> objs[i].View() == lines[i]
  }

  ghost predicate ChunkIs(o: ObjChunk, c: Chunk)
    reads o.lines
  {
    o.srcPos == c.srcPos && o.dstPos == c.dstPos && LinesAre(o.lines, c.lines)
  }

  ghost predicate ChunksAre(os: seq<ObjChunk>, cs: seq<Chunk>)
    reads set c, i | 0 <= c < |os| && 0 <= i < |os[c].lines| :: os[c].lines[i]
  {
    |os| == |cs| && forall i :: 0 <= i < |os| ==> ChunkIs(os[i], cs[i])
  }

  ghost predicate PatchIs(o: ObjPatch, p: Patch)
    reads set c, i | 0 <= c < |o.chunks| && 0 <= i < |o.chunks[c].lines| :: o.chunks[c].lines[i]
  {
    o.src == p.src && o.dst == p.dst && ChunksAre(o.chunks, p.chunks)
  }

  /** The objects represent this patch set now. */
  ghost predicate Represents(os: seq<ObjPatch>, ps: seq<Patch>)
    reads AllLines(os)
  {
    |os| == |ps| && forall i :: 0 <= i < |os| ==> PatchIs(os[i], ps[i])
  }

  /** No line object is in two places. */
  ghost predicate Separate(ps: seq<ObjPatch>) {
    forall p, c, i, p', c', i' ::
      0 <= p < |ps| && 0 <= c < |ps[p].chunks| && 0 <= i < |ps[p].chunks[c].lines|
      && 0 <= p' < |ps| && 0 <= c' < |ps[p'].chunks| && 0 <= i' < |ps[p'].chunks[c'].lines|
      && ps[p].chunks[c].lines[i] == ps[p'].chunks[c'].lines[i']
      ==> p == p' && c == c' && i == i'
  }

  lemma InAllLines(ps: seq<ObjPatch>, p: nat, c: nat, i: nat)
    requires p < |ps| && c < |ps[p].chunks| && i < |ps[p].chunks[c].lines|
    ensures ps[p].chunks[c].lines[i] in AllLines(ps)
  {
  }

  // ----- The parser ----------------------------------------------------------------------------------

  /** Attach a line object at the end of a chunk. */
  function Attach(ps: seq<ObjPatch>, pi: nat, ci: nat, obj: PatchChunkLine): seq<ObjPatch>
    requires pi < |ps| && ci < |ps[pi].chunks|
  {
    var c := ps[pi].chunks[ci];
    ps[pi := ps[pi].(chunks := ps[pi].chunks[ci := c.(lines := c.lines + [obj])])]
  }

  lemma AttachRepresents(os: seq<ObjPatch>, ps: seq<Patch>, pi: nat, ci: nat, obj: PatchChunkLine, l: Line)
    requires Represents(os, ps) && pi < |os| && ci < |os[pi].chunks| && obj.View() == l
    ensures PatchIs(os[pi], ps[pi]) && ci < |ps[pi].chunks|
    ensures Represents(Attach(os, pi, ci, obj), AddToChunk(ps, pi, ci, l))
  {
  }

  lemma AttachSeparate(os: seq<ObjPatch>, pi: nat, ci: nat, obj: PatchChunkLine)
    requires Separate(os) && pi < |os| && ci < |os[pi].chunks| && obj !in AllLines(os)
    ensures Separate(Attach(os, pi, ci, obj)) && AllLines(Attach(os, pi, ci, obj)) == AllLines(os) + {obj}
  {
    var os' := Attach(os, pi, ci, obj);
    forall p, c, i | 0 <= p < |os'| && 0 <= c < |os'[p].chunks| && 0 <= i < |os'[p].chunks[c].lines|
      ensures os'[p].chunks[c].lines[i] == obj <==> p == pi && c == ci && i == |os[pi].chunks[ci].lines|
      ensures os'[p].chunks[c].lines[i] != obj ==> i < |os[p].chunks[c].lines| && os'[p].chunks[c].lines[i] == os[p].chunks[c].lines[i]
    {
      if i < |os[p].chunks[c].lines| { InAllLines(os, p, c, i); }
    }
    AttachLines(os, pi, ci, obj);
  }

  lemma AttachLines(os: seq<ObjPatch>, pi: nat, ci: nat, obj: PatchChunkLine)
    requires pi < |os| && ci < |os[pi].chunks|
    ensures AllLines(Attach(os, pi, ci, obj)) == AllLines(os) + {obj}
  {
    var os' := Attach(os, pi, ci, obj);
    forall l ensures l in AllLines(os') <==> l in AllLines(os) + {obj} {
      if l in AllLines(os') {
        var p, c, i :| 0 <= p < |os'| && 0 <= c < |os'[p].chunks| && 0 <= i < |os'[p].chunks[c].lines| && os'[p].chunks[c].lines[i] == l;
        if i < |os[p].chunks[c].lines| { InAllLines(os, p, c, i); }
      }
      if l in AllLines(os) {
        var p, c, i :| 0 <= p < |os| && 0 <= c < |os[p].chunks| && 0 <= i < |os[p].chunks[c].lines| && os[p].chunks[c].lines[i] == l;
        assert os'[p].chunks[c].lines[i] == l;
        InAllLines(os', p, c, i);
      }
      InAllLines(os', pi, ci, |os[pi].chunks[ci].lines|);
    }
  }

  /** Attach a new line object that holds `l`. */
  method AddLine(ps: seq<ObjPatch>, ghost view: seq<Patch>, pi: nat, ci: nat, l: Line) returns (ps': seq<ObjPatch>)
    requires Represents(ps, view) && Separate(ps) && pi < |ps| && ci < |ps[pi].chunks| && l.kind != Unset
    requires PatchIs(ps[pi], view[pi])
    ensures Represents(ps', AddToChunk(view, pi, ci, l)) && Separate(ps')
    ensures fresh(AllLines(ps') - AllLines(ps))
  {
    hide Represents, Separate, PatchIs;
    var obj := new PatchChunkLine();
    assert obj !in AllLines(ps);
    if l.kind == Src { obj.SetSrc(l.text); } else if l.kind == Dst { obj.SetDst(l.text); } else { obj.SetBoth(l.text); }
    ps' := Attach(ps, pi, ci, obj);
    AttachRepresents(ps, view, pi, ci, obj, l);
    AttachSeparate(ps, pi, ci, obj);
  }

  /** `os'` has the line objects of `os`, in the same places. */
  ghost predicate SameLines(os: seq<ObjPatch>, os': seq<ObjPatch>) {
    && |os| <= |os'|
    && (forall p :: 0 <= p < |os| ==> |os[p].chunks| <= |os'[p].chunks|)
    && (forall p, c :: 0 <= p < |os| && 0 <= c < |os[p].chunks| ==> os'[p].chunks[c].lines == os[p].chunks[c].lines)
    && (forall p, c :: 0 <= p < |os'| && 0 <= c < |os'[p].chunks| ==>
          (p < |os| && c < |os[p].chunks|) || os'[p].chunks[c].lines == [])
  }

  lemma SameLinesKeeps(os: seq<ObjPatch>, os': seq<ObjPatch>)
    requires SameLines(os, os') && Separate(os)
    ensures Separate(os') && AllLines(os') == AllLines(os)
  {
  }

  /** A file header line seen by the parser. */
  lemma HeaderRepresents(os: seq<ObjPatch>, ps: seq<Patch>, name: string)
    requires Represents(os, ps)
    ensures Represents(os + [ObjPatch(name, "", [])], ps + [Patch(name, "", [])])
    ensures SameLines(os, os + [ObjPatch(name, "", [])])
    ensures os != [] ==> var k := |os| - 1;
      Represents(os[k := os[k].(dst := name)], ps[k := ps[k].(dst := name)]) && SameLines(os, os[k := os[k].(dst := name)])
  {
    assert forall i :: 0 <= i < |os| ==> PatchIs(os[i], ps[i]);
    assert PatchIs(ObjPatch(name, "", []), Patch(name, "", []));
    if os != [] {
      var k := |os| - 1;
      assert PatchIs(os[k].(dst := name), ps[k].(dst := name));
    }
  }

  /** A chunk header line seen by the parser. */
  lemma ChunkRepresents(os: seq<ObjPatch>, ps: seq<Patch>, s: nat, d: nat)
    requires Represents(os, ps) && os != []
    ensures var k := |os| - 1;
      var os' := os[k := os[k].(chunks := os[k].chunks + [ObjChunk(s, d, [])])];
      var ps' := ps[k := ps[k].(chunks := ps[k].chunks + [Chunk(s, d, [])])];
      Represents(os', ps') && SameLines(os, os') && |os[k].chunks| == |ps[k].chunks|
  {
    var k := |os| - 1;
    assert forall i :: 0 <= i < |os| ==> PatchIs(os[i], ps[i]);
    assert ChunkIs(ObjChunk(s, d, []), Chunk(s, d, []));
    assert forall j :: 0 <= j < |os[k].chunks| ==> ChunkIs(os[k].chunks[j], ps[k].chunks[j]);
    assert ChunksAre(os[k].chunks + [ObjChunk(s, d, [])], ps[k].chunks + [Chunk(s, d, [])]);
  }

  lemma Shape(os: seq<ObjPatch>, ps: seq<Patch>)
    requires Represents(os, ps)
    ensures |os| == |ps| && forall i :: 0 <= i < |os| ==> PatchIs(os[i], ps[i]) && |os[i].chunks| == |ps[i].chunks|
  {
  }

  /** The body of the parser's loop; `ok` is false where the source raises. */
  method ConsumeLine(ps: seq<ObjPatch>, ghost view: seq<Patch>, current: Option<(nat, nat)>, line: string)
    returns (ok: bool, ps': seq<ObjPatch>, current': Option<(nat, nat)>)
    requires Represents(ps, view) && Separate(ps) && StateOk(PState(view, current))
    ensures ok <==> Advance(PState(view, current), line).Some?
    ensures ok ==> var st := Advance(PState(view, current), line).value;
      Represents(ps', st.patches) && current' == st.current
    ensures ok ==> Separate(ps') && fresh(AllLines(ps') - AllLines(ps))
  {
    hide Represents, Separate, AllLines, Classify, PatchIs, SameLines, StateOk;
    Shape(ps, view);
    ok, ps', current' := true, ps, current;
    match Classify(line) {
      case SrcFile(name) =>
        ps' := ps + [ObjPatch(name, "", [])];
        HeaderRepresents(ps, view, name);
        SameLinesKeeps(ps, ps');
      case DstFile(name) =>
        if ps == [] { return false, ps, current; }
        var k := |ps| - 1;
        ps' := ps[k := ps[k].(dst := name)];
        HeaderRepresents(ps, view, name);
        SameLinesKeeps(ps, ps');
      case ChunkStart(s, d) =>
        if ps == [] { return false, ps, current; }
        var k := |ps| - 1;
        current' := Some((k, |ps[k].chunks|));
        ps' := ps[k := ps[k].(chunks := ps[k].chunks + [ObjChunk(s, d, [])])];
        ChunkRepresents(ps, view, s, d);
        SameLinesKeeps(ps, ps');
      case Body(l) =>
        if current == None { return false, ps, current; }
        CurrentExists(view, current.value.0, current.value.1, line);
        ps' := AddLine(ps, view, current.value.0, current.value.1, l);
      case NoMatch =>
        return false, ps, current;
    }
  }

  lemma CurrentExists(view: seq<Patch>, pi: nat, ci: nat, line: string)
    requires StateOk(PState(view, Some((pi, ci))))
    ensures pi < |view| && ci < |view[pi].chunks|
    ensures Classify(line).Body? ==> Classify(line).line.kind != Unset
  {
  }

  method ParsePatchset(generator: seq<string>) returns (r: Option<seq<ObjPatch>>)
    ensures r == None <==> ParseLines(generator) == None
    ensures r.Some? ==> fresh(AllLines(r.value)) && Separate(r.value) && Represents(r.value, ParseLines(generator).value)
    // In terms of the lines: what each is read as, and how the headers divide them.
    ensures r.Some? <==> Accepted(Items(generator), false, false)
    ensures r.Some? ==> ParseLines(generator).value == Patches(Items(generator))
  {
    ParseLinesResult(generator);
    var patchset: seq<ObjPatch> := [];
    var currentChunk: Option<(nat, nat)> := None;
    ghost var view: seq<Patch> := [];
    assert Represents(patchset, view);
    hide Represents, Separate, Advance, Items, Accepted, Patches;
    for i := 0 to |generator|
      invariant fresh(AllLines(patchset)) && Separate(patchset) && Represents(patchset, view)
      invariant StateOk(PState(view, currentChunk))
      invariant Feed(PState([], None), generator) == Feed(PState(view, currentChunk), generator[i..])
    {
      var line := generator[i];
      assert generator[i..][0] == line && generator[i..][1..] == generator[i + 1..];
      ghost var st := PState(view, currentChunk);
      var ok;
      ok, patchset, currentChunk := ConsumeLine(patchset, view, currentChunk, line);
      if !ok { return None; }
      view := Advance(st, line).value.patches;
    }
    return Some(patchset);
  }
}
