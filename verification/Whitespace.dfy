/** The pass that hides trailing-whitespace changes, on line objects shared by the two sides of a chunk. */
module Whitespace {
  import opened Basics
  import opened PatchText
  import opened PatchObjects

  // ----- The pass on values ------------------------------------------------------------------

  predicate IsBlank(c: char) { c == ' ' || c == '\t' }

  /** A text that ends in a blank splits into what is before the last blank, and that blank (the first group is greedy). */
  function TrailingBlank(text: string): Option<(string, string)> {
    if text != "" && IsBlank(text[|text| - 1]) then Some((text[..|text| - 1], text[|text| - 1..])) else None
  }

  /** Positions of the source (destination) lines in a chunk. */
  function SrcIndexes(lines: seq<Line>): (r: seq<nat>)
    ensures forall i :: 0 <= i < |r| ==> r[i] < |lines| && IsSrc(lines[r[i]])
    ensures forall i, j :: 0 <= i < j < |r| ==> r[i] < r[j]
  {
    if lines == [] then [] else
    SrcIndexes(lines[..|lines| - 1]) + if IsSrc(lines[|lines| - 1]) then [|lines| - 1] else []
  }

  function DstIndexes(lines: seq<Line>): (r: seq<nat>)
    ensures forall i :: 0 <= i < |r| ==> r[i] < |lines|
    ensures forall i, j :: 0 <= i < j < |r| ==> r[i] < r[j]
    ensures forall i :: 0 <= i < |r| ==> IsDst(lines[r[i]])
  {
    if lines == [] then [] else
    DstIndexes(lines[..|lines| - 1]) + if IsDst(lines[|lines| - 1]) then [|lines| - 1] else []
  }

  /** If the source line is the destination line plus a blank, the destination line gets that blank. */
  function Align(lines: seq<Line>, s: nat, d: nat): (r: seq<Line>)
    requires s < |lines| && d < |lines|
    ensures |r| == |lines|
  {
    var m := TrailingBlank(lines[s].text);
    if m != None && m.value.0 == lines[d].text then lines[d := lines[d].(text := lines[d].text + m.value.1)] else lines
  }

  /** Align the i-th source line with the i-th destination line for i, i + 1, ...; running out of destination
      lines ends the whole pass (`false`). */
  function AlignFrom(lines: seq<Line>, src: seq<nat>, dst: seq<nat>, i: nat): (r: (seq<Line>, bool))
    requires forall k :: 0 <= k < |src| ==> src[k] < |lines|
    requires forall k :: 0 <= k < |dst| ==> dst[k] < |lines|
    ensures |r.0| == |lines|
    decreases |src| - i
  {
    if i >= |src| then (lines, true)
    else if i >= |dst| then (lines, false)
    else AlignFrom(Align(lines, src[i], dst[i]), src, dst, i + 1)
  }

  function AlignChunk(c: Chunk): (Chunk, bool) {
    var (lines, complete) := AlignFrom(c.lines, SrcIndexes(c.lines), DstIndexes(c.lines), 0);
    (c.(lines := lines), complete)
  }

  function AlignChunks(cs: seq<Chunk>): (r: (seq<Chunk>, bool))
    ensures |r.0| == |cs|
  {
    if cs == [] then ([], true) else
    var (c, complete) := AlignChunk(cs[0]);
    if !complete then ([c] + cs[1..], false) else
    var (rest, ok) := AlignChunks(cs[1..]);
    ([c] + rest, ok)
  }

  function AlignPatches(ps: seq<Patch>): (r: seq<Patch>)
    ensures |r| == |ps|
  {
    if ps == [] then [] else
    var (cs, complete) := AlignChunks(ps[0].chunks);
    [ps[0].(chunks := cs)] + if complete then AlignPatches(ps[1..]) else ps[1..]
  }

  // ----- What the pass may change ------------------------------------------------------------------

  /** The same kind, and the same text or one blank more. */
  ghost predicate Extended(l: Line, l': Line) {
    l'.kind == l.kind && (l'.text == l.text || exists b :: IsBlank(b) && l'.text == l.text + [b])
  }

  ghost predicate AllExtended(lines: seq<Line>, lines': seq<Line>) {
    |lines'| == |lines| && forall i :: 0 <= i < |lines| ==> Extended(lines[i], lines'[i])
  }

  /** Only lines that are printed with `+` or a space ever change. */
  ghost predicate OnlyDstChanged(lines: seq<Line>, lines': seq<Line>)
    requires |lines'| == |lines|
  {
    forall i :: 0 <= i < |lines| && lines'[i] != lines[i] ==> IsDst(lines[i])
  }

  /** Where the pass has not been yet: from the i-th destination line on. */
  ghost function Frontier(lines: seq<Line>, dst: seq<nat>, i: nat): nat {
    if i < |dst| then dst[i] else |lines|
  }

  lemma AlignExtends(orig: seq<Line>, lines: seq<Line>, s: nat, d: nat)
    requires AllExtended(orig, lines) && OnlyDstChanged(orig, lines)
    requires s < |lines| && d < |lines| && lines[d] == orig[d] && IsDst(orig[d])
    ensures AllExtended(orig, Align(lines, s, d)) && OnlyDstChanged(orig, Align(lines, s, d))
    ensures forall k :: 0 <= k < |lines| && k != d ==> Align(lines, s, d)[k] == lines[k]
  {
  }

  /** Each destination line is visited once, so no line grows by more than one blank. */
  lemma {:induction false} AlignFromExtends(orig: seq<Line>, lines: seq<Line>, src: seq<nat>, dst: seq<nat>, i: nat)
    requires AllExtended(orig, lines) && OnlyDstChanged(orig, lines)
    requires (forall k :: 0 <= k < |src| ==> src[k] < |lines|) && dst == DstIndexes(orig)
    requires forall k :: Frontier(orig, dst, i) <= k < |lines| ==> lines[k] == orig[k]
    ensures AllExtended(orig, AlignFrom(lines, src, dst, i).0) && OnlyDstChanged(orig, AlignFrom(lines, src, dst, i).0)
    decreases |src| - i
  {
    if i < |src| && i < |dst| {
      AlignExtends(orig, lines, src[i], dst[i]);
      AlignFromExtends(orig, Align(lines, src[i], dst[i]), src, dst, i + 1);
    }
  }

  /** A line that is no destination line still to come is left alone. */
  lemma {:induction false} PassedStays(lines: seq<Line>, src: seq<nat>, dst: seq<nat>, i: nat, x: nat)
    requires forall k :: 0 <= k < |src| ==> src[k] < |lines|
    requires (forall k :: 0 <= k < |dst| ==> dst[k] < |lines|) && x < |lines|
    requires forall k :: i <= k < |dst| && k < |src| ==> dst[k] != x
    ensures AlignFrom(lines, src, dst, i).0[x] == lines[x]
    decreases |src| - i
  {
    if i < |src| && i < |dst| {
      PassedStays(Align(lines, src[i], dst[i]), src, dst, i + 1, x);
    }
  }

  /** The text of a destination line opposite a source line: one that only lacks the last blank of that gets it. */
  function Aligned(src: string, dst: string): string {
    if |src| == |dst| + 1 && dst <= src && IsBlank(src[|dst|]) then src else dst
  }

  lemma AlignText(lines: seq<Line>, s: nat, d: nat)
    requires s < |lines| && d < |lines|
    ensures Align(lines, s, d)[d] == Line(lines[d].kind, Aligned(lines[s].text, lines[d].text))
    ensures forall k :: 0 <= k < |lines| && k != d ==> Align(lines, s, d)[k] == lines[k]
  {
    var src, dst := lines[s].text, lines[d].text;
    if src != "" && IsBlank(src[|src| - 1]) && src[..|src| - 1] == dst {
      assert src == dst + src[|src| - 1..];
    }
  }

  /** The i-th source and destination line, and what the pass makes of the text of the latter.  The source line is seen
      as the pass leaves it when it stands before the destination line, and else as given. */
  ghost predicate PairAligned(lines: seq<Line>, lines': seq<Line>, i: nat)
    requires |lines'| == |lines| && i < |SrcIndexes(lines)| && i < |DstIndexes(lines)|
  {
    var s, d := SrcIndexes(lines)[i], DstIndexes(lines)[i];
    var seen := if s < d then lines'[s] else lines[s];
    lines'[d] == Line(lines[d].kind, Aligned(seen.text, lines[d].text))
  }

  /** Destination lines with a source line of the same number are aligned with it, all other lines are as given. */
  ghost predicate IsAligned(lines: seq<Line>, lines': seq<Line>) {
    var n := |SrcIndexes(lines)|;
    && |lines'| == |lines|
    && (forall i :: 0 <= i < n && i < |DstIndexes(lines)| ==> PairAligned(lines, lines', i))
    && (forall x :: 0 <= x < |lines| && (forall i :: 0 <= i < n && i < |DstIndexes(lines)| ==> DstIndexes(lines)[i] != x) ==>
          lines'[x] == lines[x])
  }

  lemma {:induction false} PairIsAligned(orig: seq<Line>, lines: seq<Line>, i: nat, k: nat)
    requires |lines| == |orig| && i <= k < |SrcIndexes(orig)| && k < |DstIndexes(orig)|
    requires forall x :: Frontier(orig, DstIndexes(orig), i) <= x < |lines| ==> lines[x] == orig[x]
    ensures PairAligned(orig, AlignFrom(lines, SrcIndexes(orig), DstIndexes(orig), i).0, k)
    decreases k - i
  {
    hide SrcIndexes, DstIndexes, Align, Aligned;
    var src, dst := SrcIndexes(orig), DstIndexes(orig);
    var next := Align(lines, src[i], dst[i]);
    AlignText(lines, src[i], dst[i]);
    if i == k {
      PassedStays(next, src, dst, i + 1, dst[k]);
      if src[k] < dst[k] { PassedStays(next, src, dst, i + 1, src[k]); }
    } else {
      PairIsAligned(orig, next, i + 1, k);
    }
  }

  lemma AlignChunkResult(c: Chunk)
    ensures IsAligned(c.lines, AlignChunk(c).0.lines)
  {
    var src, dst := SrcIndexes(c.lines), DstIndexes(c.lines);
    hide SrcIndexes, DstIndexes, PairAligned, AlignFrom;
    forall i | 0 <= i < |src| && i < |dst| ensures PairAligned(c.lines, AlignChunk(c).0.lines, i) {
      PairIsAligned(c.lines, c.lines, 0, i);
    }
    forall x | 0 <= x < |c.lines| && forall i :: 0 <= i < |src| && i < |dst| ==> dst[i] != x
      ensures AlignChunk(c).0.lines[x] == c.lines[x]
    {
      PassedStays(c.lines, src, dst, 0, x);
    }
  }

  // ----- Where the pass ends ----------------------------------------------------------------------------

  /** A chunk with more source than destination lines: there the pass ends. */
  ghost predicate RunsOut(c: Chunk) { |SrcSide(c.lines)| > |DstSide(c.lines)| }

  lemma {:induction false} SideSizes(lines: seq<Line>)
    ensures |SrcIndexes(lines)| == |SrcSide(lines)| && |DstIndexes(lines)| == |DstSide(lines)|
  {
    if lines != [] { SideSizes(lines[..|lines| - 1]); }
  }

  lemma {:induction false} CompleteIff(lines: seq<Line>, src: seq<nat>, dst: seq<nat>, i: nat)
    requires forall k :: 0 <= k < |src| ==> src[k] < |lines|
    requires forall k :: 0 <= k < |dst| ==> dst[k] < |lines|
    ensures AlignFrom(lines, src, dst, i).1 <==> i >= |src| || |src| <= |dst|
    decreases |src| - i
  {
    if i < |src| && i < |dst| { CompleteIff(Align(lines, src[i], dst[i]), src, dst, i + 1); }
  }

  lemma ChunkCompleteIff(c: Chunk)
    ensures AlignChunk(c).1 <==> !RunsOut(c)
  {
    SideSizes(c.lines);
    CompleteIff(c.lines, SrcIndexes(c.lines), DstIndexes(c.lines), 0);
  }

  ghost predicate NoneRunsOut(cs: seq<Chunk>) { forall j :: 0 <= j < |cs| ==> !RunsOut(cs[j]) }

  lemma {:induction false} ChunksCompleteIff(cs: seq<Chunk>)
    ensures AlignChunks(cs).1 <==> NoneRunsOut(cs)
  {
    if cs != [] {
      hide AlignChunk, RunsOut, NoneRunsOut;
      ChunkCompleteIff(cs[0]);
      ChunksCompleteIff(cs[1..]);
      assert cs == [cs[0]] + cs[1..];
      NoneRunsOutCons(cs[0], cs[1..]);
    } else {
      assert AlignChunks(cs).1;
    }
  }

  lemma AlignChunksHead(cs: seq<Chunk>)
    requires cs != []
    ensures AlignChunks(cs).0 == [AlignChunk(cs[0]).0] + if AlignChunk(cs[0]).1 then AlignChunks(cs[1..]).0 else cs[1..]
  {
  }

  /** The i-th chunk after the first one is reached when the first one does not run out. */
  lemma ReachBehind(cs: seq<Chunk>, i: nat)
    requires 0 < i <= |cs|
    ensures NoneRunsOut(cs[..i]) <==> !RunsOut(cs[0]) && NoneRunsOut(cs[1..][..i - 1])
  {
    hide RunsOut, NoneRunsOut;
    assert cs[..i] == [cs[0]] + cs[1..][..i - 1];
    NoneRunsOutCons(cs[0], cs[1..][..i - 1]);
  }

  lemma AlignChunksTail(cs: seq<Chunk>, i: nat)
    requires 0 < i < |cs|
    ensures cs[1..][i - 1] == cs[i]
    ensures AlignChunks(cs).0[i] == if AlignChunk(cs[0]).1 then AlignChunks(cs[1..]).0[i - 1] else cs[i]
  {
    hide AlignChunks, AlignChunk;
    AlignChunksHead(cs);
  }

  lemma {:induction false} AlignChunksResult(cs: seq<Chunk>, i: nat)
    requires i < |cs|
    ensures AlignChunks(cs).0[i] == if NoneRunsOut(cs[..i]) then AlignChunk(cs[i]).0 else cs[i]
  {
    if i == 0 {
      AlignChunksHead(cs);
      assert NoneRunsOut(cs[..0]);
    } else {
      hide AlignChunk, RunsOut, NoneRunsOut, AlignChunks;
      ChunkCompleteIff(cs[0]);
      AlignChunksTail(cs, i);
      AlignChunksResult(cs[1..], i - 1);
      ReachBehind(cs, i);
    }
  }

  lemma NoneRunsOutCons(c: Chunk, cs: seq<Chunk>)
    ensures NoneRunsOut([c] + cs) <==> !RunsOut(c) && NoneRunsOut(cs)
  {
    hide RunsOut;
    assert ([c] + cs)[0] == c && forall j :: 0 <= j < |cs| ==> ([c] + cs)[j + 1] == cs[j];
  }

  /** No chunk before the i-th one of patch `p`, in this or an earlier patch, runs out of destination lines. */
  ghost predicate GetsTo(ps: seq<Patch>, p: nat, i: nat)
    requires p < |ps| && i <= |ps[p].chunks|
  {
    (forall q :: 0 <= q < p ==> NoneRunsOut(ps[q].chunks)) && NoneRunsOut(ps[p].chunks[..i])
  }

  lemma {:induction false} AlignPatchesResult(ps: seq<Patch>, p: nat, i: nat)
    requires p < |ps| && i < |ps[p].chunks|
    ensures AlignPatches(ps)[p].src == ps[p].src && AlignPatches(ps)[p].dst == ps[p].dst
    ensures |AlignPatches(ps)[p].chunks| == |ps[p].chunks|
    ensures AlignPatches(ps)[p].chunks[i] == if GetsTo(ps, p, i) then AlignChunk(ps[p].chunks[i]).0 else ps[p].chunks[i]
  {
    hide AlignChunk, NoneRunsOut, AlignChunks;
    ChunksCompleteIff(ps[0].chunks);
    if p == 0 {
      AlignChunksResult(ps[0].chunks, i);
    } else {
      AlignPatchesResult(ps[1..], p - 1, i);
      assert GetsTo(ps, p, i) <==> NoneRunsOut(ps[0].chunks) && GetsTo(ps[1..], p - 1, i) by {
        assert forall q :: 0 < q < p ==> ps[q] == ps[1..][q - 1];
        if NoneRunsOut(ps[0].chunks) && GetsTo(ps[1..], p - 1, i) {
          forall q | 0 <= q < p ensures NoneRunsOut(ps[q].chunks) { if q > 0 { assert NoneRunsOut(ps[1..][q - 1].chunks); } }
        }
        if GetsTo(ps, p, i) {
          forall q | 0 <= q < p - 1 ensures NoneRunsOut(ps[1..][q].chunks) { assert NoneRunsOut(ps[q + 1].chunks); }
        }
      }
    }
  }

  /** What the pass makes of a patch set: chunks are aligned up to and including the first one that has more source than
      destination lines, in whichever patch that is; everything else is as parsed. */
  ghost predicate IsTidied(ps: seq<Patch>, ps': seq<Patch>) {
    && |ps'| == |ps|
    && forall p :: 0 <= p < |ps| ==>
         && ps'[p].src == ps[p].src && ps'[p].dst == ps[p].dst && |ps'[p].chunks| == |ps[p].chunks|
         && forall i :: 0 <= i < |ps[p].chunks| ==>
              var c, c' := ps[p].chunks[i], ps'[p].chunks[i];
              && c'.srcPos == c.srcPos && c'.dstPos == c.dstPos
              && if GetsTo(ps, p, i) then IsAligned(c.lines, c'.lines) else c'.lines == c.lines
  }

  lemma PassTidies(ps: seq<Patch>)
    ensures IsTidied(ps, AlignPatches(ps))
  {
    hide IsAligned, GetsTo;
    forall p | 0 <= p < |ps|
      ensures AlignPatches(ps)[p].src == ps[p].src && AlignPatches(ps)[p].dst == ps[p].dst
      ensures |AlignPatches(ps)[p].chunks| == |ps[p].chunks|
    {
      AlignPatchesExtends(ps);
    }
    forall p, i | 0 <= p < |ps| && 0 <= i < |ps[p].chunks|
      ensures var c, c' := ps[p].chunks[i], AlignPatches(ps)[p].chunks[i];
        && c'.srcPos == c.srcPos && c'.dstPos == c.dstPos
        && if GetsTo(ps, p, i) then IsAligned(c.lines, c'.lines) else c'.lines == c.lines
    {
      AlignPatchesResult(ps, p, i);
      AlignChunkResult(ps[p].chunks[i]);
    }
  }

  /** What the pass is for.  In a chunk that it gets to: opposite the k-th source line, if that is a `-` line, a
      destination line that only lost its last blank is made equal to it, any other is as before. */
  lemma TrailingChangeHidden(ps: seq<Patch>, p: nat, i: nat, k: nat)
    requires p < |ps| && i < |ps[p].chunks| && GetsTo(ps, p, i)
    requires var lines := ps[p].chunks[i].lines;
      k < |SrcIndexes(lines)| && k < |DstIndexes(lines)| && lines[SrcIndexes(lines)[k]].kind == Src
    ensures i < |AlignPatches(ps)[p].chunks| && |AlignPatches(ps)[p].chunks[i].lines| == |ps[p].chunks[i].lines|
    ensures var lines := ps[p].chunks[i].lines;
      var s, d := SrcIndexes(lines)[k], DstIndexes(lines)[k];
      AlignPatches(ps)[p].chunks[i].lines[d].text == Aligned(lines[s].text, lines[d].text)
  {
    PassTidies(ps);
    var lines, lines' := ps[p].chunks[i].lines, AlignPatches(ps)[p].chunks[i].lines;
    hide AlignPatches, SrcIndexes, Aligned;
    assert IsAligned(lines, lines') && PairAligned(lines, lines', k);
    var s := SrcIndexes(lines)[k];
    assert forall j :: 0 <= j < |DstIndexes(lines)| ==> IsDst(lines[DstIndexes(lines)[j]]);
    assert lines'[s] == lines[s];
  }

  /** Early return or not, the pass keeps positions, kinds and order, and extends lines by at most one blank. */
  ghost predicate ChunkExtended(c: Chunk, c': Chunk) {
    c'.srcPos == c.srcPos && c'.dstPos == c.dstPos && AllExtended(c.lines, c'.lines) && OnlyDstChanged(c.lines, c'.lines)
  }

  ghost predicate PatchExtended(p: Patch, p': Patch) {
    && p'.src == p.src && p'.dst == p.dst && |p'.chunks| == |p.chunks|
    && forall i :: 0 <= i < |p.chunks| ==> ChunkExtended(p.chunks[i], p'.chunks[i])
  }

  lemma ChunkUnchanged(c: Chunk)
    ensures ChunkExtended(c, c)
  {
  }

  lemma AlignChunkExtends(c: Chunk)
    ensures ChunkExtended(c, AlignChunk(c).0)
  {
    AlignFromExtends(c.lines, c.lines, SrcIndexes(c.lines), DstIndexes(c.lines), 0);
  }

  lemma {:induction false} AlignChunksExtends(cs: seq<Chunk>)
    ensures forall i :: 0 <= i < |cs| ==> ChunkExtended(cs[i], AlignChunks(cs).0[i])
  {
    if cs != [] {
      AlignChunkExtends(cs[0]);
      AlignChunksExtends(cs[1..]);
      forall c { ChunkUnchanged(c); }
    }
  }

  lemma {:induction false} AlignPatchesExtends(ps: seq<Patch>)
    ensures forall i :: 0 <= i < |ps| ==> PatchExtended(ps[i], AlignPatches(ps)[i])
  {
    if ps != [] {
      AlignChunksExtends(ps[0].chunks);
      AlignPatchesExtends(ps[1..]);
      forall c { ChunkUnchanged(c); }
    }
  }

  /** Both sides of an extended chunk are the old sides up to trailing blanks. */
  lemma {:induction false} SidesExtended(lines: seq<Line>, lines': seq<Line>)
    requires AllExtended(lines, lines')
    ensures AllExtended(SrcSide(lines), SrcSide(lines')) && AllExtended(DstSide(lines), DstSide(lines'))
  {
    if lines != [] {
      assert Extended(lines[|lines| - 1], lines'[|lines'| - 1]);
      SidesExtended(lines[..|lines| - 1], lines'[..|lines'| - 1]);
    }
  }

  /** Every rewritten line is a `+` line. */
  ghost predicate OnlyPlusChanged(lines: seq<Line>, lines': seq<Line>)
    requires |lines'| == |lines|
  {
    forall i :: 0 <= i < |lines| && lines'[i] != lines[i] ==> lines[i].kind == Dst
  }

  lemma {:induction false} SourceKeptIffOnlyPlus(lines: seq<Line>, lines': seq<Line>)
    requires AllExtended(lines, lines') && OnlyDstChanged(lines, lines')
    ensures SrcSide(lines') == SrcSide(lines) <==> OnlyPlusChanged(lines, lines')
  {
    if lines != [] {
      var n := |lines| - 1;
      SourceKeptIffOnlyPlus(lines[..n], lines'[..n]);
      SidesExtended(lines[..n], lines'[..n]);
      LastChange(lines, lines');
      SourceStep(lines, lines');
    }
  }

  lemma SrcSideLast(lines: seq<Line>)
    requires lines != []
    ensures var n := |lines| - 1;
      SrcSide(lines) == if IsSrc(lines[n]) then SrcSide(lines[..n]) + [lines[n]] else SrcSide(lines[..n])
  {
  }

  lemma SourceStep(lines: seq<Line>, lines': seq<Line>)
    requires |lines'| == |lines| > 0
    requires var n := |lines| - 1; Extended(lines[n], lines'[n]) && (lines'[n] != lines[n] ==> IsDst(lines[n]))
    requires var n := |lines| - 1; |SrcSide(lines[..n])| == |SrcSide(lines'[..n])|
    ensures var n := |lines| - 1;
      SrcSide(lines') == SrcSide(lines) <==>
      SrcSide(lines'[..n]) == SrcSide(lines[..n]) && (lines'[n] != lines[n] ==> lines[n].kind == Dst)
  {
    var n := |lines| - 1;
    SrcSideLast(lines);
    SrcSideLast(lines');
    SameLast(SrcSide(lines'[..n]), SrcSide(lines[..n]), lines'[n], lines[n]);
  }

  lemma LastChange(lines: seq<Line>, lines': seq<Line>)
    requires |lines'| == |lines| > 0 && AllExtended(lines, lines') && OnlyDstChanged(lines, lines')
    ensures var n := |lines| - 1; Extended(lines[n], lines'[n]) && (lines'[n] != lines[n] ==> IsDst(lines[n]))
    ensures var n := |lines| - 1;
      OnlyPlusChanged(lines, lines') <==> OnlyPlusChanged(lines[..n], lines'[..n]) && (lines'[n] != lines[n] ==> lines[n].kind == Dst)
  {
  }

  lemma SameLast<T>(a: seq<T>, b: seq<T>, x: T, y: T)
    requires |a| == |b|
    ensures a + [x] == b + [y] <==> a == b && x == y
  {
    if a + [x] == b + [y] {
      assert a == (a + [x])[..|a|] && b == (b + [y])[..|b|] && (a + [x])[|a|] == x && (b + [y])[|b|] == y;
    }
  }

  /** The i-th destination line is a context line to which the i-th source line, as given, has one blank more. */
  ghost predicate ContextGrows(lines: seq<Line>, i: nat) {
    var src, dst := SrcIndexes(lines), DstIndexes(lines);
    && i < |src| && i < |dst| && lines[dst[i]].kind == Both
    && exists b :: IsBlank(b) && lines[src[i]].text == lines[dst[i]].text + [b]
  }

  /** Which lines the pass aligns: those to which the source line has one blank more. */
  lemma AlignIff(lines: seq<Line>, s: nat, d: nat)
    requires s < |lines| && d < |lines|
    ensures Align(lines, s, d)[d] != lines[d] <==> exists b :: IsBlank(b) && lines[s].text == lines[d].text + [b]
    ensures forall k :: 0 <= k < |lines| && k != d ==> Align(lines, s, d)[k] == lines[k]
  {
    if b :| IsBlank(b) && lines[s].text == lines[d].text + [b] {
      assert lines[s].text[..|lines[d].text|] == lines[d].text;
    }
    var m := TrailingBlank(lines[s].text);
    if m != None && m.value.0 == lines[d].text {
      assert lines[s].text == lines[d].text + [m.value.1[0]];
    }
  }

  /** As long as no context line has grown, the pass sees source lines as given, so the first one to grow is known. */
  lemma {:induction false} OnlyPlusIff(orig: seq<Line>, lines: seq<Line>, i: nat)
    requires |lines| == |orig| && OnlyPlusChanged(orig, lines)
    requires forall k :: Frontier(orig, DstIndexes(orig), i) <= k < |lines| ==> lines[k] == orig[k]
    ensures OnlyPlusChanged(orig, AlignFrom(lines, SrcIndexes(orig), DstIndexes(orig), i).0) <==>
            forall k :: k >= i ==> !ContextGrows(orig, k)
    decreases |SrcIndexes(orig)| - i
  {
    hide SrcIndexes, DstIndexes, Align;
    var src, dst := SrcIndexes(orig), DstIndexes(orig);
    if i < |src| && i < |dst| {
      var next := Align(lines, src[i], dst[i]);
      AlignIff(lines, src[i], dst[i]);
      assert lines[src[i]] == orig[src[i]] && lines[dst[i]] == orig[dst[i]];
      if ContextGrows(orig, i) {
        PassedStays(next, src, dst, i + 1, dst[i]);
      } else {
        OnlyPlusIff(orig, next, i + 1);
      }
    }
  }

  /** The pass leaves the source side of a chunk as it is exactly when no context line opposite a source line lacks
      just that line's last blank. */
  lemma SourceUntouched(c: Chunk)
    ensures SrcSide(AlignChunk(c).0.lines) == SrcSide(c.lines) <==> forall i: nat :: !ContextGrows(c.lines, i)
  {
    AlignChunkExtends(c);
    SourceKeptIffOnlyPlus(c.lines, AlignChunk(c).0.lines);
    OnlyPlusIff(c.lines, c.lines, 0);
  }

  /** A removed and an unchanged line. */
  lemma TwoLineIndexes(a: string, b: string)
    ensures var lines := [Line(Src, a), Line(Both, b)]; SrcIndexes(lines) == [0, 1] && DstIndexes(lines) == [1]
  {
    var lines := [Line(Src, a), Line(Both, b)];
    assert lines[..1] == [Line(Src, a)] && lines[..1][..0] == [];
    assert SrcIndexes(lines[..1]) == [0] && DstIndexes(lines[..1]) == [];
  }

  /** Such a chunk, the unchanged line equal to the removed one but for its last blank: the unchanged line gets the
      blank, on both sides. */
  lemma ContextRewritten()
    ensures var c := Chunk(1, 1, [Line(Src, "a "), Line(Both, "a")]);
      && AlignChunk(c).0.lines == [Line(Src, "a "), Line(Both, "a ")]
      && SrcSide(AlignChunk(c).0.lines) != SrcSide(c.lines)
  {
    var lines := [Line(Src, "a "), Line(Both, "a")];
    TwoLineIndexes("a ", "a");
    hide SrcIndexes, DstIndexes, SrcSide;
    assert "a " == "a" + [' '];
    assert TrailingBlank("a ") == Some(("a", " "));
    assert ContextGrows(lines, 0);
    SourceUntouched(Chunk(1, 1, lines));
  }

  // ----- The pass on objects ---------------------------------------------------------------------------

  /** The `src()` list of a chunk: the very objects, in order. */
  method SrcLines(objs: seq<PatchChunkLine>, ghost lines: seq<Line>) returns (src: seq<PatchChunkLine>)
    requires LinesAre(objs, lines)
    ensures |src| == |SrcIndexes(lines)| && forall k :: 0 <= k < |src| ==> src[k] == objs[SrcIndexes(lines)[k]]
  {
    src := [];
    for i := 0 to |objs|
      invariant |src| == |SrcIndexes(lines[..i])| && forall k :: 0 <= k < |src| ==> src[k] == objs[SrcIndexes(lines[..i])[k]]
    {
      assert lines[..i + 1][..i] == lines[..i] && objs[i].View() == lines[i];
      if objs[i].kind == Src || objs[i].kind == Both {
        src := src + [objs[i]];
      }
    }
    assert lines[..|objs|] == lines;
  }

  method DstLines(objs: seq<PatchChunkLine>, ghost lines: seq<Line>) returns (dst: seq<PatchChunkLine>)
    requires LinesAre(objs, lines)
    ensures |dst| == |DstIndexes(lines)| && forall k :: 0 <= k < |dst| ==> dst[k] == objs[DstIndexes(lines)[k]]
  {
    dst := [];
    for i := 0 to |objs|
      invariant |dst| == |DstIndexes(lines[..i])| && forall k :: 0 <= k < |dst| ==> dst[k] == objs[DstIndexes(lines[..i])[k]]
    {
      assert lines[..i + 1][..i] == lines[..i] && objs[i].View() == lines[i];
      if objs[i].kind == Dst || objs[i].kind == Both {
        dst := dst + [objs[i]];
      }
    }
    assert lines[..|objs|] == lines;
  }

  /** One pair of lines. */
  method TidyPair(ghost objs: seq<PatchChunkLine>, ghost now: seq<Line>, s: PatchChunkLine, ghost si: nat,
                  d: PatchChunkLine, ghost di: nat)
    requires LinesAre(objs, now) && NoDup(objs) && si < |objs| && di < |objs| && s == objs[si] && d == objs[di]
    modifies d
    ensures LinesAre(objs, Align(now, si, di))
  {
    hide TrailingBlank;
    ghost var next := Align(now, si, di);
    assert s.View() == now[si] && d.View() == now[di];
    var m := TrailingBlank(s.text);
    if m != None && m.value.0 == d.text {
      d.AppendToLine(m.value.1);
      forall k | 0 <= k < |objs| ensures objs[k].View() == next[k] {
        assert k != di ==> objs[k] != d;
      }
    }
  }

  /** One chunk; `complete` is false when the IndexError ends the whole pass. */
  method TidyChunk(objs: seq<PatchChunkLine>, ghost lines: seq<Line>) returns (complete: bool)
    requires LinesAre(objs, lines) && NoDup(objs)
    modifies objs
    ensures LinesAre(objs, AlignFrom(lines, SrcIndexes(lines), DstIndexes(lines), 0).0)
    ensures complete == AlignFrom(lines, SrcIndexes(lines), DstIndexes(lines), 0).1
  {
    var src := SrcLines(objs, lines);
    var dst := DstLines(objs, lines);
    ghost var si, di, now := SrcIndexes(lines), DstIndexes(lines), lines;
    hide SrcIndexes, DstIndexes, TrailingBlank, Align;
    for i := 0 to |src|
      invariant LinesAre(objs, now)
      invariant AlignFrom(lines, si, di, 0) == AlignFrom(now, si, di, i)
    {
      if i >= |dst| { return false; }
      assert src[i] == objs[si[i]] && dst[i] == objs[di[i]];
      TidyPair(objs, now, src[i], si[i], dst[i], di[i]);
      now := Align(now, si[i], di[i]);
    }
    return true;
  }

  function SetChunk(ps: seq<Patch>, p: nat, c: nat, chunk: Chunk): seq<Patch>
    requires p < |ps| && c < |ps[p].chunks|
  {
    ps[p := ps[p].(chunks := ps[p].chunks[c := chunk])]
  }

  lemma OtherChunksApart(os: seq<ObjPatch>, p: nat, c: nat, q: nat, e: nat)
    requires Separate(os) && p < |os| && c < |os[p].chunks| && q < |os| && e < |os[q].chunks| && (q != p || e != c)
    ensures forall l :: l in os[q].chunks[e].lines ==> l !in os[p].chunks[c].lines
  {
  }

  lemma ChunkDistinct(os: seq<ObjPatch>, p: nat, c: nat)
    requires Separate(os) && p < |os| && c < |os[p].chunks|
    ensures NoDup(os[p].chunks[c].lines)
  {
  }

  /** The pass at one chunk of the patch set; no other chunk changes. */
  method TidyAt(os: seq<ObjPatch>, ghost ps: seq<Patch>, p: nat, c: nat) returns (complete: bool)
    requires Represents(os, ps) && Separate(os) && p < |os| && c < |os[p].chunks|
    modifies os[p].chunks[c].lines
    ensures p < |ps| && c < |ps[p].chunks|
    ensures Represents(os, SetChunk(ps, p, c, AlignChunk(ps[p].chunks[c]).0))
    ensures complete == AlignChunk(ps[p].chunks[c]).1
  {
    hide Separate, AlignFrom, SrcIndexes, DstIndexes;
    Shape(os, ps);
    ChunkDistinct(os, p, c);
    forall q, e | 0 <= q < |os| && 0 <= e < |os[q].chunks| && (q != p || e != c)
      ensures ChunkIs(os[q].chunks[e], ps[q].chunks[e]) && forall l :: l in os[q].chunks[e].lines ==> l !in os[p].chunks[c].lines
    {
      OtherChunksApart(os, p, c, q, e);
    }
    assert ChunkIs(os[p].chunks[c], ps[p].chunks[c]);
    label Before:
    complete := TidyChunk(os[p].chunks[c].lines, ps[p].chunks[c].lines);
    ghost var ps' := SetChunk(ps, p, c, AlignChunk(ps[p].chunks[c]).0);
    assert ChunkIs(os[p].chunks[c], AlignChunk(ps[p].chunks[c]).0);
    forall q | 0 <= q < |os| ensures PatchIs(os[q], ps'[q]) {
      forall e | 0 <= e < |os[q].chunks| ensures ChunkIs(os[q].chunks[e], ps'[q].chunks[e]) {
        if q != p || e != c {
          assert ps'[q].chunks[e] == ps[q].chunks[e];
          assert old@Before(ChunkIs(os[q].chunks[e], ps[q].chunks[e]));
          assert forall k :: 0 <= k < |os[q].chunks[e].lines| ==> os[q].chunks[e].lines[k] in os[q].chunks[e].lines;
          assert ChunkIs(os[q].chunks[e], ps[q].chunks[e]);
        }
      }
    }
  }

  lemma AlignChunksStep(cs: seq<Chunk>, c: nat)
    requires c < |cs|
    ensures var (h, ok) := AlignChunk(cs[c]);
      AlignChunks(cs[c..]) == if !ok then ([h] + cs[c + 1..], false)
                              else ([h] + AlignChunks(cs[c + 1..]).0, AlignChunks(cs[c + 1..]).1)
  {
  }

  lemma AlignPatchesStep(ps: seq<Patch>, p: nat)
    requires p < |ps|
    ensures var (cs, ok) := AlignChunks(ps[p].chunks);
      AlignPatches(ps[p..]) == [ps[p].(chunks := cs)] + if ok then AlignPatches(ps[p + 1..]) else ps[p + 1..]
  {
  }

  lemma NoChunksLeft()
    ensures AlignChunks([]) == ([], true) && AlignPatches([]) == []
  {
  }

  lemma ReplaceAt<T>(s: seq<T>, orig: seq<T>, i: nat, x: T)
    requires |s| == |orig| && i < |s| && s[i..] == orig[i..]
    ensures s[i] == orig[i] && s[i := x][..i + 1] == s[..i] + [x] && s[i := x][i + 1..] == orig[i + 1..]
    ensures s[i := x] == s[..i] + [x] + orig[i + 1..]
  {
  }

  function WithChunks(ps: seq<Patch>, p: nat, cs: seq<Chunk>): seq<Patch>
    requires p < |ps|
  {
    ps[p := ps[p].(chunks := cs)]
  }

  lemma SetInPatch(ps: seq<Patch>, p: nat, cs: seq<Chunk>, c: nat, chunk: Chunk)
    requires p < |ps| && c < |cs|
    ensures WithChunks(ps, p, cs)[p].chunks == cs
    ensures SetChunk(WithChunks(ps, p, cs), p, c, chunk) == WithChunks(ps, p, cs[c := chunk])
  {
  }

  /** The chunk loop of one patch. */
  method TidyPatch(os: seq<ObjPatch>, ghost ps: seq<Patch>, p: nat) returns (complete: bool)
    requires Represents(os, ps) && Separate(os) && p < |os|
    modifies AllLines(os)
    ensures p < |ps| && Represents(os, WithChunks(ps, p, AlignChunks(ps[p].chunks).0))
    ensures complete == AlignChunks(ps[p].chunks).1
  {
    Shape(os, ps);
    ghost var cs := ps[p].chunks;
    ghost var now := cs;
    assert WithChunks(ps, p, cs) == ps && cs[0..] == cs && [] + AlignChunks(cs).0 == AlignChunks(cs).0;
    hide Represents, Separate, AlignChunk, AllLines, AlignChunks, PatchIs, WithChunks, SetChunk;
    for c := 0 to |os[p].chunks|
      invariant |now| == |cs| && Represents(os, WithChunks(ps, p, now)) && now[c..] == cs[c..]
      invariant AlignChunks(cs) == (now[..c] + AlignChunks(cs[c..]).0, AlignChunks(cs[c..]).1)
    {
      ChunkInAllLines(os, p, c);
      ghost var c' := AlignChunk(cs[c]).0;
      ReplaceAt(now, cs, c, c');
      SetInPatch(ps, p, now, c, c');
      AlignChunksStep(cs, c);
      ConcatAssoc(now[..c], [c'], cs[c + 1..]);
      ConcatAssoc(now[..c], [c'], AlignChunks(cs[c + 1..]).0);
      var ok := TidyAt(os, WithChunks(ps, p, now), p, c);
      now := now[c := c'];
      if !ok { return false; }
    }
    assert now[..|cs|] == now && cs[|cs|..] == [];
    NoChunksLeft();
    return true;
  }

  lemma ChunkInAllLines(os: seq<ObjPatch>, p: nat, c: nat)
    requires p < |os| && c < |os[p].chunks|
    ensures forall l :: l in os[p].chunks[c].lines ==> l in AllLines(os)
  {
  }

  /** The pass as a whole: parse, then align chunk after chunk until done or until a destination line is missing. */
  method RemoveTrailingWhitespaceChanges(generator: seq<string>) returns (r: Option<seq<ObjPatch>>)
    ensures r == None <==> ParseLines(generator) == None
    ensures r.Some? ==> Represents(r.value, AlignPatches(ParseLines(generator).value))
    ensures r.Some? ==> IsTidied(ParseLines(generator).value, AlignPatches(ParseLines(generator).value))
  {
    r := ParsePatchset(generator);
    if r == None { return; }
    var os := r.value;
    PassTidies(ParseLines(generator).value);
    ghost var ps := ParseLines(generator).value;
    ghost var now := ps;
    assert [] + AlignPatches(ps) == AlignPatches(ps) && ps[0..] == ps;
    Shape(os, ps);
    hide Represents, Separate, AllLines, AlignChunks, AlignPatches, ParseLines, IsTidied;
    for p := 0 to |os|
      invariant |now| == |ps| && Represents(os, now) && now[p..] == ps[p..]
      invariant AlignPatches(ps) == now[..p] + AlignPatches(ps[p..])
    {
      ghost var p' := ps[p].(chunks := AlignChunks(ps[p].chunks).0);
      ReplaceAt(now, ps, p, p');
      AlignPatchesStep(ps, p);
      ConcatAssoc(now[..p], [p'], ps[p + 1..]);
      ConcatAssoc(now[..p], [p'], AlignPatches(ps[p + 1..]));
      var complete := TidyPatch(os, now, p);
      now := now[p := p'];
      if !complete { return; }
    }
    assert now[..|ps|] == now && ps[|ps|..] == [];
    NoChunksLeft();
  }
}
