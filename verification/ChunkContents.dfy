/** What of a text its chunks show: what is repeated and what is lost. */
module ChunkContents {
  import opened Text
  import opened StructureChunker
  import opened StructureProperties
  import LC = LineChunker

  // ---------- line boundaries: the overlap is repeated ----------

  /** The tail of the chunk before, which chunk `k` repeats. */
  function Repeated(base: seq<string>, overlap: nat, k: int): string
    requires 0 <= k < |base|
  {
    if k == 0 || overlap == 0 then "" else LC.OverlapTail(base[k - 1], overlap)
  }

  /** Each chunk shows a tail of the chunk before it, then its own part of the text. The own
      parts are the whole text. */
  lemma LineChunkContent(text: string, size: Size, overlap: nat, k: int)
    requires 0 <= k < |LC.BaseChunks(text, size)|
    ensures var base := LC.BaseChunks(text, size);
      && |LC.LineChunks(text, size, overlap)| == |base|
      && Solid(LC.LineChunks(text, size, overlap)[k]) == Solid(Repeated(base, overlap, k)) + Solid(base[k])
      && |Repeated(base, overlap, k)| <= overlap
      && SolidAll(base) == Solid(text)
  {
    var base := LC.BaseChunks(text, size);
    LC.OverlapKeepsChunks(text, size, overlap, k);
    LC.ContentConserved(text, size);
    if k > 0 && overlap > 0 {
      var tail := LC.OverlapTail(base[k - 1], overlap);
      SolidNewline(tail);
      SolidLStrip(tail + "\n");
      SolidAppend(LStrip(tail + "\n"), base[k]);
    }
  }

  // ---------- structure: headers are repeated, some tables are lost ----------

  function RowsOfEach(subs: seq<Group>): seq<seq<string>>
  {
    if subs == [] then [] else [RowsOf(subs[0])] + RowsOfEach(subs[1..])
  }

  function Identity(rows: seq<string>): seq<string> { rows }

  lemma {:induction false} BlocksShown(subs: seq<Group>, header: seq<string>, max: Size)
    requires forall k :: 0 <= k < |subs| ==> IsBlock(subs[k], header, max)
    ensures FlatMap(SolidGroup, subs) == FlatMap((b: seq<string>) => SolidAll(header) + SolidAll(b), RowsOfEach(subs))
    ensures FlatMap(Identity, RowsOfEach(subs)) == FlatMap(RowsOf, subs)
    decreases |subs|
  {
    if subs != [] {
      BlocksShown(subs[1..], header, max);
      assert RowsOfEach(subs)[1..] == RowsOfEach(subs[1..]);
    }
  }

  /** An over-large table with data rows is shown as its header before each of the blocks
      into which the data rows fall: the header is all that is repeated, and only when no
      data row exists is anything lost. */
  lemma TableShown(rules: Rules, rows: seq<string>, n: nat, max: Size) returns (blocks: seq<seq<string>>)
    requires Oversized(rows, max) && HeaderEnds(rules, rows, n)
    ensures
      && FlatMap(Identity, blocks) == rows[n..] && (blocks == [] <==> n == |rows|)
      && Shown(rules, Run(rows), max) == FlatMap((b: seq<string>) => SolidAll(rows[..n]) + SolidAll(b), blocks)
  {
    var subs := SubTables(rules, rows, max);
    HeaderEndsIff(rules, rows, n);
    HeaderOnlyIff(rules, rows);
    SplitBehindHeader(rules, rows, max);
    NoBlocksIff(rules, rows, max);
    BlocksShown(subs, rows[..n], max);
    blocks := RowsOfEach(subs);
  }

  lemma BlockShown(rules: Rules, header: seq<string>, g: Group, max: Size)
    requires IsBlock(g, header, max) && header != [] && Strip(header[0]) != ""
    ensures GroupText(g) != ""
  {
    ChunkOfContent(g);
    SolidEmptyIff(header[0]);
  }

  lemma TableContent(rows: seq<string>, n: nat, subs: seq<Group>, header: seq<string>)
    requires n <= |rows| && header == rows[..n] && subs != [] && subs[0].SubTable? && subs[0].header == header
    requires FlatMap(RowsOf, subs) == rows[n..]
    ensures SolidAll(rows) == SolidGroup(subs[0]) + SolidAll(FlatMap(RowsOf, subs[1..]))
  {
    var more := FlatMap(RowsOf, subs[1..]);
    assert rows == header + rows[n..];
    FlatMapAppend(Solid, header, rows[n..]);
    FlatMapAppend(Solid, subs[0].rows, more);
    Assoc(SolidAll(header), SolidAll(subs[0].rows), SolidAll(more));
  }

  lemma {:induction false} PiecesGrow(st: State, line: string, pos: nat, max: Size)
    ensures st.done <= AddPieces(st, line, pos, max).done
    decreases |line| - pos
  {
    if pos < |line| {
      var end := LC.SliceEnd(line, pos, max);
      PiecesGrow(AddPiece(st, line[pos..end], max), line, end, max);
    }
  }

  lemma AddGrows(rules: Rules, st: State, seg: Segment, max: Size)
    requires seg.Run? ==> !Oversized(seg.rows, max)
    ensures st.done <= Add(rules, st, seg, max).done
  {
    if seg.Plain? && |seg.line| + 1 > max {
      PiecesGrow(Room(st, |seg.line| + 1, max), seg.line, 0, max);
    }
  }

  lemma ReadNext(rules: Rules, lines: seq<string>, i: nat, st: State)
    requires i < |lines|
    ensures var seg := SegmentAt(rules, lines, i, st);
      && WellRead(rules, seg)
      && SolidAll(lines[..Next(rules, lines, i, st)]) == SolidAll(lines[..i]) + SolidAll(SegmentLines(seg))
  {
    var seg, e := SegmentAt(rules, lines, i, st), Next(rules, lines, i, st);
    assert lines[..e] == lines[..i] + SegmentLines(seg);
    FlatMapAppend(Solid, lines[..i], SegmentLines(seg));
  }

  // ---------- the entry point ----------

  /** Whether the structure of the text gives the chunks. */
  predicate ByStructure(rules: Rules, text: string, size: Size)
  {
    size < |text| && 1 < |StructureChunks(rules, text, size)|
  }

  /** The chunks of a text show its structure's content, or all of its content and an
      overlap of limited length before each further chunk. */
  lemma SimpleChunksContent(rules: Rules, text: string, size: Size, overlap: int)
    ensures var chunks := SimpleChunks(rules, text, size, overlap);
      && (ByStructure(rules, text, size) ==> SolidAll(chunks) == ShownAll(rules, Outcome(rules, text, size).read, size))
      && (|text| <= size ==> SolidAll(chunks) == Solid(text))
      && (size < |text| && !ByStructure(rules, text, size) ==> chunks == LC.LineChunks(text, size, overlap))
  {
    ContentShown(rules, text, size);
    FallbackIff(rules, text, size);
    FlatMapOne(Solid, text);
  }

  /** The chunks without the overlap that is repeated before them. */
  function Unrepeated(rules: Rules, text: string, size: Size): seq<string>
  {
    if ByStructure(rules, text, size) then StructureChunks(rules, text, size)
    else if |text| <= size then [text]
    else LC.BaseChunks(text, size)
  }

  /** A run that is split into one block at most shows no more than it holds. */
  lemma RunShownOnce(rules: Rules, rows: seq<string>, max: Size)
    requires Oversized(rows, max) && |SubTables(rules, rows, max)| <= 1
    ensures |Shown(rules, Run(rows), max)| <= |SolidAll(rows)|
  {
    var n, subs := HeaderRows(rules, rows), SubTables(rules, rows, max);
    SplitBehindHeader(rules, rows, max);
    if subs != [] {
      assert subs[1..] == [];
      TableContent(rows, n, subs, rows[..n]);
      assert subs == [subs[0]];
      FlatMapOne(SolidGroup, subs[0]);
    }
  }

  predicate OneBlockEach(rules: Rules, segs: seq<Segment>, max: Size)
  {
    forall k :: 0 <= k < |segs| ==> segs[k].Run? && Oversized(segs[k].rows, max) ==>
      |SubTables(rules, segs[k].rows, max)| <= 1
  }

  lemma SegmentShownOnce(rules: Rules, seg: Segment, max: Size)
    requires seg.Run? && Oversized(seg.rows, max) ==> |SubTables(rules, seg.rows, max)| <= 1
    ensures |Shown(rules, seg, max)| <= |SolidAll(SegmentLines(seg))|
  {
    if seg.Run? && Oversized(seg.rows, max) {
      RunShownOnce(rules, seg.rows, max);
    } else {
      ShownOne(rules, seg, max);
    }
  }

  lemma LinesSnoc(init: seq<Segment>, last: Segment)
    ensures SolidAll(FlatMap(SegmentLines, init + [last]))
         == SolidAll(FlatMap(SegmentLines, init)) + SolidAll(SegmentLines(last))
  {
    FlatMapSnoc(SegmentLines, init, last);
    FlatMapAppend(Solid, FlatMap(SegmentLines, init), SegmentLines(last));
  }

  lemma {:induction false} ShownOnce(rules: Rules, segs: seq<Segment>, max: Size)
    requires OneBlockEach(rules, segs, max)
    ensures |ShownAll(rules, segs, max)| <= |SolidAll(FlatMap(SegmentLines, segs))|
    decreases |segs|
  {
    if segs != [] {
      var init, last := segs[..|segs| - 1], segs[|segs| - 1];
      assert OneBlockEach(rules, init, max);
      ShownOnce(rules, init, max);
      SegmentShownOnce(rules, last, max);
      assert segs == init + [last];
      LinesSnoc(init, last);
    }
  }

  /** There are as many chunks as blocks of any one table. */
  predicate BlocksEmitted(rules: Rules, st: State, max: Size)
  {
    forall k :: 0 <= k < |st.read| ==> st.read[k].Run? && Oversized(st.read[k].rows, max) ==>
      |SubTables(rules, st.read[k].rows, max)| <= |ChunksOf(st.done)|
  }

  lemma MoreChunks(a: seq<Group>, b: seq<Group>)
    requires a <= b
    ensures |ChunksOf(a)| <= |ChunksOf(b)|
  {
    assert b == a + b[|a|..];
    FlatMapAppend(ChunkOf, a, b[|a|..]);
  }

  lemma {:induction false} EachBlockEmitted(header: seq<string>, subs: seq<Group>, max: Size)
    requires forall k :: 0 <= k < |subs| ==> IsBlock(subs[k], header, max) && GroupText(subs[k]) != ""
    ensures |ChunksOf(subs)| == |subs|
    decreases |subs|
  {
    if subs != [] {
      EachBlockEmitted(header, subs[1..], max);
    }
  }

  lemma TableEmitted(rules: Rules, rows: seq<string>, max: Size)
    requires WellRead(rules, Run(rows))
    ensures |ChunksOf(SubTables(rules, rows, max))| == |SubTables(rules, rows, max)|
  {
    var header, subs := rows[..HeaderRows(rules, rows)], SubTables(rules, rows, max);
    SplitBehindHeader(rules, rows, max);
    forall k | 0 <= k < |subs| ensures GroupText(subs[k]) != "" {
      BlockShown(rules, header, subs[k], max);
    }
    EachBlockEmitted(header, subs, max);
  }

  lemma AddEmits(rules: Rules, st: State, seg: Segment, max: Size)
    requires BlocksEmitted(rules, st, max) && WellRead(rules, seg)
    ensures BlocksEmitted(rules, Add(rules, st, seg, max), max)
  {
    var st' := Add(rules, st, seg, max);
    if seg.Run? && Oversized(seg.rows, max) {
      TableEmitted(rules, seg.rows, max);
      FlatMapAppend(ChunkOf, Flush(st).done, SubTables(rules, seg.rows, max));
      MoreChunks(st.done, Flush(st).done);
    } else {
      AddGrows(rules, st, seg, max);
      MoreChunks(st.done, st'.done);
    }
  }

  lemma {:induction false} WalkEmits(rules: Rules, lines: seq<string>, i: nat, st: State, max: Size)
    requires i <= |lines| && BlocksEmitted(rules, st, max)
    ensures BlocksEmitted(rules, Walk(rules, lines, i, st, max), max)
    decreases |lines| - i
  {
    if i == |lines| {
      MoreChunks(st.done, Flush(st).done);
    } else {
      var seg := SegmentAt(rules, lines, i, st);
      ReadNext(rules, lines, i, st);
      AddEmits(rules, st, seg, max);
      WalkEmits(rules, lines, Next(rules, lines, i, st), Add(rules, st, seg, max), max);
    }
  }

  /** The other segments hold less than the text. */
  lemma OthersHoldLess(rules: Rules, text: string, max: Size, k: int)
    requires var read := Outcome(rules, text, max).read;
      0 <= k < |read| && read[k].Run?
    ensures var read := Outcome(rules, text, max).read;
      |SolidAll(FlatMap(SegmentLines, read[..k]))| + |SolidAll(FlatMap(SegmentLines, read[k + 1..]))| < |Solid(text)|
  {
    var read := Outcome(rules, text, max).read;
    var before, rows, after := FlatMap(SegmentLines, read[..k]), read[k].rows, FlatMap(SegmentLines, read[k + 1..]);
    TextIsRead(rules, text, max);
    FlatMapAt(SegmentLines, read, k);
    SolidJoin(before + (rows + after));
    FlatMapAppend(Solid, before, rows + after);
    FlatMapAppend(Solid, rows, after);
    assert WellRead(rules, read[k]);
    TableHasContent(rules, rows);
  }

  lemma RunWithinText(rules: Rules, text: string, max: Size, k: int)
    requires var read := Outcome(rules, text, max).read;
      0 <= k < |read| && read[k].Run?
    ensures |Join(Outcome(rules, text, max).read[k].rows)| <= |text|
  {
    var read := Outcome(rules, text, max).read;
    var before, rows, after := FlatMap(SegmentLines, read[..k]), read[k].rows, FlatMap(SegmentLines, read[k + 1..]);
    TextIsRead(rules, text, max);
    FlatMapAt(SegmentLines, read, k);
    WeightAppend(before, rows + after);
    WeightAppend(rows, after);
    JoinLength(rows);
    JoinLength(before + (rows + after));
    assert rows != [] by { assert WellRead(rules, read[k]); }
  }

  /** Over the limit and read as one chunk, a text is split by lines and keeps the table. */
  lemma TableKept(rules: Rules, text: string, size: Size, k: int)
    requires !ByStructure(rules, text, size)
    requires var read := Outcome(rules, text, size).read;
      0 <= k < |read| && read[k].Run? && Oversized(read[k].rows, size)
    ensures var read := Outcome(rules, text, size).read;
      |ShownAll(rules, read[..k], size)| + |ShownAll(rules, read[k + 1..], size)| < |Solid(text)|
  {
    var read := Outcome(rules, text, size).read;
    OthersHoldLess(rules, text, size, k);
    RunWithinText(rules, text, size, k);
    assert |StructureChunks(rules, text, size)| <= 1;
    WalkEmits(rules, Split(text), 0, EMPTY, size);
    assert OneBlockEach(rules, read, size);
    ShownOnce(rules, read[..k], size);
    ShownOnce(rules, read[k + 1..], size);
  }

  /** An over-large table is lost exactly when it has no row after its header and at least two
      chunks are emitted: a single one makes the program split the text by lines instead. */
  lemma TableLostIff(rules: Rules, text: string, size: Size, k: int)
    requires var read := Outcome(rules, text, size).read;
      0 <= k < |read| && read[k].Run? && Oversized(read[k].rows, size)
    ensures var read := Outcome(rules, text, size).read;
      SolidAll(Unrepeated(rules, text, size))
        == ShownAll(rules, read[..k], size) + ShownAll(rules, read[k + 1..], size)
      <==> HeaderOnly(rules, read[k].rows) && ByStructure(rules, text, size)
  {
    FallbackIff(rules, text, size);
    if ByStructure(rules, text, size) {
      TableDroppedIff(rules, text, size, k);
    } else {
      TableKept(rules, text, size, k);
      LC.ContentConserved(text, size);
      FlatMapOne(Solid, text);
    }
  }
}
