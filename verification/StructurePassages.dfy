/** The chunks by structure are passages of the text, in which each over-large table has been
    replaced by its blocks. */
module StructurePassages {
  import opened Numbers
  import opened Text
  import opened Passages
  import opened StructureChunker
  import opened StructureProperties
  import opened ChunkSizes
  import LC = LineChunker

  /** The lines of a block, behind the table's header. */
  function BlockLines(g: Group): string
  {
    match g
    case Chunk(items) => Ended(LinesOf(items))
    case SubTable(header, rows) => Ended(header + rows)
  }

  /** A segment as the chunks show it. */
  function LaidOut(rules: Rules, max: Size, seg: Segment): string
  {
    if seg.Run? && Oversized(seg.rows, max) then FlatMap(BlockLines, SubTables(rules, seg.rows, max))
    else Ended(SegmentLines(seg))
  }

  function AllLaidOut(rules: Rules, max: Size, segs: seq<Segment>): string
  {
    FlatMap((seg: Segment) => LaidOut(rules, max, seg), segs)
  }

  // ---------- the open chunk ----------

  ghost predicate FullTail(lines: seq<string>, rest: string)
  {
    exists w :: AllSpace(w) && rest == Join(lines) + w
  }

  /** The text after the passages emitted is the lines of the open chunk, or, when nothing more
      goes in, those lines and some whitespace. */
  ghost predicate Tail(items: seq<Item>, rest: string, max: Size)
  {
    rest == Ended(LinesOf(items)) || (items != [] && SizeOf(items) >= max && FullTail(LinesOf(items), rest))
  }

  /** The text so far: `shown` is emitted, `rest` is open. */
  ghost predicate SplitAs(text: string, st: State, shown: string, rest: string, max: Size)
  {
    text == shown + rest && PassagesOf(shown, ChunksOf(st.done)) && Tail(st.current, rest, max)
  }

  ghost predicate Open(text: string, st: State, max: Size)
  {
    exists shown, rest :: SplitAs(text, st, shown, rest, max)
  }

  lemma ChunkEmitted(items: seq<Item>)
    ensures ChunkOf(Chunk(items)) == Emit(Join(LinesOf(items)))
  {
  }

  lemma TailSpace(items: seq<Item>, rest: string, max: Size) returns (w: string)
    requires Tail(items, rest, max)
    ensures AllSpace(w) && rest == Join(LinesOf(items)) + w
  {
    if rest == Ended(LinesOf(items)) {
      if LinesOf(items) == [] {
        w := "";
      } else {
        EndedJoin(LinesOf(items));
        w := "\n";
      }
    } else {
      w :| AllSpace(w) && rest == Join(LinesOf(items)) + w;
    }
  }

  lemma GroupEmitted(shown: string, done: seq<Group>, items: seq<Item>, rest: string, max: Size)
    requires PassagesOf(shown, ChunksOf(done)) && Tail(items, rest, max)
    ensures PassagesOf(shown + rest, ChunksOf(done + [Chunk(items)]))
  {
    var raw := Join(LinesOf(items));
    var w := TailSpace(items, rest, max);
    PassagesThenStripped(shown, ChunksOf(done), raw);
    PassagesThenSpace(shown + raw, ChunksOf(done) + Emit(raw), w);
    Assoc(shown, raw, w);
    ChunkEmitted(items);
    FlatMapSnoc(ChunkOf, done, Chunk(items));
  }

  lemma OpenAfter(text: string, st: State, max: Size)
    requires PassagesOf(text, ChunksOf(st.done)) && st.current == []
    ensures Open(text, st, max)
  {
    assert text + "" == text;
    assert SplitAs(text, st, text, "", max);
  }

  lemma FlushOpen(text: string, st: State, max: Size)
    requires Open(text, st, max)
    ensures PassagesOf(text, ChunksOf(Flush(st).done)) && Flush(st).current == [] && Open(text, Flush(st), max)
  {
    var shown, rest :| SplitAs(text, st, shown, rest, max);
    if st.current == [] {
      assert rest == "" && shown + "" == shown;
    } else {
      GroupEmitted(shown, st.done, st.current, rest, max);
    }
    OpenAfter(text, Flush(st), max);
  }

  /** An element goes into an open chunk that has room. */
  lemma AppendOpen(text: string, st: State, it: Item, max: Size)
    requires Open(text, st, max) && SizeOf(st.current) < max
    ensures Open(text + Ended(ItemLines(it)), Append(st, it), max)
  {
    var shown, rest :| SplitAs(text, st, shown, rest, max);
    var more := Ended(ItemLines(it));
    FlatMapSnoc(ItemLines, st.current, it);
    FlatMapAppend(EndLine, LinesOf(st.current), ItemLines(it));
    Assoc(shown, rest, more);
    assert SplitAs(text + more, Append(st, it), shown, rest + more, max);
  }

  lemma SoloOpen(text: string, st: State, it: Item, max: Size)
    requires PassagesOf(text, ChunksOf(st.done)) && st.current == []
    ensures Open(text + Ended(ItemLines(it)), Append(st, it), max)
  {
    assert Append(st, it).current == [it];
    FlatMapOne(ItemLines, it);
    assert SplitAs(text + Ended(ItemLines(it)), Append(st, it), text, Ended(ItemLines(it)), max);
  }

  lemma PutOpen(text: string, st: State, it: Item, max: Size)
    requires Open(text, st, max) && 0 < ItemSize(it)
    ensures Open(text + Ended(ItemLines(it)), Append(Room(st, ItemSize(it), max), it), max)
  {
    FlushOpen(text, st, max);
    if SizeOf(st.current) + ItemSize(it) > max {
      SoloOpen(text, Flush(st), it, max);
    } else {
      AppendOpen(text, st, it, max);
    }
  }

  // ---------- a long line ----------

  /** A piece that fills its chunk, after which only whitespace can follow. */
  lemma PieceOpen(text: string, st: State, piece: string, more: string, max: Size)
    requires PassagesOf(text, ChunksOf(st.done)) && st.current == [] && AllSpace(more)
    requires max <= |piece| + 1 || more == "\n"
    ensures Open(text + piece + more, Append(st, Line(piece)), max)
  {
    var st' := Append(st, Line(piece));
    assert st'.current == [Line(piece)];
    FlatMapOne(ItemLines, Line(piece));
    SizeOne(Line(piece));
    FlatMapOne(EndLine, piece);
    assert FullTail([piece], piece + more);
    Assoc(text, piece, more);
    assert SplitAs(text + piece + more, st', text, piece + more, max);
  }

  /** Whitespace after a full chunk. */
  lemma SpaceOpen(text: string, st: State, more: string, max: Size)
    requires Open(text, st, max) && NoRoomLeft(st, max) && AllSpace(more)
    ensures Open(text + more, st, max)
  {
    var shown, rest :| SplitAs(text, st, shown, rest, max);
    if st.current == [] {
      assert rest == "" && shown + "" == shown;
      PassagesThenSpace(text, ChunksOf(st.done), more);
      OpenAfter(text + more, st, max);
    } else {
      var w := TailSpace(st.current, rest, max);
      Assoc(Join(LinesOf(st.current)), w, more);
      Assoc(shown, rest, more);
      assert AllSpace(w + more);
      assert FullTail(LinesOf(st.current), rest + more);
      assert SplitAs(text + more, st, shown, rest + more, max);
    }
  }

  lemma BlankSpace(s: string)
    requires Strip(s) == ""
    ensures AllSpace(s)
  {
    var before, chunk, after := StripPassage(s);
  }

  /** A piece that is not the rest of the line. */
  lemma FullPieceOpen(text: string, st: State, piece: string, max: Size)
    requires Open(text, st, max) && NoRoomLeft(st, max) && |piece| == max
    ensures Open(text + piece, AddPiece(st, piece, max), max) && NoRoomLeft(AddPiece(st, piece, max), max)
  {
    if Strip(piece) == "" {
      BlankSpace(piece);
      SpaceOpen(text, st, piece, max);
    } else {
      FlushOpen(text, st, max);
      PieceOpen(text, Flush(st), piece, "", max);
      assert text + piece + "" == text + piece;
      assert Room(st, |piece|, max) == Flush(st);
      SizeOne(Line(piece));
      assert Append(Flush(st), Line(piece)).current == [Line(piece)];
    }
  }

  lemma LastPieceOpen(text: string, st: State, piece: string, max: Size)
    requires Open(text, st, max) && NoRoomLeft(st, max) && 0 < |piece|
    ensures Open(text + piece + "\n", AddPiece(st, piece, max), max)
  {
    if Strip(piece) == "" {
      BlankSpace(piece);
      SpaceOpen(text, st, piece, max);
      SpaceOpen(text + piece, st, "\n", max);
    } else {
      FlushOpen(text, st, max);
      PieceOpen(text, Flush(st), piece, "\n", max);
      assert Room(st, |piece|, max) == Flush(st);
    }
  }

  lemma NextPrefix(text: string, line: string, pos: nat, end: nat)
    requires pos <= end <= |line|
    ensures text + line[..pos] + line[pos..end] == text + line[..end]
  {
    assert line[..pos] + line[pos..end] == line[..end];
    Assoc(text, line[..pos], line[pos..end]);
  }

  lemma {:induction false} PiecesOpen(text: string, st: State, line: string, pos: nat, max: Size)
    requires pos < |line| && Open(text + line[..pos], st, max) && NoRoomLeft(st, max)
    ensures Open(text + line + "\n", AddPieces(st, line, pos, max), max)
    decreases |line| - pos
  {
    var end := LC.SliceEnd(line, pos, max);
    var piece := line[pos..end];
    NextPrefix(text, line, pos, end);
    var next := AddPiece(st, piece, max);
    if end < |line| {
      FullPieceOpen(text + line[..pos], st, piece, max);
      PiecesOpen(text, next, line, end, max);
    } else {
      assert line[..end] == line;
      LastPieceOpen(text + line[..pos], st, piece, max);
      assert AddPieces(next, line, end, max) == next;
    }
  }

  lemma PlainOpen(text: string, st: State, line: string, max: Size)
    requires Open(text, st, max)
    ensures Open(text + Ended([line]), AddPlain(st, line, max), max)
  {
    FlatMapOne(EndLine, line);
    if |line| + 1 <= max {
      PutOpen(text, st, Line(line), max);
    } else {
      FlushOpen(text, st, max);
      var open := Flush(st);
      assert st.current == [] ==> Room(st, |line| + 1, max) == open;
      assert AddPlain(st, line, max) == AddPieces(open, line, 0, max);
      assert text + line[..0] == text;
      PiecesOpen(text, open, line, 0, max);
      Assoc(text, line, "\n");
    }
  }

  // ---------- tables ----------

  lemma BlockEmitted(text: string, chunks: seq<string>, header: seq<string>, g: Group, max: Size)
    requires PassagesOf(text, chunks) && IsBlock(g, header, max) && header != []
    ensures PassagesOf(text + BlockLines(g), chunks + ChunkOf(g))
  {
    PassagesThenLines(text, chunks, header + g.rows);
    JoinAppend(header, g.rows);
  }

  lemma {:induction false} BlocksEmitted(text: string, chunks: seq<string>, header: seq<string>, subs: seq<Group>, max: Size)
    requires PassagesOf(text, chunks) && header != []
    requires forall k :: 0 <= k < |subs| ==> IsBlock(subs[k], header, max)
    ensures PassagesOf(text + FlatMap(BlockLines, subs), chunks + ChunksOf(subs))
    decreases |subs|
  {
    if subs == [] {
      assert text + "" == text && chunks + [] == chunks;
    } else {
      var g, rest := subs[0], subs[1..];
      BlockEmitted(text, chunks, header, g, max);
      BlocksEmitted(text + BlockLines(g), chunks + ChunkOf(g), header, rest, max);
      Assoc(text, BlockLines(g), FlatMap(BlockLines, rest));
      Assoc(chunks, ChunkOf(g), ChunksOf(rest));
    }
  }

  lemma LargeTableOpen(rules: Rules, text: string, st: State, rows: seq<string>, max: Size)
    requires Open(text, st, max) && Oversized(rows, max) && rows != []
    ensures Open(text + LaidOut(rules, max, Run(rows)), AddTable(rules, st, rows, max), max)
  {
    var n, subs := HeaderRows(rules, rows), SubTables(rules, rows, max);
    FlushOpen(text, st, max);
    SplitBehindHeader(rules, rows, max);
    BlocksEmitted(text, ChunksOf(Flush(st).done), rows[..n], subs, max);
    FlatMapAppend(ChunkOf, Flush(st).done, subs);
    OpenAfter(text + FlatMap(BlockLines, subs), AddTable(rules, st, rows, max), max);
  }

  lemma RunNotEmpty(rules: Rules, rows: seq<string>)
    requires WellRead(rules, Run(rows))
    ensures 0 < |Join(rows)|
  {
    LineWithinJoin(rows, 0);
  }

  // ---------- the walk ----------

  lemma SegmentOpen(rules: Rules, text: string, st: State, seg: Segment, max: Size)
    requires Open(text, st, max) && WellRead(rules, seg)
    ensures Open(text + LaidOut(rules, max, seg), Add(rules, st, seg, max), max)
  {
    match seg {
      case Heading(line) =>
        FlushOpen(text, st, max);
        SoloOpen(text, Flush(st), Line(line), max);
        ReadIgnored(text + Ended([line]), AddHeading(st, line), st.read + [seg], max);
      case Plain(line) =>
        PlainOpen(text, st, line, max);
        ReadIgnored(text + Ended([line]), AddPlain(st, line, max), st.read + [seg], max);
      case Run(rows) =>
        if Oversized(rows, max) {
          LargeTableOpen(rules, text, st, rows, max);
        } else {
          RunNotEmpty(rules, rows);
          PutOpen(text, st, Table(rows), max);
        }
        ReadIgnored(text + LaidOut(rules, max, seg), AddTable(rules, st, rows, max), st.read + [seg], max);
    }
  }

  lemma ReadIgnored(text: string, st: State, read: seq<Segment>, max: Size)
    requires Open(text, st, max)
    ensures Open(text, st.(read := read), max)
  {
    var shown, rest :| SplitAs(text, st, shown, rest, max);
    assert SplitAs(text, st.(read := read), shown, rest, max);
  }

  lemma {:induction false} WalkOpen(rules: Rules, lines: seq<string>, i: nat, st: State, max: Size)
    requires i <= |lines| && Open(AllLaidOut(rules, max, st.read), st, max)
    ensures var end := Walk(rules, lines, i, st, max);
      PassagesOf(AllLaidOut(rules, max, end.read), ChunksOf(end.done))
    decreases |lines| - i
  {
    if i == |lines| {
      FlushOpen(AllLaidOut(rules, max, st.read), st, max);
    } else {
      var seg := SegmentAt(rules, lines, i, st);
      SegmentOpen(rules, AllLaidOut(rules, max, st.read), st, seg, max);
      FlatMapSnoc((s: Segment) => LaidOut(rules, max, s), st.read, seg);
      WalkOpen(rules, lines, Next(rules, lines, i, st), Add(rules, st, seg, max), max);
    }
  }

  /** Unless nothing is emitted, the chunks by structure are, in order, disjoint passages, with
      only whitespace between them, of the text in which each over-large table has been
      replaced by its blocks, each behind the table's header. */
  lemma StructureChunksPassages(rules: Rules, text: string, max: Size)
    requires !AllSilent(rules, Outcome(rules, text, max).read, max)
    ensures PassagesOf(AllLaidOut(rules, max, Outcome(rules, text, max).read), StructureChunks(rules, text, max))
  {
    FallbackIff(rules, text, max);
    OpenAfter("", EMPTY, max);
    WalkOpen(rules, Split(text), 0, EMPTY, max);
  }

  lemma {:induction false} PlainlyLaidOut(rules: Rules, segs: seq<Segment>, max: Size)
    requires NoOversizedRun(segs, max)
    ensures AllLaidOut(rules, max, segs) == Ended(FlatMap(SegmentLines, segs))
  {
    var lines := (seg: Segment) => Ended(SegmentLines(seg));
    FlatMapPaired((seg: Segment) => LaidOut(rules, max, seg), lines, segs, segs);
    FlatMapFuse(SegmentLines, EndLine, lines, segs);
  }

  lemma WholePassage(text: string)
    ensures PassagesOf(text, [text])
  {
    PassagesThenOne("", [], text);
    assert "" + text == text && [] + [text] == [text];
  }

  /** Without an over-large table they are passages of the text itself. */
  lemma TextPassages(rules: Rules, text: string, max: Size)
    requires NoOversizedRun(Outcome(rules, text, max).read, max)
    ensures PassagesOf(text, StructureChunks(rules, text, max))
  {
    var out := Outcome(rules, text, max);
    FallbackIff(rules, text, max);
    if AllSilent(rules, out.read, max) {
      WholePassage(text);
    } else {
      StructureChunksPassages(rules, text, max);
      LaidOutText(rules, text, max);
      ChunksTrimmed(out.done);
      PassagesWithoutEnd(text, "\n", ChunksOf(out.done));
    }
  }

  lemma LaidOutText(rules: Rules, text: string, max: Size)
    requires NoOversizedRun(Outcome(rules, text, max).read, max)
    ensures AllLaidOut(rules, max, Outcome(rules, text, max).read) == text + "\n"
  {
    var lines := FlatMap(SegmentLines, Outcome(rules, text, max).read);
    assert Split(text)[..0] == [];
    WalkReads(rules, Split(text), 0, EMPTY, max);
    PlainlyLaidOut(rules, Outcome(rules, text, max).read, max);
    EndedJoin(Split(text));
    JoinSplit(text);
  }

  lemma {:induction false} ChunksTrimmed(groups: seq<Group>)
    ensures forall k :: 0 <= k < |ChunksOf(groups)| ==> ChunksOf(groups)[k] != "" && Trim(ChunksOf(groups)[k])
    decreases |groups|
  {
    if groups != [] {
      ChunksTrimmed(groups[1..]);
      GroupTextTrim(groups[0]);
      assert ChunksOf(groups) == ChunkOf(groups[0]) + ChunksOf(groups[1..]);
    }
  }
}
