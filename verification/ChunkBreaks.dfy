/** Where chunks by structure begin and end: headings open chunks, a table that is not
    over-large stays whole, and a chunk is closed only when it must be. */
module ChunkBreaks {
  import opened Text
  import opened StructureChunker
  import opened StructureProperties
  import opened ChunkSizes
  import LC = LineChunker

  /** No heading is read inside a chunk: a line that is one, or a table that begins with one,
      is the first element of its chunk. */
  lemma HeadingsOpenChunks(rules: Rules, text: string, max: Size, items: seq<Item>, k: int)
    requires Chunk(items) in Outcome(rules, text, max).done && 0 < k < |items| && ItemLines(items[k]) != []
    ensures !IsHeading(rules, ItemLines(items[k])[0])
  {
    OutcomeFits(rules, text, max);
    assert GroupFits(rules, Chunk(items), max, |text| + 1);
    assert Later(rules, items[k]);
  }

  // ---------- runs of table lines are maximal ----------

  /** The segment does not continue the one before it. */
  predicate Apart(rules: Rules, before: Segment, seg: Segment)
  {
    before.Run? && SegmentLines(seg) != [] ==> !InTable(rules, SegmentLines(seg)[0])
  }

  predicate AllApart(rules: Rules, segs: seq<Segment>)
  {
    forall k :: 0 < k < |segs| ==> Apart(rules, segs[k - 1], segs[k])
  }

  lemma {:induction false} WalkApart(rules: Rules, lines: seq<string>, i: nat, st: State, max: Size)
    requires i <= |lines| && AllApart(rules, st.read)
    requires st.read != [] && st.read[|st.read| - 1].Run? && i < |lines| ==> !InTable(rules, lines[i])
    ensures AllApart(rules, Walk(rules, lines, i, st, max).read)
    decreases |lines| - i
  {
    if i < |lines| {
      var seg := SegmentAt(rules, lines, i, st);
      assert SegmentLines(seg)[0] == lines[i];
      var read := st.read + [seg];
      assert forall k :: 0 <= k < |st.read| ==> read[k] == st.read[k];
      WalkApart(rules, lines, Next(rules, lines, i, st), Add(rules, st, seg, max), max);
    }
  }

  /** A run of table lines ends only where the next line belongs to no table. */
  lemma RunsMaximal(rules: Rules, text: string, max: Size, k: int)
    requires 0 < k < |Outcome(rules, text, max).read|
    ensures var read := Outcome(rules, text, max).read;
      Apart(rules, read[k - 1], read[k])
  {
    WalkApart(rules, Split(text), 0, EMPTY, max);
  }

  // ---------- what chunks are made of ----------

  /** The m-th slice of an over-long line. */
  predicate PieceFrom(segs: seq<Segment>, line: string, m: nat, s: string, max: Size)
  {
    && Plain(line) in segs && |line| + 1 > max && m * max < |line|
    && s == line[m * max..LC.SliceEnd(line, m * max, max)] && Strip(s) != ""
  }

  /** An element is a line or a table as it was read, or a slice of a line over the limit. */
  ghost predicate ItemFrom(segs: seq<Segment>, it: Item, max: Size)
  {
    match it
    case Table(rows) => Run(rows) in segs
    case Line(s) =>
      Heading(s) in segs || (Plain(s) in segs && |s| + 1 <= max) || exists line, m: nat :: PieceFrom(segs, line, m, s, max)
  }

  ghost predicate ItemsFrom(segs: seq<Segment>, items: seq<Item>, max: Size)
  {
    forall k :: 0 <= k < |items| ==> ItemFrom(segs, items[k], max)
  }

  ghost predicate GroupsFrom(segs: seq<Segment>, groups: seq<Group>, max: Size)
  {
    forall k :: 0 <= k < |groups| && groups[k].Chunk? ==> ItemsFrom(segs, groups[k].items, max)
  }

  ghost predicate StateFrom(segs: seq<Segment>, st: State, max: Size)
  {
    GroupsFrom(segs, st.done, max) && ItemsFrom(segs, st.current, max)
  }

  lemma RoomFrom(segs: seq<Segment>, st: State, more: nat, it: Item, max: Size)
    requires StateFrom(segs, st, max) && ItemFrom(segs, it, max)
    ensures StateFrom(segs, Append(Room(st, more, max), it), max)
  {
  }

  lemma {:induction false} PiecesFrom(segs: seq<Segment>, st: State, line: string, m: nat, pos: nat, max: Size)
    requires StateFrom(segs, st, max) && Plain(line) in segs && |line| + 1 > max
    requires pos == m * max || pos == |line|
    ensures StateFrom(segs, AddPieces(st, line, pos, max), max)
    decreases |line| - pos
  {
    if pos < |line| {
      var end := LC.SliceEnd(line, pos, max);
      var piece := line[pos..end];
      if Strip(piece) != "" {
        assert PieceFrom(segs, line, m, piece, max);
        RoomFrom(segs, st, |piece|, Line(piece), max);
      }
      assert (m + 1) * max == m * max + max;
      PiecesFrom(segs, AddPiece(st, piece, max), line, m + 1, end, max);
    }
  }

  lemma AddFrom(rules: Rules, segs: seq<Segment>, st: State, seg: Segment, max: Size)
    requires StateFrom(segs, st, max) && seg in segs
    ensures StateFrom(segs, Add(rules, st, seg, max), max)
  {
    match seg {
      case Heading(line) =>
      case Plain(line) =>
        if |line| + 1 > max {
          PiecesFrom(segs, Room(st, |line| + 1, max), line, 0, 0, max);
        } else {
          RoomFrom(segs, st, |line| + 1, Line(line), max);
        }
      case Run(rows) =>
        if Oversized(rows, max) {
          NoChunks(rules, rows, max);
        } else {
          RoomFrom(segs, st, |Join(rows)|, Table(rows), max);
        }
    }
  }

  lemma NoChunks(rules: Rules, rows: seq<string>, max: Size)
    ensures forall k :: 0 <= k < |SubTables(rules, rows, max)| ==> SubTables(rules, rows, max)[k].SubTable?
  {
    SplitBehindHeader(rules, rows, max);
  }

  lemma MoreFrom(segs: seq<Segment>, more: seq<Segment>, it: Item, max: Size)
    requires ItemFrom(segs, it, max)
    ensures ItemFrom(segs + more, it, max)
  {
    if it.Line? {
      if line, m: nat :| PieceFrom(segs, line, m, it.s, max) {
        assert PieceFrom(segs + more, line, m, it.s, max);
      }
    }
  }

  lemma {:induction false} WalkFrom(rules: Rules, lines: seq<string>, i: nat, st: State, max: Size)
    requires i <= |lines| && StateFrom(st.read, st, max)
    ensures var end := Walk(rules, lines, i, st, max);
      GroupsFrom(end.read, end.done, max)
    decreases |lines| - i
  {
    if i < |lines| {
      var seg := SegmentAt(rules, lines, i, st);
      forall it | ItemFrom(st.read, it, max) ensures ItemFrom(st.read + [seg], it, max) {
        MoreFrom(st.read, [seg], it, max);
      }
      assert (st.read + [seg])[|st.read|] == seg;
      AddFrom(rules, st.read + [seg], st, seg, max);
      WalkFrom(rules, lines, Next(rules, lines, i, st), Add(rules, st, seg, max), max);
    }
  }

  /** Every chunk consists of lines and tables as they stand in the text; only a line over the
      limit is sliced, into slices of exactly the limit and the rest. */
  lemma ElementsFromText(rules: Rules, text: string, max: Size, items: seq<Item>, k: int)
    requires Chunk(items) in Outcome(rules, text, max).done && 0 <= k < |items|
    ensures ItemFrom(Outcome(rules, text, max).read, items[k], max)
  {
    WalkFrom(rules, Split(text), 0, EMPTY, max);
  }

  // ---------- tables kept whole ----------

  ghost predicate Holds(groups: seq<Group>, it: Item)
  {
    exists g :: g in groups && g.Chunk? && it in g.items
  }

  /** Every table read so far that is not over-large is in a chunk or in the open one. */
  ghost predicate TablesHeld(st: State, max: Size)
  {
    forall rows :: Run(rows) in st.read && !Oversized(rows, max) ==>
      Table(rows) in st.current || Holds(st.done, Table(rows))
  }

  /** What is in a chunk, or in the open one, remains there. */
  ghost predicate Kept(st: State, after: State)
  {
    forall it :: it in st.current || Holds(st.done, it) ==> it in after.current || Holds(after.done, it)
  }

  lemma FlushKept(st: State)
    ensures Kept(st, Flush(st))
  {
    forall it | it in st.current || Holds(st.done, it) ensures Holds(Flush(st).done, it) {
      if it in st.current {
        assert Chunk(st.current) in Flush(st).done;
      } else {
        var g :| g in st.done && g.Chunk? && it in g.items;
        assert g in Flush(st).done;
      }
    }
  }

  lemma RoomAppendKept(st: State, more: nat, it: Item, max: Size)
    ensures Kept(st, Append(Room(st, more, max), it))
  {
    FlushKept(st);
  }

  lemma {:induction false} AddPiecesKept(st: State, line: string, pos: nat, max: Size)
    ensures Kept(st, AddPieces(st, line, pos, max))
    decreases |line| - pos
  {
    if pos < |line| {
      var end := LC.SliceEnd(line, pos, max);
      RoomAppendKept(st, |line[pos..end]|, Line(line[pos..end]), max);
      AddPiecesKept(AddPiece(st, line[pos..end], max), line, end, max);
    }
  }

  lemma MoreGroupsHold(groups: seq<Group>, more: seq<Group>)
    ensures forall it :: Holds(groups, it) ==> Holds(groups + more, it)
  {
    forall it | Holds(groups, it) ensures Holds(groups + more, it) {
      var g :| g in groups && g.Chunk? && it in g.items;
      assert g in groups + more;
    }
  }

  lemma AddKept(rules: Rules, st: State, seg: Segment, max: Size)
    ensures Kept(st, Add(rules, st, seg, max))
  {
    FlushKept(st);
    match seg {
      case Heading(line) =>
      case Plain(line) =>
        if |line| + 1 > max {
          AddPiecesKept(Room(st, |line| + 1, max), line, 0, max);
        }
      case Run(rows) =>
        if Oversized(rows, max) {
          FlushedAll(st);
          MoreGroupsHold(Flush(st).done, SubTables(rules, rows, max));
        } else {
          RoomAppendKept(st, |Join(rows)|, Table(rows), max);
        }
    }
  }

  lemma FlushedAll(st: State)
    ensures Flush(st).current == []
  {
  }

  lemma AddTablesHeld(rules: Rules, st: State, seg: Segment, max: Size)
    requires TablesHeld(st, max)
    ensures TablesHeld(Add(rules, st, seg, max), max)
  {
    AddKept(rules, st, seg, max);
    var after := Add(rules, st, seg, max);
    forall rows | Run(rows) in after.read && !Oversized(rows, max)
      ensures Table(rows) in after.current || Holds(after.done, Table(rows))
    {
      if Run(rows) !in st.read {
        assert after.current[|after.current| - 1] == Table(rows);
      }
    }
  }

  lemma {:induction false} WalkTablesHeld(rules: Rules, lines: seq<string>, i: nat, st: State, max: Size)
    requires i <= |lines| && TablesHeld(st, max)
    ensures TablesHeld(Walk(rules, lines, i, st, max), max) && Walk(rules, lines, i, st, max).current == []
    decreases |lines| - i
  {
    if i == |lines| {
      FlushKept(st);
    } else {
      var seg := SegmentAt(rules, lines, i, st);
      AddTablesHeld(rules, st, seg, max);
      WalkTablesHeld(rules, lines, Next(rules, lines, i, st), Add(rules, st, seg, max), max);
    }
  }

  /** A table is kept whole, in one chunk, exactly when it has at most one and a half times the
      limit. */
  lemma TableWholeIff(rules: Rules, text: string, max: Size, rows: seq<string>)
    requires Run(rows) in Outcome(rules, text, max).read
    ensures Holds(Outcome(rules, text, max).done, Table(rows)) <==> 2 * |Join(rows)| <= 3 * max
  {
    var done := Outcome(rules, text, max).done;
    WalkTablesHeld(rules, Split(text), 0, EMPTY, max);
    if g :| g in done && g.Chunk? && Table(rows) in g.items {
      OutcomeFits(rules, text, max);
      assert GroupFits(rules, g, max, |text| + 1);
      WithinSize(g.items, Table(rows));
    }
  }

  lemma {:induction false} WithinSize(items: seq<Item>, it: Item)
    requires it in items
    ensures ItemSize(it) <= SizeOf(items)
    decreases |items|
  {
    if it != items[|items| - 1] {
      WithinSize(items[..|items| - 1], it);
    }
  }

  // ---------- chunks closed only when they must be ----------

  /** Every segment goes into one chunk as it is. */
  predicate Uncut(segs: seq<Segment>, max: Size)
  {
    forall k :: 0 <= k < |segs| ==>
      match segs[k]
      case Heading(line) => true
      case Plain(line) => |line| + 1 <= max
      case Run(rows) => !Oversized(rows, max)
  }

  /** Why a chunk ends where the next begins: the next element does not fit any more, or is a
      heading. */
  predicate Closed(rules: Rules, a: Group, b: Group, max: Size)
  {
    && a.Chunk? && b.Chunk? && b.items != []
    && var it := b.items[0];
       SizeOf(a.items) + ItemSize(it) > max || (it.Line? && IsHeading(rules, it.s))
  }

  predicate AllClosed(rules: Rules, groups: seq<Group>, max: Size)
  {
    forall k :: 0 < k < |groups| ==> Closed(rules, groups[k - 1], groups[k], max)
  }

  predicate ClosedSoFar(rules: Rules, st: State, max: Size)
  {
    && AllClosed(rules, st.done, max)
    && (st.done != [] ==>
          st.current != [] && Closed(rules, st.done[|st.done| - 1], Chunk(st.current), max))
  }

  lemma PutClosed(rules: Rules, st: State, it: Item, max: Size)
    requires ClosedSoFar(rules, st, max)
    ensures ClosedSoFar(rules, Append(Room(st, ItemSize(it), max), it), max)
  {
    assert [it][0] == it;
  }

  lemma AddClosed(rules: Rules, st: State, seg: Segment, max: Size)
    requires Uncut(st.read, max) ==> ClosedSoFar(rules, st, max)
    requires seg.Heading? ==> IsHeading(rules, seg.line)
    ensures var after := Add(rules, st, seg, max);
      Uncut(after.read, max) ==> ClosedSoFar(rules, after, max)
  {
    if Uncut(st.read + [seg], max) {
      assert forall k :: 0 <= k < |st.read| ==> (st.read + [seg])[k] == st.read[k];
      assert (st.read + [seg])[|st.read|] == seg;
      match seg {
        case Heading(line) =>
        case Plain(line) => PutClosed(rules, st, Line(line), max);
        case Run(rows) => PutClosed(rules, st, Table(rows), max);
      }
    }
  }

  lemma {:induction false} WalkClosed(rules: Rules, lines: seq<string>, i: nat, st: State, max: Size)
    requires i <= |lines| && (Uncut(st.read, max) ==> ClosedSoFar(rules, st, max))
    ensures var end := Walk(rules, lines, i, st, max);
      Uncut(end.read, max) ==> AllClosed(rules, end.done, max)
    decreases |lines| - i
  {
    if i < |lines| {
      var seg := SegmentAt(rules, lines, i, st);
      AddClosed(rules, st, seg, max);
      WalkClosed(rules, lines, Next(rules, lines, i, st), Add(rules, st, seg, max), max);
    }
  }

  /** In a text without an over-large table or line a chunk is followed by another only when the
      element the next begins with does not fit any more, or is a heading. */
  lemma ChunksClosed(rules: Rules, text: string, max: Size, k: int)
    requires Uncut(Outcome(rules, text, max).read, max) && 0 < k < |Outcome(rules, text, max).done|
    ensures var done := Outcome(rules, text, max).done;
      Closed(rules, done[k - 1], done[k], max)
  {
    WalkClosed(rules, Split(text), 0, EMPTY, max);
  }
}
