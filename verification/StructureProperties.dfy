/** What structure chunking promises: the text is read completely and in order, its content
    is conserved, and over-large tables keep their header and all data rows, unless they
    have no data row at all. */
module StructureProperties {
  import opened Numbers
  import opened Text
  import opened StructureChunker
  import LC = LineChunker

  // ---------- the reading is faithful ----------

  function SegmentLines(seg: Segment): seq<string>
  {
    match seg
    case Heading(line) => [line]
    case Plain(line) => [line]
    case Run(rows) => rows
  }

  predicate WellRead(rules: Rules, seg: Segment)
  {
    match seg
    case Heading(line) => IsHeading(rules, line)
    case Plain(line) => !InTable(rules, line)
    case Run(rows) => rows != [] && forall k :: 0 <= k < |rows| ==> InTable(rules, rows[k])
  }

  predicate AllWellRead(rules: Rules, segs: seq<Segment>)
  {
    forall k :: 0 <= k < |segs| ==> WellRead(rules, segs[k])
  }

  lemma {:induction false} WalkReads(rules: Rules, lines: seq<string>, i: nat, st: State, max: Size)
    requires i <= |lines| && FlatMap(SegmentLines, st.read) == lines[..i] && AllWellRead(rules, st.read)
    ensures var end := Walk(rules, lines, i, st, max);
      FlatMap(SegmentLines, end.read) == lines && AllWellRead(rules, end.read)
    decreases |lines| - i
  {
    if i == |lines| {
      assert lines[..i] == lines;
    } else {
      var seg := SegmentAt(rules, lines, i, st);
      FlatMapSnoc(SegmentLines, st.read, seg);
      WalkReads(rules, lines, Next(rules, lines, i, st), Add(rules, st, seg, max), max);
    }
  }

  /** The segments, put back together, are the text; each is what its kind says. */
  lemma TextIsRead(rules: Rules, text: string, max: Size)
    ensures Join(FlatMap(SegmentLines, Outcome(rules, text, max).read)) == text
    ensures AllWellRead(rules, Outcome(rules, text, max).read)
  {
    assert Split(text)[..0] == [];
    WalkReads(rules, Split(text), 0, EMPTY, max);
    JoinSplit(text);
  }

  // ---------- content ----------

  function SolidItem(it: Item): string { SolidAll(ItemLines(it)) }

  function SolidGroup(g: Group): string
  {
    match g
    case Chunk(items) => FlatMap(SolidItem, items)
    case SubTable(header, rows) => SolidAll(header) + SolidAll(rows)
  }

  /** The content the output shows for a segment: its own, except that an over-large table
      shows its header before every block of data rows. */
  function Shown(rules: Rules, seg: Segment, max: Size): string
  {
    match seg
    case Heading(line) => Solid(line)
    case Plain(line) => Solid(line)
    case Run(rows) =>
      if Oversized(rows, max) then FlatMap(SolidGroup, SubTables(rules, rows, max)) else SolidAll(rows)
  }

  function ShownAll(rules: Rules, segs: seq<Segment>, max: Size): string
  {
    if segs == [] then ""
    else ShownAll(rules, segs[..|segs| - 1], max) + Shown(rules, segs[|segs| - 1], max)
  }

  /** The content a state holds, emitted or not. */
  function Content(st: State): string
  {
    FlatMap(SolidGroup, st.done) + FlatMap(SolidItem, st.current)
  }

  lemma FlushContent(st: State)
    ensures Content(Flush(st)) == Content(st)
    ensures FlatMap(SolidGroup, Flush(st).done) == Content(st)
  {
    FlatMapSnoc(SolidGroup, st.done, Chunk(st.current));
    assert Content(Flush(st)) == FlatMap(SolidGroup, Flush(st).done) + "";
    if st.current == [] {
      assert Content(st) == FlatMap(SolidGroup, st.done) + "";
    }
  }

  lemma AppendContent(st: State, it: Item)
    ensures Content(Append(st, it)) == Content(st) + SolidItem(it)
  {
    FlatMapSnoc(SolidItem, st.current, it);
    Assoc(FlatMap(SolidGroup, st.done), FlatMap(SolidItem, st.current), SolidItem(it));
  }

  lemma LineContent(s: string)
    ensures SolidItem(Line(s)) == Solid(s)
  {
    FlatMapOne(Solid, s);
  }

  lemma AddPieceContent(st: State, piece: string, max: Size)
    ensures Content(AddPiece(st, piece, max)) == Content(st) + Solid(piece)
  {
    FlushContent(st);
    if Strip(piece) == "" {
      SolidStrip(piece);
      assert Content(st) + "" == Content(st);
    } else {
      AppendContent(Room(st, |piece|, max), Line(piece));
      LineContent(piece);
    }
  }

  lemma {:induction false} AddPiecesContent(st: State, line: string, pos: nat, max: Size)
    requires pos <= |line|
    ensures Content(AddPieces(st, line, pos, max)) == Content(st) + Solid(line[pos..])
    decreases |line| - pos
  {
    if pos == |line| {
      assert line[pos..] == "";
      assert Content(st) + "" == Content(st);
    } else {
      var end := LC.SliceEnd(line, pos, max);
      var head, tail := line[pos..end], line[end..];
      AddPieceContent(st, head, max);
      AddPiecesContent(AddPiece(st, head, max), line, end, max);
      assert line[pos..] == head + tail;
      SolidAppend(head, tail);
      Assoc(Content(st), Solid(head), Solid(tail));
    }
  }

  lemma AddPlainContent(st: State, line: string, max: Size)
    ensures Content(AddPlain(st, line, max)) == Content(st) + Solid(line)
  {
    FlushContent(st);
    var open := Room(st, |line| + 1, max);
    if |line| + 1 > max {
      AddPiecesContent(open, line, 0, max);
      assert line[0..] == line;
    } else {
      AppendContent(open, Line(line));
      LineContent(line);
    }
  }

  lemma AddTableContent(rules: Rules, st: State, rows: seq<string>, max: Size)
    ensures Content(AddTable(rules, st, rows, max)) == Content(st) + Shown(rules, Run(rows), max)
  {
    FlushContent(st);
    if Oversized(rows, max) {
      var done, subs := Flush(st).done, SubTables(rules, rows, max);
      FlatMapAppend(SolidGroup, done, subs);
      assert Content(AddTable(rules, st, rows, max)) == FlatMap(SolidGroup, done + subs) + "";
    } else {
      AppendContent(Room(st, |Join(rows)|, max), Table(rows));
    }
  }

  lemma AddContent(rules: Rules, st: State, seg: Segment, max: Size)
    ensures Content(Add(rules, st, seg, max)) == Content(st) + Shown(rules, seg, max)
  {
    match seg {
      case Heading(line) => FlushContent(st); AppendContent(Flush(st), Line(line)); LineContent(line);
      case Plain(line) => AddPlainContent(st, line, max);
      case Run(rows) => AddTableContent(rules, st, rows, max);
    }
  }

  lemma {:induction false} WalkContent(rules: Rules, lines: seq<string>, i: nat, st: State, max: Size)
    requires i <= |lines| && Content(st) == ShownAll(rules, st.read, max)
    ensures var end := Walk(rules, lines, i, st, max);
      FlatMap(SolidGroup, end.done) == ShownAll(rules, end.read, max)
    decreases |lines| - i
  {
    if i == |lines| {
      FlushContent(st);
    } else {
      var seg := SegmentAt(rules, lines, i, st);
      AddContent(rules, st, seg, max);
      assert (st.read + [seg])[..|st.read|] == st.read;
      WalkContent(rules, lines, Next(rules, lines, i, st), Add(rules, st, seg, max), max);
    }
  }

  lemma {:induction false} ItemsContent(items: seq<Item>)
    ensures SolidAll(FlatMap(ItemLines, items)) == FlatMap(SolidItem, items)
  {
    FlatMapFuse(ItemLines, Solid, SolidItem, items);
  }

  lemma ChunkOfContent(g: Group)
    ensures SolidAll(ChunkOf(g)) == SolidGroup(g)
  {
    match g {
      case Chunk(items) =>
        SolidStrip(Join(FlatMap(ItemLines, items)));
        SolidJoin(FlatMap(ItemLines, items));
        ItemsContent(items);
      case SubTable(header, rows) =>
        SolidStrip(Join(header) + "\n" + Join(rows));
        SolidAppend(Join(header) + "\n", Join(rows));
        SolidNewline(Join(header));
        SolidJoin(header);
        SolidJoin(rows);
    }
    FlatMapOne(Solid, GroupText(g));
  }

  lemma ChunksContent(groups: seq<Group>)
    ensures SolidAll(ChunksOf(groups)) == FlatMap(SolidGroup, groups)
  {
    forall g: Group ensures SolidAll(ChunkOf(g)) == SolidGroup(g) { ChunkOfContent(g); }
    FlatMapFuse(ChunkOf, Solid, SolidGroup, groups);
  }

  lemma EmittedContent(rules: Rules, text: string, max: Size)
    ensures var out := Outcome(rules, text, max);
      SolidAll(ChunksOf(out.done)) == ShownAll(rules, out.read, max)
  {
    WalkContent(rules, Split(text), 0, EMPTY, max);
    ChunksContent(Outcome(rules, text, max).done);
  }

  // ---------- the fallback ----------

  /** No row is left for data: the first separator is the last row, or there are at most two
      rows and no separator before the last. */
  predicate HeaderOnly(rules: Rules, rows: seq<string>)
  {
    && (forall j :: 0 <= j < |rows| - 1 ==> !IsSeparator(rules, rows[j]))
    && (|rows| <= 2 || IsSeparator(rules, rows[|rows| - 1]))
  }

  /** Nothing of the segment is emitted: a blank line, or an over-large table without a row
      after its header. */
  predicate Silent(rules: Rules, seg: Segment, max: Size)
  {
    match seg
    case Heading(line) => Strip(line) == ""
    case Plain(line) => Strip(line) == ""
    case Run(rows) => Oversized(rows, max) && HeaderOnly(rules, rows)
  }

  predicate AllSilent(rules: Rules, segs: seq<Segment>, max: Size)
  {
    forall k :: 0 <= k < |segs| ==> Silent(rules, segs[k], max)
  }

  lemma SolidEmptyIff(s: string)
    ensures Solid(s) == "" <==> Strip(s) == ""
  {
    SolidStrip(s);
    StripTrims(s);
  }

  lemma TableHasContent(rules: Rules, rows: seq<string>)
    requires rows != [] && InTable(rules, rows[0])
    ensures SolidAll(rows) != ""
  {
    SolidEmptyIff(rows[0]);
  }

  lemma ShownNothingIff(rules: Rules, seg: Segment, max: Size)
    requires WellRead(rules, seg)
    ensures Shown(rules, seg, max) == "" <==> Silent(rules, seg, max)
  {
    match seg {
      case Heading(line) => SolidEmptyIff(line);
      case Plain(line) => SolidEmptyIff(line);
      case Run(rows) =>
        TableHasContent(rules, rows);
        if Oversized(rows, max) {
          var n, subs := HeaderRows(rules, rows), SubTables(rules, rows, max);
          SplitBehindHeader(rules, rows, max);
          NoBlocksIff(rules, rows, max);
          if subs != [] {
            TableHasContent(rules, rows[..n]);
            assert SolidGroup(subs[0]) != "";
          }
        }
    }
  }

  lemma {:induction false} ShownAllNothingIff(rules: Rules, segs: seq<Segment>, max: Size)
    requires AllWellRead(rules, segs)
    ensures ShownAll(rules, segs, max) == "" <==> AllSilent(rules, segs, max)
    decreases |segs|
  {
    if segs != [] {
      var k := |segs| - 1;
      ShownAllNothingIff(rules, segs[..k], max);
      ShownNothingIff(rules, segs[k], max);
      SilentSnoc(rules, segs, max);
    }
  }

  lemma SilentSnoc(rules: Rules, segs: seq<Segment>, max: Size)
    requires segs != []
    ensures AllSilent(rules, segs, max) <==>
            AllSilent(rules, segs[..|segs| - 1], max) && Silent(rules, segs[|segs| - 1], max)
  {
    var init := segs[..|segs| - 1];
    assert forall k :: 0 <= k < |init| ==> init[k] == segs[k];
  }

  lemma {:induction false} ChunksHaveContent(groups: seq<Group>)
    ensures SolidAll(ChunksOf(groups)) == "" <==> ChunksOf(groups) == []
    decreases |groups|
  {
    if groups != [] {
      ChunksHaveContent(groups[1..]);
      var head, rest := ChunkOf(groups[0]), ChunksOf(groups[1..]);
      FlatMapAppend(Solid, head, rest);
      GroupTextTrim(groups[0]);
      SolidEmptyIff(GroupText(groups[0]));
      FlatMapOne(Solid, GroupText(groups[0]));
    }
  }

  lemma GroupTextTrim(g: Group)
    ensures Trim(GroupText(g)) && Strip(GroupText(g)) == GroupText(g)
  {
    match g {
      case Chunk(items) => StripTrims(Join(FlatMap(ItemLines, items)));
      case SubTable(header, rows) => StripTrims(Join(header) + "\n" + Join(rows));
    }
    TrimFixed(GroupText(g));
  }

  /** Nothing is emitted, so that the text itself is returned, exactly when the text consists
      of blank lines and over-large tables that have header rows only. */
  lemma FallbackIff(rules: Rules, text: string, max: Size)
    ensures var out := Outcome(rules, text, max);
      ChunksOf(out.done) == [] <==> AllSilent(rules, out.read, max)
  {
    var out := Outcome(rules, text, max);
    EmittedContent(rules, text, max);
    TextIsRead(rules, text, max);
    ShownAllNothingIff(rules, out.read, max);
    ChunksHaveContent(out.done);
  }

  /** The chunks show exactly the content of the text, segment by segment and in order, with
      each over-large table replaced by its sub-tables; only when that shows nothing at all,
      the one chunk is the text itself. */
  lemma ContentShown(rules: Rules, text: string, max: Size)
    ensures var out := Outcome(rules, text, max);
      SolidAll(StructureChunks(rules, text, max)) ==
        if AllSilent(rules, out.read, max) then Solid(text) else ShownAll(rules, out.read, max)
  {
    EmittedContent(rules, text, max);
    FallbackIff(rules, text, max);
    FlatMapOne(Solid, text);
  }

  predicate NoOversizedRun(segs: seq<Segment>, max: Size)
  {
    forall k :: 0 <= k < |segs| ==> segs[k].Run? ==> !Oversized(segs[k].rows, max)
  }

  lemma ShownOne(rules: Rules, seg: Segment, max: Size)
    requires seg.Run? ==> !Oversized(seg.rows, max)
    ensures Shown(rules, seg, max) == SolidAll(SegmentLines(seg))
  {
    if !seg.Run? {
      FlatMapOne(Solid, seg.line);
    }
  }

  lemma {:induction false} ShownPlainly(rules: Rules, segs: seq<Segment>, max: Size)
    requires NoOversizedRun(segs, max)
    ensures ShownAll(rules, segs, max) == SolidAll(FlatMap(SegmentLines, segs))
    decreases |segs|
  {
    if segs != [] {
      var init, seg := segs[..|segs| - 1], segs[|segs| - 1];
      assert segs == init + [seg];
      ShownPlainly(rules, init, max);
      ShownOne(rules, seg, max);
      FlatMapSnoc(SegmentLines, init, seg);
      FlatMapAppend(Solid, FlatMap(SegmentLines, init), SegmentLines(seg));
    }
  }

  /** Without an over-large table the chunks carry the content of the text exactly. */
  lemma ContentConserved(rules: Rules, text: string, max: Size)
    requires NoOversizedRun(Outcome(rules, text, max).read, max)
    ensures SolidAll(StructureChunks(rules, text, max)) == Solid(text)
  {
    var out := Outcome(rules, text, max);
    EmittedContent(rules, text, max);
    ShownPlainly(rules, out.read, max);
    TextIsRead(rules, text, max);
    SolidJoin(FlatMap(SegmentLines, out.read));
    FlatMapOne(Solid, text);
  }

  // ---------- over-large tables ----------

  function RowsOf(g: Group): seq<string>
  {
    match g
    case Chunk(items) => FlatMap(ItemLines, items)
    case SubTable(_, rows) => rows
  }

  predicate IsBlock(g: Group, header: seq<string>, max: Size)
  {
    && g.SubTable? && g.header == header && g.rows != []
    && (|g.rows| == 1 || |Join(header)| + 1 + Weight(g.rows) <= max)
  }

  lemma {:induction false} SubTablesSplit(header: seq<string>, data: seq<string>, i: nat, sub: seq<string>, max: Size)
    requires i <= |data| && (|sub| <= 1 || |Join(header)| + 1 + Weight(sub) <= max)
    ensures var subs := SubTablesFrom(header, data, i, sub, max);
      && FlatMap(RowsOf, subs) == sub + data[i..]
      && forall k :: 0 <= k < |subs| ==> IsBlock(subs[k], header, max)
    decreases |data| - i
  {
    if i == |data| {
      assert data[i..] == [];
      if sub != [] {
        FlatMapOne(RowsOf, SubTable(header, sub));
      }
    } else {
      assert data[i..] == [data[i]] + data[i + 1..];
      WeightSnoc(sub, data[i]);
      if |Join(header)| + 1 + Weight(sub) + |data[i]| + 1 > max && sub != [] {
        var rest := SubTablesFrom(header, data, i + 1, [data[i]], max);
        SubTablesSplit(header, data, i + 1, [data[i]], max);
        FlatMapAppend(RowsOf, [SubTable(header, sub)], rest);
        FlatMapOne(RowsOf, SubTable(header, sub));
      } else {
        SubTablesSplit(header, data, i + 1, sub + [data[i]], max);
        Assoc(sub, [data[i]], data[i + 1..]);
      }
    }
  }

  lemma SplitBehindHeader(rules: Rules, rows: seq<string>, max: Size)
    ensures var n := HeaderRows(rules, rows);
      var subs := SubTables(rules, rows, max);
      && FlatMap(RowsOf, subs) == rows[n..]
      && forall k :: 0 <= k < |subs| ==> IsBlock(subs[k], rows[..n], max)
  {
    var n := HeaderRows(rules, rows);
    SubTablesSplit(rows[..n], rows[n..], 0, [], max);
    assert rows[n..][0..] == rows[n..] && [] + rows[n..] == rows[n..];
  }

  /** Where the header of a table ends: after the first separator, or, when there is none,
      after two rows. */
  predicate HeaderEnds(rules: Rules, rows: seq<string>, n: nat)
  {
    && n <= |rows|
    && (forall j :: 0 <= j < n - 1 ==> !IsSeparator(rules, rows[j]))
    && ((0 < n && IsSeparator(rules, rows[n - 1])) ||
        (n == Min(2, |rows|) && forall j :: 0 <= j < |rows| ==> !IsSeparator(rules, rows[j])))
  }

  lemma HeaderEndsIff(rules: Rules, rows: seq<string>, n: nat)
    ensures HeaderEnds(rules, rows, n) <==> n == HeaderRows(rules, rows)
  {
    var sep := FirstSeparator(rules, rows);
    if HeaderEnds(rules, rows, n) && 0 < n && IsSeparator(rules, rows[n - 1]) {
      assert sep <= n - 1;
    }
  }

  /** No block could take the first row of the next one. */
  predicate TightBlocks(header: seq<string>, subs: seq<Group>, max: Size)
  {
    forall k :: 0 < k < |subs| ==> Filled(header, subs[k - 1], subs[k], max)
  }

  predicate Filled(header: seq<string>, g: Group, next: Group, max: Size)
  {
    && IsBlock(g, header, max) && IsBlock(next, header, max)
    && max < |Join(header)| + 1 + Weight(g.rows) + |next.rows[0]| + 1
  }

  lemma TightCons(header: seq<string>, g: Group, rest: seq<Group>, max: Size)
    requires TightBlocks(header, rest, max) && rest != [] && Filled(header, g, rest[0], max)
    ensures TightBlocks(header, [g] + rest, max)
  {
    var subs := [g] + rest;
    forall k | 0 < k < |subs| ensures Filled(header, subs[k - 1], subs[k], max) {
      if k > 1 {
        assert Filled(header, rest[k - 2], rest[k - 1], max);
      }
    }
  }

  lemma {:induction false} FirstBlockStarts(header: seq<string>, data: seq<string>, i: nat, sub: seq<string>, max: Size)
    requires i <= |data| && sub != []
    ensures var subs := SubTablesFrom(header, data, i, sub, max);
      subs != [] && subs[0].SubTable? && subs[0].rows != [] && subs[0].rows[0] == sub[0]
    decreases |data| - i
  {
    if i < |data| && |Join(header)| + 1 + Weight(sub) + |data[i]| + 1 <= max {
      FirstBlockStarts(header, data, i + 1, sub + [data[i]], max);
    }
  }

  lemma {:induction false} BlocksTight(header: seq<string>, data: seq<string>, i: nat, sub: seq<string>, max: Size)
    requires i <= |data| && (|sub| <= 1 || |Join(header)| + 1 + Weight(sub) <= max)
    ensures TightBlocks(header, SubTablesFrom(header, data, i, sub, max), max)
    decreases |data| - i
  {
    if i < |data| {
      WeightSnoc(sub, data[i]);
      if |Join(header)| + 1 + Weight(sub) + |data[i]| + 1 > max && sub != [] {
        var rest := SubTablesFrom(header, data, i + 1, [data[i]], max);
        SubTablesSplit(header, data, i + 1, [data[i]], max);
        FirstBlockStarts(header, data, i + 1, [data[i]], max);
        BlocksTight(header, data, i + 1, [data[i]], max);
        TightCons(header, SubTable(header, sub), rest, max);
      } else {
        BlocksTight(header, data, i + 1, sub + [data[i]], max);
      }
    }
  }

  /** An over-large table becomes blocks that partition its data rows in order, each behind
      the full header, which ends with the first separator or else after two rows. A block
      exceeds the limit only when it is a single row, and is filled as far as it can be. */
  lemma TableSplitsIntoBlocks(rules: Rules, rows: seq<string>, n: nat, max: Size)
    requires HeaderEnds(rules, rows, n)
    ensures var subs := SubTables(rules, rows, max);
      && FlatMap(RowsOf, subs) == rows[n..]
      && (forall k :: 0 <= k < |subs| ==> IsBlock(subs[k], rows[..n], max))
      && TightBlocks(rows[..n], subs, max)
  {
    HeaderEndsIff(rules, rows, n);
    SplitBehindHeader(rules, rows, max);
    BlocksTight(rows[..n], rows[n..], 0, [], max);
  }

  lemma HeaderOnlyIff(rules: Rules, rows: seq<string>)
    ensures HeaderOnly(rules, rows) <==> HeaderRows(rules, rows) == |rows|
  {
    HeaderEndsIff(rules, rows, |rows|);
  }

  lemma NoBlocksIff(rules: Rules, rows: seq<string>, max: Size)
    ensures SubTables(rules, rows, max) == [] <==> HeaderOnly(rules, rows)
  {
    var n := HeaderRows(rules, rows);
    HeaderOnlyIff(rules, rows);
    SplitBehindHeader(rules, rows, max);
    assert rows[n..] == [] <==> n == |rows|;
  }

  lemma {:induction false} ShownAllAppend(rules: Rules, a: seq<Segment>, b: seq<Segment>, max: Size)
    ensures ShownAll(rules, a + b, max) == ShownAll(rules, a, max) + ShownAll(rules, b, max)
    decreases |b|
  {
    if b == [] {
      assert a + b == a;
    } else {
      var init := b[..|b| - 1];
      ShownAllAppend(rules, a, init, max);
      assert (a + b)[..|a + b| - 1] == a + init;
      Assoc(ShownAll(rules, a, max), ShownAll(rules, init, max), Shown(rules, b[|b| - 1], max));
    }
  }

  lemma ShownAllSplit(rules: Rules, segs: seq<Segment>, k: int, max: Size)
    requires 0 <= k < |segs|
    ensures ShownAll(rules, segs, max) ==
      ShownAll(rules, segs[..k], max) + Shown(rules, segs[k], max) + ShownAll(rules, segs[k + 1..], max)
  {
    assert segs == segs[..k + 1] + segs[k + 1..];
    ShownAllAppend(rules, segs[..k + 1], segs[k + 1..], max);
    assert segs[..k + 1][..k] == segs[..k];
  }

  /** An over-large table contributes nothing to the chunks, not even its header, exactly
      when it has no row after its header and something else of the text is emitted. */
  lemma TableDroppedIff(rules: Rules, text: string, max: Size, k: int)
    requires var read := Outcome(rules, text, max).read;
      0 <= k < |read| && read[k].Run? && Oversized(read[k].rows, max)
    ensures var read := Outcome(rules, text, max).read;
      SolidAll(StructureChunks(rules, text, max))
        == ShownAll(rules, read[..k], max) + ShownAll(rules, read[k + 1..], max)
      <==> HeaderOnly(rules, read[k].rows) && !AllSilent(rules, read, max)
  {
    var read := Outcome(rules, text, max).read;
    TextIsRead(rules, text, max);
    ContentShown(rules, text, max);
    ShownAllSplit(rules, read, k, max);
    ShownNothingIff(rules, read[k], max);
    if AllSilent(rules, read, max) {
      SilentParts(rules, read, k, max);
      SegmentHasContent(rules, read, k);
      SolidJoin(FlatMap(SegmentLines, read));
    } else {
      CancelMiddle(ShownAll(rules, read[..k], max), Shown(rules, read[k], max), ShownAll(rules, read[k + 1..], max));
    }
  }

  lemma SilentParts(rules: Rules, segs: seq<Segment>, k: int, max: Size)
    requires AllWellRead(rules, segs) && AllSilent(rules, segs, max) && 0 <= k < |segs|
    ensures ShownAll(rules, segs[..k], max) == "" && ShownAll(rules, segs[k + 1..], max) == ""
  {
    ShownAllNothingIff(rules, segs[..k], max);
    ShownAllNothingIff(rules, segs[k + 1..], max);
  }

  lemma CancelMiddle(a: string, b: string, c: string)
    ensures a + b + c == a + c <==> b == ""
  {
    assert |a + b + c| == |a + c| + |b|;
    assert b == "" ==> a + b == a;
  }

  lemma {:induction false} SegmentHasContent(rules: Rules, segs: seq<Segment>, k: int)
    requires AllWellRead(rules, segs) && 0 <= k < |segs| && segs[k].Run?
    ensures SolidAll(FlatMap(SegmentLines, segs)) != ""
    decreases |segs|
  {
    FlatMapAppend(Solid, SegmentLines(segs[0]), FlatMap(SegmentLines, segs[1..]));
    if k == 0 {
      TableHasContent(rules, segs[0].rows);
    } else {
      SegmentHasContent(rules, segs[1..], k - 1);
    }
  }

  lemma TableBetweenLines(rules: Rules, a: string, row: string, b: string, max: Size)
    requires !InTable(rules, a) && !InTable(rules, b) && |a| < max && |b| < max
    requires InTable(rules, row) && !IsHeading(rules, row) && 2 * |row| > 3 * max
    ensures Walk(rules, [a, row, b], 0, EMPTY, max).done == [Chunk([Line(a)]), Chunk([Line(b)])]
  {
    var lines := [a, row, b];
    var st1 := Add(rules, EMPTY, Plain(a), max);
    assert [] + [Line(a)] == [Line(a)] && [] + [Line(b)] == [Line(b)];
    assert st1.done == [] && st1.current == [Line(a)];
    assert SegmentAt(rules, lines, 0, EMPTY) == Plain(a) && Next(rules, lines, 0, EMPTY) == 1;
    assert RunEnd(rules, lines, 2) == 2 && lines[1..2] == [row];
    assert SegmentAt(rules, lines, 1, st1) == Run([row]) && Next(rules, lines, 1, st1) == 2;
    NoBlocksIff(rules, [row], max);
    var st2 := Add(rules, st1, Run([row]), max);
    assert st2.done == [Chunk([Line(a)])] && st2.current == [];
    assert SegmentAt(rules, lines, 2, st2) == Plain(b) && Next(rules, lines, 2, st2) == 3;
    var st3 := Add(rules, st2, Plain(b), max);
    assert st3.done == st2.done && st3.current == [Line(b)];
    assert Walk(rules, lines, 3, st3, max) == Flush(st3);
    assert Walk(rules, lines, 2, st2, max) == Walk(rules, lines, 3, st3, max);
    assert Walk(rules, lines, 1, st1, max) == Walk(rules, lines, 2, st2, max);
    assert Walk(rules, lines, 0, EMPTY, max) == Walk(rules, lines, 1, st1, max);
  }

  lemma LineChunk(a: string)
    requires Strip(a) != ""
    ensures ChunkOf(Chunk([Line(a)])) == [Strip(a)]
  {
    FlatMapOne(ItemLines, Line(a));
  }

  /** Text that is lost: a large table of a single row between two lines. The two lines are all
      the chunks there are, whatever the overlap. */
  lemma LargeRowLost(rules: Rules, a: string, row: string, b: string, size: Size, overlap: int)
    requires '\n' !in a && '\n' !in row && '\n' !in b
    requires Strip(a) != "" && Strip(b) != "" && |a| < size && |b| < size
    requires !InTable(rules, a) && !InTable(rules, b)
    requires InTable(rules, row) && !IsHeading(rules, row) && 2 * |row| > 3 * size
    ensures SimpleChunks(rules, a + "\n" + (row + "\n" + b), size, overlap) == [Strip(a), Strip(b)]
  {
    var text := a + "\n" + (row + "\n" + b);
    SplitFirst(a, row + "\n" + b);
    SplitFirst(row, b);
    SplitLine(b);
    assert Split(text) == [a, row, b];
    TableBetweenLines(rules, a, row, b, size);
    LineChunk(a);
    LineChunk(b);
    var done := [Chunk([Line(a)]), Chunk([Line(b)])];
    FlatMapOne(ChunkOf, Chunk([Line(b)]));
    assert done[1..] == [Chunk([Line(b)])];
    assert ChunksOf(done) == [Strip(a)] + [Strip(b)];
    assert StructureChunks(rules, text, size) == [Strip(a), Strip(b)];
  }
}
