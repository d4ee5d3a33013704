/** What becomes of a chunk that is split once more. */
module ChunkReread {
  import opened Numbers
  import opened Text
  import opened StructureChunker
  import opened StructureProperties
  import opened ChunkSizes
  import LC = LineChunker

  lemma {:induction false} FewChunks(groups: seq<Group>)
    ensures |ChunksOf(groups)| <= |groups|
    decreases |groups|
  {
    if groups != [] {
      FewChunks(groups[1..]);
    }
  }

  lemma {:induction false} RunToEnd(rules: Rules, lines: seq<string>, i: nat)
    requires TableWell(rules, lines) && i <= |lines|
    ensures RunEnd(rules, lines, i) == |lines|
    decreases |lines| - i
  {
    if i < |lines| {
      RunToEnd(rules, lines, i + 1);
    }
  }

  /** A text that is one table is read as that table. */
  lemma TableAlone(rules: Rules, lines: seq<string>, max: Size)
    requires TableWell(rules, lines)
    ensures Walk(rules, lines, 0, EMPTY, max).done ==
      if Oversized(lines, max) then SubTables(rules, lines, max) else [Chunk([Table(lines)])]
  {
    RunToEnd(rules, lines, 1);
    assert lines[0..|lines|] == lines;
    assert SegmentAt(rules, lines, 0, EMPTY) == Run(lines) && Next(rules, lines, 0, EMPTY) == |lines|;
    var st := Add(rules, EMPTY, Run(lines), max);
    assert Walk(rules, lines, |lines|, st, max) == Flush(st);
    assert [] + [Table(lines)] == [Table(lines)];
  }

  lemma {:induction false} SameSeparators(rules: Rules, a: seq<string>, b: seq<string>)
    requires |a| == |b| && forall k :: 0 <= k < |a| ==> Strip(a[k]) == Strip(b[k])
    ensures FirstSeparator(rules, a) == FirstSeparator(rules, b)
    decreases |a|
  {
    if a != [] {
      SameSeparators(rules, a[1..], b[1..]);
    }
  }

  /** A header with a single row is not split any further. */
  lemma BlockAlone(rules: Rules, header: seq<string>, row: string, max: Size)
    requires header != [] && TableWell(rules, header + [row]) && HeaderRows(rules, header + [row]) == |header|
    ensures |StructureChunks(rules, GroupText(SubTable(header, [row])), max)| <= 1
  {
    var lines := header + [row];
    var ls := StripLines(lines);
    JoinAppend(header, [row]);
    assert GroupText(SubTable(header, [row])) == Join(ls);
    SplitJoin(ls);
    SameSeparators(rules, ls, lines);
    TableAlone(rules, ls, max);
    OneBlock(rules, ls, |header|, max);
    FewChunks(Outcome(rules, Join(ls), max).done);
  }

  lemma OneBlock(rules: Rules, ls: seq<string>, n: nat, max: Size)
    requires |ls| == n + 1 && HeaderRows(rules, ls) == n
    ensures |SubTables(rules, ls, max)| == 1
  {
    var header, data := ls[..n], ls[n..];
    assert data == [ls[n]] && [] + [ls[n]] == [ls[n]];
    assert SubTablesFrom(header, data, 1, [ls[n]], max) == [SubTable(header, [ls[n]])];
    assert SubTablesFrom(header, data, 0, [], max) == SubTablesFrom(header, data, 1, [ls[n]], max);
  }

  /** Pieces of a long line only. */
  predicate Pieces(items: seq<Item>, max: Size)
  {
    (forall k :: 0 <= k < |items| ==> items[k].Line?) && SizeOf(items) <= max + 1
  }

  predicate AllPieces(st: State, max: Size)
  {
    && Pieces(st.current, max)
    && forall k :: 0 <= k < |st.done| ==> st.done[k].Chunk? && st.done[k].items != [] && Pieces(st.done[k].items, max)
  }

  lemma FlushPieces(st: State, max: Size)
    requires AllPieces(st, max)
    ensures AllPieces(Flush(st), max)
  {
  }

  lemma MorePieces(st: State, piece: string, max: Size)
    requires AllPieces(st, max) && SizeOf(st.current) + |piece| <= max
    ensures AllPieces(Append(st, Line(piece)), max)
  {
    SizeSnoc(st.current, Line(piece));
  }

  lemma OnePiece(st: State, piece: string, max: Size)
    requires AllPieces(st, max) && |piece| <= max
    ensures AllPieces(AddPiece(st, piece, max), max)
  {
    if Strip(piece) != "" {
      if SizeOf(st.current) + |piece| > max {
        FlushPieces(st, max);
        MorePieces(Flush(st), piece, max);
      } else {
        MorePieces(st, piece, max);
      }
    }
  }

  lemma {:induction false} LongLineInPieces(st: State, line: string, pos: nat, max: Size)
    requires AllPieces(st, max)
    ensures AllPieces(AddPieces(st, line, pos, max), max)
    decreases |line| - pos
  {
    if pos < |line| {
      var end := LC.SliceEnd(line, pos, max);
      OnePiece(st, line[pos..end], max);
      LongLineInPieces(AddPiece(st, line[pos..end], max), line, end, max);
    }
  }

  lemma {:induction false} PiecesWeight(items: seq<Item>)
    requires forall k :: 0 <= k < |items| ==> items[k].Line?
    ensures Weight(LinesOf(items)) == SizeOf(items) && Tables(items) == 0
    ensures items != [] ==> LinesOf(items) != []
    decreases |items|
  {
    if items != [] {
      var init, it := items[..|items| - 1], items[|items| - 1];
      PiecesWeight(init);
      assert items == init + [it];
      FlatMapSnoc(ItemLines, init, it);
      WeightSnoc(LinesOf(init), it.s);
    }
  }

  lemma PiecesShort(items: seq<Item>, max: Size)
    requires items != [] && Pieces(items, max)
    ensures |GroupText(Chunk(items))| <= max
  {
    PiecesWeight(items);
    JoinLength(LinesOf(items));
  }

  /** A text without a newline is split, if at all, into pieces within the limit. */
  lemma LineAlone(rules: Rules, text: string, max: Size, k: int)
    requires '\n' !in text && 1 < |StructureChunks(rules, text, max)|
    requires 0 <= k < |StructureChunks(rules, text, max)|
    ensures |StructureChunks(rules, text, max)[k]| <= max
  {
    var lines := [text];
    SplitLine(text);
    var out := Outcome(rules, text, max);
    FewChunks(out.done);
    if InTable(rules, text) {
      TableAlone(rules, lines, max);
      NoBlocksIff(rules, lines, max);
    } else {
      var st := Add(rules, EMPTY, Plain(text), max);
      assert Walk(rules, lines, 1, st, max) == Flush(st);
      assert out.done == Flush(st).done;
      assert |text| + 1 > max;
      LongLineInPieces(EMPTY, text, 0, max);
      var j := ChunkFrom(out.done, k);
      PiecesShort(out.done[j].items, max);
    }
  }

  // ---------- lines that stay one chunk ----------

  /** Runs of table lines, counted at their ends. */
  function Runs(rules: Rules, lines: seq<string>): nat
  {
    if lines == [] then 0
    else
      (if InTable(rules, lines[0]) && (|lines| == 1 || !InTable(rules, lines[1])) then 1 else 0)
        + Runs(rules, lines[1..])
  }

  /** What the running size counts for the lines. */
  function Cost(rules: Rules, lines: seq<string>): int
  {
    Weight(lines) - Runs(rules, lines)
  }

  /** No heading but in the first line or inside a table. */
  predicate Calm(rules: Rules, lines: seq<string>)
  {
    forall j :: 0 < j < |lines| ==> StartsSegment(rules, lines, j) ==> !IsHeading(rules, lines[j])
  }

  predicate StartsSegment(rules: Rules, lines: seq<string>, j: int)
    requires 0 < j < |lines|
  {
    !(InTable(rules, lines[j]) && InTable(rules, lines[j - 1]))
  }

  lemma {:induction false} RunsFew(rules: Rules, lines: seq<string>)
    ensures Runs(rules, lines) <= |lines| <= Weight(lines)
    decreases |lines|
  {
    if lines != [] {
      RunsFew(rules, lines[1..]);
    }
  }

  lemma {:induction false} RunsAppend(rules: Rules, a: seq<string>, b: seq<string>)
    requires a != [] && b != []
    ensures Runs(rules, a + b) == Runs(rules, a) + Runs(rules, b)
      - if InTable(rules, a[|a| - 1]) && InTable(rules, b[0]) then 1 else 0
    decreases |a|
  {
    assert (a + b)[1..] == a[1..] + b;
    if |a| == 1 {
      assert a[1..] + b == b;
    } else {
      RunsAppend(rules, a[1..], b);
    }
  }

  lemma RunsOne(rules: Rules, line: string)
    ensures Runs(rules, [line]) == if InTable(rules, line) then 1 else 0
  {
    assert [line][1..] == [];
  }

  lemma {:induction false} RunsOfTable(rules: Rules, rows: seq<string>)
    requires TableWell(rules, rows)
    ensures Runs(rules, rows) == 1
    decreases |rows|
  {
    if |rows| == 1 {
      RunsOne(rules, rows[0]);
      assert rows == [rows[0]];
    } else {
      RunsOfTable(rules, rows[1..]);
    }
  }

  lemma CostOfLine(rules: Rules, lines: seq<string>, i: nat)
    requires i < |lines| && !InTable(rules, lines[i])
    ensures Cost(rules, lines[i..]) == |lines[i]| + 1 + Cost(rules, lines[i + 1..])
  {
    assert lines[i..][1..] == lines[i + 1..];
  }

  lemma CostOfRun(rules: Rules, lines: seq<string>, i: nat, e: nat)
    requires i < e <= |lines| && TableWell(rules, lines[i..e]) && (e < |lines| ==> !InTable(rules, lines[e]))
    ensures Cost(rules, lines[i..]) == |Join(lines[i..e])| + Cost(rules, lines[e..])
  {
    assert lines[i..] == lines[i..e] + lines[e..];
    WeightAppend(lines[i..e], lines[e..]);
    JoinLength(lines[i..e]);
    RunsOfTable(rules, lines[i..e]);
    if e < |lines| {
      RunsAppend(rules, lines[i..e], lines[e..]);
    } else {
      assert lines[e..] == [] && lines[i..] == lines[i..e];
    }
  }

  /** The walk has come to line `i` without closing a chunk, and what is left still fits. */
  predicate Staying(rules: Rules, lines: seq<string>, i: nat, st: State, max: Size)
  {
    && i <= |lines| && st.done == [] && (st.current != [] ==> 0 < i)
    && SizeOf(st.current) + Cost(rules, lines[i..]) <= max
    && (0 < i < |lines| ==> StartsSegment(rules, lines, i))
  }

  lemma StayOnLine(rules: Rules, lines: seq<string>, i: nat, st: State, max: Size)
    requires Staying(rules, lines, i, st, max) && i < |lines| && !InTable(rules, lines[i])
    ensures Staying(rules, lines, i + 1, Add(rules, st, Plain(lines[i]), max), max)
  {
    var line := lines[i];
    RunsFew(rules, lines[i + 1..]);
    CostOfLine(rules, lines, i);
    SizeSnoc(st.current, Line(line));
    assert AddPlain(st, line, max) == Append(st, Line(line));
  }

  lemma StayOnRun(rules: Rules, lines: seq<string>, i: nat, e: nat, st: State, max: Size)
    requires Staying(rules, lines, i, st, max) && i < e <= |lines| && TableWell(rules, lines[i..e])
    requires e < |lines| ==> !InTable(rules, lines[e])
    ensures Staying(rules, lines, e, Add(rules, st, Run(lines[i..e]), max), max)
  {
    var rows := lines[i..e];
    RunsFew(rules, lines[e..]);
    CostOfRun(rules, lines, i, e);
    SizeSnoc(st.current, Table(rows));
    assert AddTable(rules, st, rows, max) == Append(st, Table(rows));
  }

  lemma {:induction false} WalkStays(rules: Rules, lines: seq<string>, i: nat, st: State, max: Size)
    requires Staying(rules, lines, i, st, max) && Calm(rules, lines) && Clean(lines)
    ensures |Walk(rules, lines, i, st, max).done| <= 1
    decreases |lines| - i
  {
    if i < |lines| {
      var seg, e := SegmentAt(rules, lines, i, st), Next(rules, lines, i, st);
      if InTable(rules, lines[i]) {
        StayOnRun(rules, lines, i, e, st, max);
      } else {
        StayOnLine(rules, lines, i, st, max);
      }
      WalkStays(rules, lines, e, Add(rules, st, seg, max), max);
    }
  }

  ghost predicate OneChunk(rules: Rules, text: string, max: Size)
  {
    Calm(rules, Split(text)) && Cost(rules, Split(text)) <= max
  }

  lemma OneChunkStays(rules: Rules, text: string, max: Size)
    requires OneChunk(rules, text, max)
    ensures |StructureChunks(rules, text, max)| <= 1
  {
    SplitLinesClean(text);
    assert Split(text)[0..] == Split(text);
    WalkStays(rules, Split(text), 0, EMPTY, max);
    FewChunks(Outcome(rules, text, max).done);
  }

  // ---------- and stay so when whitespace around them goes ----------

  predicate Alike(rules: Rules, a: seq<string>, b: seq<string>)
  {
    |a| == |b| && forall k :: 0 <= k < |a| ==> (InTable(rules, a[k]) <==> InTable(rules, b[k]))
  }

  lemma {:induction false} RunsAlike(rules: Rules, a: seq<string>, b: seq<string>)
    requires Alike(rules, a, b)
    ensures Runs(rules, a) == Runs(rules, b)
    decreases |a|
  {
    if a != [] {
      RunsAlike(rules, a[1..], b[1..]);
    }
  }

  lemma FrontSpace(rules: Rules, c: char, s: string, max: Size)
    requires IsSpace(c) && OneChunk(rules, [c] + s, max)
    ensures OneChunk(rules, s, max)
  {
    var lines, rest := Split([c] + s), Split(s);
    assert ([c] + s)[1..] == s;
    if c == '\n' {
      assert lines == [""] + rest;
      assert lines[1..] == rest;
      assert forall j :: 0 < j < |rest| ==>
        StartsSegment(rules, rest, j) == StartsSegment(rules, lines, j + 1) && rest[j] == lines[j + 1];
    } else {
      assert lines == [[c] + rest[0]] + rest[1..];
      assert LStrip([c] + rest[0]) == LStrip(([c] + rest[0])[1..]);
      assert ([c] + rest[0])[1..] == rest[0];
      RunsAlike(rules, lines, rest);
      assert rest == [rest[0]] + rest[1..];
      assert forall j :: 0 < j < |rest| ==>
        StartsSegment(rules, rest, j) == StartsSegment(rules, lines, j) && rest[j] == lines[j];
    }
  }

  lemma StripSnoc(s: string, c: char)
    requires IsSpace(c)
    ensures Strip(s + [c]) == Strip(s)
  {
    StripOfRStrip(s + [c]);
    StripOfRStrip(s);
    assert (s + [c])[..|s|] == s;
  }

  /** A line that opens a heading does so also when more follows. */
  lemma HeadingGrows(rules: Rules, line: string, c: char)
    requires IsHeading(rules, line)
    ensures IsHeading(rules, line + [c])
  {
    var n :| 0 <= n <= |line| && HeadingTo(rules, line, n);
    assert (line + [c])[..n] == line[..n];
    assert HeadingTo(rules, line + [c], n);
  }

  lemma BlankLineGone(rules: Rules, lines: seq<string>, max: Size)
    requires lines != [] && Calm(rules, lines + [""]) && Cost(rules, lines + [""]) <= max
    ensures Calm(rules, lines) && Cost(rules, lines) <= max
  {
    WeightSnoc(lines, "");
    RunsAppend(rules, lines, [""]);
    RunsOne(rules, "");
    assert forall j :: 0 < j < |lines| ==> StartsSegment(rules, lines, j) == StartsSegment(rules, lines + [""], j);
  }

  lemma LastShortened(rules: Rules, init: seq<string>, last: string, c: char, max: Size)
    requires IsSpace(c)
    requires Calm(rules, init + [last + [c]]) && Cost(rules, init + [last + [c]]) <= max
    ensures Calm(rules, init + [last]) && Cost(rules, init + [last]) <= max
  {
    var long, short := init + [last + [c]], init + [last];
    StripSnoc(last, c);
    WeightSnoc(init, last);
    WeightSnoc(init, last + [c]);
    RunsAlike(rules, long, short);
    forall j | 0 < j < |short| && StartsSegment(rules, short, j) ensures !IsHeading(rules, short[j]) {
      assert StartsSegment(rules, long, j);
      if IsHeading(rules, last) {
        HeadingGrows(rules, last, c);
      }
    }
  }

  lemma BackSpace(rules: Rules, s: string, c: char, max: Size)
    requires IsSpace(c) && OneChunk(rules, s + [c], max)
    ensures OneChunk(rules, s, max)
  {
    var lines := Split(s);
    var n := |lines| - 1;
    SplitSnoc(s, c);
    if c == '\n' {
      BlankLineGone(rules, lines, max);
    } else {
      LastShortened(rules, lines[..n], lines[n], c, max);
      assert lines == lines[..n] + [lines[n]];
    }
  }

  lemma {:induction false} FrontStripped(rules: Rules, s: string, max: Size)
    requires OneChunk(rules, s, max)
    ensures OneChunk(rules, LStrip(s), max)
    decreases |s|
  {
    if s != "" && IsSpace(s[0]) {
      assert s == [s[0]] + s[1..];
      FrontSpace(rules, s[0], s[1..], max);
      FrontStripped(rules, s[1..], max);
    }
  }

  lemma {:induction false} BackStripped(rules: Rules, s: string, max: Size)
    requires OneChunk(rules, s, max)
    ensures OneChunk(rules, RStrip(s), max)
    decreases |s|
  {
    if s != "" && IsSpace(s[|s| - 1]) {
      assert s == s[..|s| - 1] + [s[|s| - 1]];
      BackSpace(rules, s[..|s| - 1], s[|s| - 1], max);
      BackStripped(rules, s[..|s| - 1], max);
    }
  }

  // ---------- the lines of a chunk ----------

  predicate Closed(rules: Rules, items: seq<Item>, lines: seq<string>)
  {
    && lines != [] && Clean(lines) && Calm(rules, lines) && Tables(items) <= Runs(rules, lines)
    && (InTable(rules, lines[|lines| - 1]) ==> EndsInTable(items) || lines == [lines[0]])
  }

  lemma ClosedOne(rules: Rules, it: Item)
    requires ItemWell(rules, it)
    ensures Closed(rules, [it], ItemLines(it))
  {
    assert [it][..0] == [];
    if it.Table? {
      RunsOfTable(rules, it.rows);
    }
  }

  lemma ClosedSnoc(rules: Rules, items: seq<Item>, lines: seq<string>, it: Item)
    requires items != [] && Closed(rules, items, lines) && ItemWell(rules, it) && Later(rules, it)
    requires it.Table? ==> !EndsInTable(items)
    requires lines == [lines[0]] && !EndsInTable(items) ==> Tables(items) == 0
    ensures Closed(rules, items + [it], lines + ItemLines(it))
  {
    var more := ItemLines(it);
    assert (items + [it])[..|items|] == items;
    RunsAppend(rules, lines, more);
    match it {
      case Line(s) =>
        RunsOne(rules, s);
      case Table(rows) =>
        RunsOfTable(rules, rows);
        if InTable(rules, lines[|lines| - 1]) {
          RunsOne(rules, lines[0]);
        }
    }
    forall j | 0 < j < |lines + more| && StartsSegment(rules, lines + more, j)
      ensures !IsHeading(rules, (lines + more)[j])
    {
      if j < |lines| {
        assert StartsSegment(rules, lines, j);
      } else {
        assert j == |lines|;
      }
    }
  }

  lemma {:induction false} ItemsClosed(rules: Rules, items: seq<Item>)
    requires ItemsWell(rules, items) && items != []
    ensures Closed(rules, items, LinesOf(items))
    ensures |LinesOf(items)| == 1 && !EndsInTable(items) ==> Tables(items) == 0
    decreases |items|
  {
    var n := |items| - 1;
    if n == 0 {
      ClosedOne(rules, items[0]);
      FlatMapOne(ItemLines, items[0]);
      assert items == [items[0]];
      if items[0].Line? {
        PiecesWeight(items);
      }
    } else {
      var init, it := items[..n], items[n];
      assert items == init + [it];
      ItemsClosed(rules, init);
      FlatMapSnoc(ItemLines, init, it);
      ClosedSnoc(rules, init, LinesOf(init), it);
    }
  }

  /** A chunk within the limit is one chunk when it is read again. */
  lemma ChunkStays(rules: Rules, items: seq<Item>, max: Size)
    requires ItemsWell(rules, items) && items != [] && SizeOf(items) <= max
    ensures |StructureChunks(rules, GroupText(Chunk(items)), max)| <= 1
  {
    var lines := LinesOf(items);
    ItemsClosed(rules, items);
    ItemsWeight(rules, items);
    SplitJoin(lines);
    FrontStripped(rules, Join(lines), max);
    BackStripped(rules, LStrip(Join(lines)), max);
    OneChunkStays(rules, GroupText(Chunk(items)), max);
  }

  /** A table that was kept whole is kept whole again. */
  lemma TableStays(rules: Rules, rows: seq<string>, max: Size)
    requires TableWell(rules, rows) && !Oversized(rows, max)
    ensures |StructureChunks(rules, GroupText(Chunk([Table(rows)])), max)| <= 1
  {
    FlatMapOne(ItemLines, Table(rows));
    var text := Strip(Join(rows));
    var lines := [text];
    if |rows| == 1 {
      StripTrims(rows[0]);
      TrimFixed(Strip(rows[0]));
      LStripPart(rows[0]);
      SplitLine(text);
    } else {
      lines := StripLines(rows);
      SplitJoin(lines);
    }
    TableAlone(rules, lines, max);
    FewChunks(Outcome(rules, text, max).done);
  }

  /** A chunk over the limit that is read again stays one chunk, unless it is a heading line. */
  lemma GroupStays(rules: Rules, g: Group, max: Size, room: nat)
    requires GroupFits(rules, g, max, room) && max < |GroupText(g)|
    ensures |StructureChunks(rules, GroupText(g), max)| <= 1 || '\n' !in GroupText(g)
  {
    match g {
      case Chunk(items) =>
        if SizeOf(items) <= max {
          ChunkStays(rules, items, max);
        } else {
          assert items == [items[0]];
          if items[0].Table? {
            TableStays(rules, items[0].rows, max);
          } else {
            FlatMapOne(ItemLines, items[0]);
            LStripPart(items[0].s);
          }
        }
      case SubTable(header, rows) =>
        SubTableLength(rules, header, rows, max, room);
        assert rows == [rows[0]];
        BlockAlone(rules, header, rows[0], max);
    }
  }

  /** Splitting a chunk over the limit once more by structure gives one chunk again, or
      pieces within the limit. */
  lemma SecondSplitBound(rules: Rules, text: string, max: Size, j: int, k: int)
    requires var first := StructureChunks(rules, text, max);
      1 < |first| && 0 <= j < |first| && max < |first[j]|
    requires var second := StructureChunks(rules, StructureChunks(rules, text, max)[j], max);
      1 < |second| && 0 <= k < |second|
    ensures |StructureChunks(rules, StructureChunks(rules, text, max)[j], max)[k]| <= max
  {
    var g := ChunkLengthBound(rules, text, max, j);
    GroupStays(rules, g, max, |text| + 1);
    LineAlone(rules, GroupText(g), max, k);
  }
}
