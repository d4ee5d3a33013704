/** How long the chunks of a text can be. */
module ChunkSizes {
  import opened Numbers
  import opened Text
  import opened StructureChunker
  import opened StructureProperties
  import LC = LineChunker

  // ---------- what a chunk can be made of ----------

  predicate TableWell(rules: Rules, rows: seq<string>)
  {
    rows != [] && forall k :: 0 <= k < |rows| ==> InTable(rules, rows[k]) && '\n' !in rows[k]
  }

  predicate EndsInTable(items: seq<Item>)
  {
    items != [] && items[|items| - 1].Table?
  }

  predicate ItemWell(rules: Rules, it: Item)
  {
    match it
    case Line(s) => '\n' !in s
    case Table(rows) => TableWell(rules, rows)
  }

  /** An element that does not open a chunk begins with neither a heading nor, unless it is a
      table, a table line. */
  predicate Later(rules: Rules, it: Item)
    requires ItemWell(rules, it)
  {
    match it
    case Line(s) => !InTable(rules, s) && !IsHeading(rules, s)
    case Table(rows) => !IsHeading(rules, rows[0])
  }

  /** No two tables are neighbours. */
  predicate ItemsWell(rules: Rules, items: seq<Item>)
  {
    && (forall k :: 0 <= k < |items| ==> ItemWell(rules, items[k]))
    && (forall k :: 0 < k < |items| ==> Later(rules, items[k]) && !(items[k - 1].Table? && items[k].Table?))
  }

  /** An element that may be the only one of a chunk although it is over the limit: a heading,
      a whole piece, or a table of at most one and a half times the limit. */
  predicate Lone(rules: Rules, it: Item, max: Size)
  {
    match it
    case Line(s) => IsHeading(rules, s) || |s| <= max
    case Table(rows) => !Oversized(rows, max)
  }

  /** The lines of an open chunk. */
  function LinesOf(items: seq<Item>): seq<string>
  {
    FlatMap(ItemLines, items)
  }

  /** The open chunk is within the limit, or a single element that is allowed to be longer.
      Its lines take no more than `room` characters, those read so far. */
  predicate OpenFits(rules: Rules, items: seq<Item>, max: Size, room: nat)
  {
    && ItemsWell(rules, items) && Weight(LinesOf(items)) <= room
    && (SizeOf(items) <= max || (|items| == 1 && Lone(rules, items[0], max)))
  }

  predicate GroupFits(rules: Rules, g: Group, max: Size, room: nat)
  {
    match g
    case Chunk(items) => items != [] && OpenFits(rules, items, max, room)
    case SubTable(header, rows) =>
      && header != [] && IsBlock(g, header, max)
      && TableWell(rules, header + rows) && HeaderRows(rules, header + rows) == |header|
      && max < room && (|rows| == 1 ==> |Join(header)| + 1 + |rows[0]| < room)
  }

  predicate GroupsFit(rules: Rules, groups: seq<Group>, max: Size, room: nat)
  {
    forall k :: 0 <= k < |groups| ==> GroupFits(rules, groups[k], max, room)
  }

  predicate StateFits(rules: Rules, st: State, max: Size, room: nat)
  {
    GroupsFit(rules, st.done, max, room) && OpenFits(rules, st.current, max, room)
  }

  lemma MoreRoom(rules: Rules, st: State, max: Size, room: nat, more: nat)
    requires StateFits(rules, st, max, room) && room <= more
    ensures StateFits(rules, st, max, more)
  {
  }

  lemma SizeOne(it: Item)
    ensures SizeOf([it]) == ItemSize(it)
  {
    assert [it][..0] == [];
  }

  lemma SizeSnoc(items: seq<Item>, it: Item)
    ensures SizeOf(items + [it]) == SizeOf(items) + ItemSize(it)
  {
    assert (items + [it])[..|items|] == items;
  }

  lemma FlushFits(rules: Rules, st: State, max: Size, room: nat)
    requires StateFits(rules, st, max, room)
    ensures StateFits(rules, Flush(st), max, room) && Flush(st).current == []
  {
  }

  /** An element that may stand in a chunk of its own. */
  predicate Fresh(rules: Rules, it: Item, max: Size)
  {
    ItemWell(rules, it) && (ItemSize(it) <= max || Lone(rules, it, max))
  }

  lemma SoloFits(rules: Rules, st: State, it: Item, max: Size, room: nat)
    requires StateFits(rules, st, max, room) && st.current == [] && Fresh(rules, it, max)
    requires Weight(ItemLines(it)) <= room
    ensures StateFits(rules, Append(st, it), max, room)
  {
    SizeOne(it);
    FlatMapOne(ItemLines, it);
    assert Append(st, it).current == [it];
  }

  lemma JoinFits(rules: Rules, st: State, it: Item, max: Size, room: nat)
    requires StateFits(rules, st, max, room) && ItemWell(rules, it)
    requires st.current != [] ==> Later(rules, it)
    requires it.Table? ==> !EndsInTable(st.current)
    requires SizeOf(st.current) + ItemSize(it) <= max
    ensures StateFits(rules, Append(st, it), max, room + Weight(ItemLines(it)))
  {
    SizeSnoc(st.current, it);
    FlatMapSnoc(ItemLines, st.current, it);
    WeightAppend(LinesOf(st.current), ItemLines(it));
    MoreRoom(rules, st, max, room, room + Weight(ItemLines(it)));
  }

  lemma PutFits(rules: Rules, st: State, it: Item, max: Size, room: nat)
    requires StateFits(rules, st, max, room) && Fresh(rules, it, max)
    requires st.current != [] ==> Later(rules, it)
    requires it.Table? ==> !EndsInTable(st.current)
    ensures StateFits(rules, Append(Room(st, ItemSize(it), max), it), max, room + Weight(ItemLines(it)))
  {
    var more := room + Weight(ItemLines(it));
    if SizeOf(st.current) + ItemSize(it) > max {
      FlushFits(rules, st, max, room);
      MoreRoom(rules, Flush(st), max, room, more);
      SoloFits(rules, Flush(st), it, max, more);
    } else {
      JoinFits(rules, st, it, max, room);
    }
  }

  /** Nothing is open, or nothing more goes in: every piece of a long line opens a chunk. */
  predicate NoRoomLeft(st: State, max: Size)
  {
    st.current == [] || (SizeOf(st.current) >= max && !EndsInTable(st.current))
  }

  lemma PieceFits(rules: Rules, st: State, piece: string, max: Size, room: nat)
    requires StateFits(rules, st, max, room) && NoRoomLeft(st, max)
    requires '\n' !in piece && 0 < |piece| <= max && |piece| + 1 <= room
    ensures StateFits(rules, AddPiece(st, piece, max), max, room)
    ensures !EndsInTable(AddPiece(st, piece, max).current)
    ensures |piece| == max ==> NoRoomLeft(AddPiece(st, piece, max), max)
  {
    if Strip(piece) != "" {
      FlushFits(rules, st, max, room);
      assert Room(st, |piece|, max) == Flush(st);
      LineWeight(piece);
      SoloFits(rules, Flush(st), Line(piece), max, room);
      SizeOne(Line(piece));
      assert Append(Flush(st), Line(piece)).current == [Line(piece)];
    }
  }

  lemma {:induction false} AddPiecesFits(rules: Rules, st: State, line: string, pos: nat, max: Size, room: nat)
    requires StateFits(rules, st, max, room) && NoRoomLeft(st, max)
    requires '\n' !in line && |line| + 1 <= room
    ensures StateFits(rules, AddPieces(st, line, pos, max), max, room)
    ensures !EndsInTable(AddPieces(st, line, pos, max).current)
    decreases |line| - pos
  {
    if pos < |line| {
      var end := LC.SliceEnd(line, pos, max);
      var piece := line[pos..end];
      PieceFits(rules, st, piece, max, room);
      if end < |line| {
        AddPiecesFits(rules, AddPiece(st, piece, max), line, end, max, room);
      } else {
        assert AddPieces(st, line, pos, max) == AddPiece(st, piece, max);
      }
    }
  }

  lemma LineWeight(s: string)
    ensures Weight(ItemLines(Line(s))) == |s| + 1
  {
    assert [s][1..] == [];
  }

  lemma LongLineFits(rules: Rules, st: State, line: string, max: Size, room: nat)
    requires StateFits(rules, st, max, room) && '\n' !in line && max < |line| + 1
    ensures StateFits(rules, AddPlain(st, line, max), max, room + |line| + 1)
    ensures !EndsInTable(AddPlain(st, line, max).current)
  {
    var open := Flush(st);
    FlushFits(rules, st, max, room);
    MoreRoom(rules, open, max, room, room + |line| + 1);
    AddPiecesFits(rules, open, line, 0, max, room + |line| + 1);
    assert st.current == [] ==> Room(st, |line| + 1, max) == open;
    assert AddPlain(st, line, max) == AddPieces(open, line, 0, max);
  }

  lemma AddPlainFits(rules: Rules, st: State, line: string, max: Size, room: nat)
    requires StateFits(rules, st, max, room) && '\n' !in line
    requires st.current != [] ==> Later(rules, Line(line))
    ensures StateFits(rules, AddPlain(st, line, max), max, room + |line| + 1)
    ensures !EndsInTable(AddPlain(st, line, max).current)
  {
    if |line| + 1 > max {
      LongLineFits(rules, st, line, max, room);
    } else {
      LineWeight(line);
      PutFits(rules, st, Line(line), max, room);
    }
  }

  // ---------- the blocks of a large table ----------

  lemma {:induction false} SeparatorInFront(rules: Rules, rows: seq<string>, more: seq<string>)
    requires FirstSeparator(rules, rows) < |rows|
    ensures FirstSeparator(rules, rows + more) == FirstSeparator(rules, rows)
    decreases |rows|
  {
    if !IsSeparator(rules, rows[0]) {
      SeparatorInFront(rules, rows[1..], more);
      assert (rows + more)[1..] == rows[1..] + more;
    }
  }

  lemma {:induction false} NoSeparator(rules: Rules, rows: seq<string>)
    requires forall k :: 0 <= k < |rows| ==> !IsSeparator(rules, rows[k])
    ensures FirstSeparator(rules, rows) == |rows|
    decreases |rows|
  {
    if rows != [] {
      NoSeparator(rules, rows[1..]);
    }
  }

  predicate Drawn(some: seq<string>, from: seq<string>)
  {
    forall k :: 0 <= k < |some| ==> some[k] in from
  }

  lemma DrawnSnoc(some: seq<string>, row: string, from: seq<string>)
    requires Drawn(some, from) && row in from
    ensures Drawn(some + [row], from)
  {
  }

  /** A header found in a table is found again in front of any of its data rows. */
  lemma HeaderStays(rules: Rules, table: seq<string>, some: seq<string>)
    requires HeaderRows(rules, table) < |table| && some != []
    requires Drawn(some, table)
    ensures HeaderRows(rules, table[..HeaderRows(rules, table)] + some) == HeaderRows(rules, table)
  {
    var n, sep := HeaderRows(rules, table), FirstSeparator(rules, table);
    var header := table[..n];
    if sep < |table| {
      assert table == header + table[n..];
      var s := FirstSeparator(rules, header);
      assert header[sep] == table[sep];
      SeparatorInFront(rules, header, table[n..]);
      SeparatorInFront(rules, header, some);
    } else {
      NoSeparator(rules, header + some);
    }
  }

  lemma {:induction false} LineWithinJoin(lines: seq<string>, k: int)
    requires 0 <= k < |lines|
    ensures |lines[k]| <= |Join(lines)|
    decreases |lines|
  {
    if k > 0 {
      LineWithinJoin(lines[1..], k - 1);
    }
  }

  /** The table falls into this header and these data rows. */
  predicate Divided(rules: Rules, table: seq<string>, header: seq<string>, data: seq<string>, max: Size, room: nat)
  {
    && TableWell(rules, table) && Oversized(table, max) && |Join(table)| < room
    && header == table[..HeaderRows(rules, table)] && data == table[HeaderRows(rules, table)..]
  }

  /** Some data rows that may form a block. */
  predicate BlockRoom(header: seq<string>, data: seq<string>, sub: seq<string>, max: Size)
  {
    Drawn(sub, data) && (|sub| <= 1 || |Join(header)| + 1 + Weight(sub) <= max)
  }

  lemma BlockFits(rules: Rules, table: seq<string>, header: seq<string>, data: seq<string>, sub: seq<string>,
                  max: Size, room: nat)
    requires Divided(rules, table, header, data, max, room) && BlockRoom(header, data, sub, max) && sub != []
    ensures GroupFits(rules, SubTable(header, sub), max, room)
  {
    var n := HeaderRows(rules, table);
    assert sub[0] in data;
    BlockRows(rules, table, n, sub);
    HeaderStays(rules, table, sub);
    if |sub| == 1 {
      HeaderAndRow(table, n, sub[0]);
    }
  }

  lemma BlockRows(rules: Rules, table: seq<string>, n: nat, sub: seq<string>)
    requires TableWell(rules, table) && n <= |table| && sub != []
    requires Drawn(sub, table[n..])
    ensures TableWell(rules, table[..n] + sub) && Drawn(sub, table)
  {
    forall k | 0 <= k < |sub| ensures sub[k] in table && InTable(rules, sub[k]) && '\n' !in sub[k] {
      var j :| 0 <= j < |table[n..]| && table[n..][j] == sub[k];
      assert table[n + j] == sub[k];
    }
  }

  lemma HeaderAndRow(table: seq<string>, n: nat, row: string)
    requires 0 < n <= |table| && row in table[n..]
    ensures |Join(table[..n])| + 1 + |row| <= |Join(table)|
  {
    var header, data := table[..n], table[n..];
    assert table == header + data;
    JoinAppend(header, data);
    var k :| 0 <= k < |data| && data[k] == row;
    LineWithinJoin(data, k);
  }

  lemma {:induction false} SubTablesFit(rules: Rules, table: seq<string>, header: seq<string>, data: seq<string>,
                                        i: nat, sub: seq<string>, max: Size, room: nat)
    requires Divided(rules, table, header, data, max, room) && BlockRoom(header, data, sub, max) && i <= |data|
    ensures GroupsFit(rules, SubTablesFrom(header, data, i, sub, max), max, room)
    decreases |data| - i
  {
    if sub != [] {
      BlockFits(rules, table, header, data, sub, max, room);
    }
    if i < |data| {
      var row := data[i];
      WeightSnoc(sub, row);
      DrawnSnoc(sub, row, data);
      if |Join(header)| + 1 + Weight(sub) + |row| + 1 > max && sub != [] {
        SubTablesFit(rules, table, header, data, i + 1, [row], max, room);
      } else {
        SubTablesFit(rules, table, header, data, i + 1, sub + [row], max, room);
      }
    }
  }

  lemma GroupsFitAppend(rules: Rules, a: seq<Group>, b: seq<Group>, max: Size, room: nat)
    requires GroupsFit(rules, a, max, room) && GroupsFit(rules, b, max, room)
    ensures GroupsFit(rules, a + b, max, room)
  {
  }

  lemma LargeTableFits(rules: Rules, st: State, rows: seq<string>, max: Size, room: nat)
    requires StateFits(rules, st, max, room) && TableWell(rules, rows) && Oversized(rows, max)
    ensures StateFits(rules, AddTable(rules, st, rows, max), max, room + Weight(rows))
  {
    var open, more, subs := Flush(st), room + Weight(rows), SubTables(rules, rows, max);
    FlushFits(rules, st, max, room);
    MoreRoom(rules, open, max, room, more);
    JoinLength(rows);
    var n := HeaderRows(rules, rows);
    SubTablesFit(rules, rows, rows[..n], rows[n..], 0, [], max, more);
    GroupsFitAppend(rules, open.done, subs, max, more);
    assert AddTable(rules, st, rows, max) == open.(done := open.done + subs);
  }

  lemma AddTableFits(rules: Rules, st: State, rows: seq<string>, max: Size, room: nat)
    requires StateFits(rules, st, max, room) && !EndsInTable(st.current) && TableWell(rules, rows)
    requires st.current != [] ==> Later(rules, Table(rows))
    ensures StateFits(rules, AddTable(rules, st, rows, max), max, room + Weight(rows))
  {
    if Oversized(rows, max) {
      LargeTableFits(rules, st, rows, max, room);
    } else {
      PutFits(rules, st, Table(rows), max, room);
    }
  }

  lemma AddHeadingFits(rules: Rules, st: State, line: string, max: Size, room: nat)
    requires StateFits(rules, st, max, room) && '\n' !in line && IsHeading(rules, line)
    ensures StateFits(rules, AddHeading(st, line), max, room + |line| + 1)
    ensures !EndsInTable(AddHeading(st, line).current)
  {
    LineWeight(line);
    FlushFits(rules, st, max, room);
    MoreRoom(rules, Flush(st), max, room, room + |line| + 1);
    SoloFits(rules, Flush(st), Line(line), max, room + |line| + 1);
  }

  // ---------- the walk ----------

  predicate Clean(lines: seq<string>)
  {
    forall k :: 0 <= k < |lines| ==> '\n' !in lines[k]
  }

  /** A chunk that ends in a table is followed by a line that belongs to none. */
  predicate TableEnds(rules: Rules, lines: seq<string>, i: nat, st: State)
  {
    EndsInTable(st.current) && i < |lines| ==> !InTable(rules, lines[i])
  }

  lemma WeightTo(lines: seq<string>, i: nat, e: nat)
    requires i <= e <= |lines|
    ensures Weight(lines[..e]) == Weight(lines[..i]) + Weight(lines[i..e])
  {
    assert lines[..e] == lines[..i] + lines[i..e];
    WeightAppend(lines[..i], lines[i..e]);
  }

  lemma SegmentFits(rules: Rules, st: State, seg: Segment, max: Size, room: nat)
    requires StateFits(rules, st, max, room) && WellRead(rules, seg) && Clean(SegmentLines(seg))
    requires st.current != [] && !seg.Heading? ==> !IsHeading(rules, SegmentLines(seg)[0])
    requires seg.Run? ==> !EndsInTable(st.current)
    ensures StateFits(rules, Add(rules, st, seg, max), max, room + Weight(SegmentLines(seg)))
    ensures !seg.Run? ==> !EndsInTable(Add(rules, st, seg, max).current)
  {
    match seg {
      case Heading(line) => LineWeight(line); AddHeadingFits(rules, st, line, max, room);
      case Plain(line) => LineWeight(line); AddPlainFits(rules, st, line, max, room);
      case Run(rows) => AddTableFits(rules, st, rows, max, room);
    }
  }

  lemma AddFits(rules: Rules, lines: seq<string>, i: nat, st: State, max: Size)
    requires i < |lines| && Clean(lines)
    requires StateFits(rules, st, max, Weight(lines[..i])) && TableEnds(rules, lines, i, st)
    ensures var after, e := Add(rules, st, SegmentAt(rules, lines, i, st), max), Next(rules, lines, i, st);
      StateFits(rules, after, max, Weight(lines[..e])) && TableEnds(rules, lines, e, after)
  {
    var e, seg := Next(rules, lines, i, st), SegmentAt(rules, lines, i, st);
    WeightTo(lines, i, e);
    assert SegmentLines(seg) == lines[i..e];
    SegmentFits(rules, st, seg, max, Weight(lines[..i]));
  }

  lemma {:induction false} WalkFits(rules: Rules, lines: seq<string>, i: nat, st: State, max: Size)
    requires i <= |lines| && Clean(lines)
    requires StateFits(rules, st, max, Weight(lines[..i])) && TableEnds(rules, lines, i, st)
    ensures GroupsFit(rules, Walk(rules, lines, i, st, max).done, max, Weight(lines))
    decreases |lines| - i
  {
    if i == |lines| {
      assert lines[..i] == lines;
      FlushFits(rules, st, max, Weight(lines));
    } else {
      AddFits(rules, lines, i, st, max);
      WalkFits(rules, lines, Next(rules, lines, i, st), Add(rules, st, SegmentAt(rules, lines, i, st), max), max);
    }
  }

  lemma OutcomeFits(rules: Rules, text: string, max: Size)
    ensures GroupsFit(rules, Outcome(rules, text, max).done, max, |text| + 1)
  {
    JoinSplit(text);
    JoinLength(Split(text));
    SplitLinesClean(text);
    WalkFits(rules, Split(text), 0, EMPTY, max);
  }

  // ---------- lengths ----------

  function Tables(items: seq<Item>): nat
  {
    if items == [] then 0
    else Tables(items[..|items| - 1]) + if items[|items| - 1].Table? then 1 else 0
  }

  lemma TableNotEmpty(rules: Rules, rows: seq<string>)
    requires TableWell(rules, rows)
    ensures 0 < |Join(rows)|
  {
    LineWithinJoin(rows, 0);
  }

  /** The length of the lines of a chunk. */
  lemma {:induction false} ItemsWeight(rules: Rules, items: seq<Item>)
    requires ItemsWell(rules, items)
    ensures Weight(FlatMap(ItemLines, items)) == SizeOf(items) + Tables(items)
    decreases |items|
  {
    if items != [] {
      var init, it := items[..|items| - 1], items[|items| - 1];
      ItemsWeight(rules, init);
      assert items == init + [it];
      FlatMapSnoc(ItemLines, init, it);
      WeightAppend(FlatMap(ItemLines, init), ItemLines(it));
      ItemWeight(rules, it);
    }
  }

  /** At most every second character of the size is a table. */
  lemma {:induction false} FewTables(rules: Rules, items: seq<Item>)
    requires ItemsWell(rules, items)
    ensures 2 * Tables(items) <= SizeOf(items) + if EndsInTable(items) then 1 else 0
    decreases |items|
  {
    if items != [] {
      FewTables(rules, items[..|items| - 1]);
      ItemWeight(rules, items[|items| - 1]);
    }
  }

  lemma ItemWeight(rules: Rules, it: Item)
    requires it.Table? ==> TableWell(rules, it.rows)
    ensures ItemLines(it) != [] && 0 < ItemSize(it)
    ensures Weight(ItemLines(it)) == ItemSize(it) + if it.Table? then 1 else 0
  {
    match it {
      case Line(s) => WeightSnoc([], s); assert [] + [s] == [s];
      case Table(rows) => JoinLength(rows); TableNotEmpty(rules, rows);
    }
  }

  /** The longest a chunk can be, by what it was made of. */
  function LengthBound(rules: Rules, g: Group, max: Size): int
  {
    match g
    case Chunk(items) =>
      if |items| == 1 && items[0].Line? && IsHeading(rules, items[0].s) then Max(max, |items[0].s|)
      else if |items| == 1 && items[0].Table? then Max(max, 3 * max / 2)
      else max + Tables(items)
    case SubTable(header, rows) =>
      if |rows| == 1 then Max(max, |Join(header)| + 1 + |rows[0]|) else max
  }

  /** A heading line alone, or a header with a single row: the only chunks that can be longer
      than one and a half times the limit. */
  predicate Indivisible(rules: Rules, g: Group)
  {
    match g
    case Chunk(items) => |items| == 1 && items[0].Line? && IsHeading(rules, items[0].s)
    case SubTable(_, rows) => |rows| == 1
  }

  lemma ItemsLength(rules: Rules, items: seq<Item>)
    requires ItemsWell(rules, items) && items != []
    ensures |GroupText(Chunk(items))| < SizeOf(items) + Tables(items)
    ensures |GroupText(Chunk(items))| < Weight(LinesOf(items))
    ensures 2 * Tables(items) <= SizeOf(items) + 1
  {
    ItemsWeight(rules, items);
    FewTables(rules, items);
    ItemWeight(rules, items[0]);
    JoinLength(LinesOf(items));
  }

  lemma LoneLength(it: Item)
    ensures |GroupText(Chunk([it]))| <= if it.Line? then |it.s| else |Join(it.rows)|
  {
    FlatMapOne(ItemLines, it);
  }

  lemma ChunkLength(rules: Rules, items: seq<Item>, max: Size, room: nat)
    requires GroupFits(rules, Chunk(items), max, room)
    ensures |GroupText(Chunk(items))| <= LengthBound(rules, Chunk(items), max)
    ensures |GroupText(Chunk(items))| < room
    ensures 3 * max / 2 < |GroupText(Chunk(items))| ==> Indivisible(rules, Chunk(items))
  {
    ItemsLength(rules, items);
    if |items| == 1 {
      assert items == [items[0]];
      LoneLength(items[0]);
      SizeOne(items[0]);
    }
  }

  lemma SubTableLength(rules: Rules, header: seq<string>, rows: seq<string>, max: Size, room: nat)
    requires GroupFits(rules, SubTable(header, rows), max, room)
    ensures var g := SubTable(header, rows);
      |GroupText(g)| <= LengthBound(rules, g, max) < room
  {
    JoinLength(rows);
    if |rows| == 1 {
      assert Join(rows) == rows[0];
    }
  }

  lemma GroupLength(rules: Rules, g: Group, max: Size, room: nat)
    requires GroupFits(rules, g, max, room)
    ensures |GroupText(g)| <= LengthBound(rules, g, max) && |GroupText(g)| < room
    ensures 3 * max / 2 < |GroupText(g)| ==> Indivisible(rules, g)
  {
    match g {
      case Chunk(items) => ChunkLength(rules, items, max, room);
      case SubTable(header, rows) => SubTableLength(rules, header, rows, max, room);
    }
  }

  lemma {:induction false} ChunkFrom(groups: seq<Group>, k: int) returns (j: nat)
    requires 0 <= k < |ChunksOf(groups)|
    ensures j < |groups| && ChunksOf(groups)[k] == GroupText(groups[j])
    decreases |groups|
  {
    if k < |ChunkOf(groups[0])| {
      j := 0;
    } else {
      j := ChunkFrom(groups[1..], k - |ChunkOf(groups[0])|);
      j := j + 1;
    }
    assert ChunksOf(groups) == ChunkOf(groups[0]) + ChunksOf(groups[1..]);
  }

  /** Every chunk is the text of an emitted group of one of the known shapes, with a length to
      match: the limit plus one character per table in it, or one heading line, or one table of
      at most one and a half times the limit, or a header with a single row. The only other chunk there can be is
      the text itself, when it consists of blank lines and over-large header-only tables. No
      chunk is longer than the text, and only a heading line or a header with a single row is
      longer than one and a half times the limit. */
  lemma ChunkLengthBound(rules: Rules, text: string, max: Size, k: int) returns (g: Group)
    requires 0 <= k < |StructureChunks(rules, text, max)|
    ensures |StructureChunks(rules, text, max)[k]| <= |text|
    ensures AllSilent(rules, Outcome(rules, text, max).read, max) ==> StructureChunks(rules, text, max) == [text]
    ensures !AllSilent(rules, Outcome(rules, text, max).read, max) ==>
      && g in Outcome(rules, text, max).done
      && StructureChunks(rules, text, max)[k] == GroupText(g) && GroupFits(rules, g, max, |text| + 1)
      && |GroupText(g)| <= LengthBound(rules, g, max)
      && (3 * max / 2 < |GroupText(g)| ==> Indivisible(rules, g))
  {
    FallbackIff(rules, text, max);
    OutcomeFits(rules, text, max);
    var done := Outcome(rules, text, max).done;
    g := Chunk([]);
    if ChunksOf(done) != [] {
      var j := ChunkFrom(done, k);
      g := done[j];
      GroupLength(rules, g, max, |text| + 1);
    }
  }

  // ---------- the entry point ----------

  /** Structure first, line boundaries second: a chunk is within the limit and the overlap,
      or a chunk by structure, with its shape and length. */
  lemma SimpleChunksBound(rules: Rules, text: string, size: Size, overlap: int, k: int) returns (g: Group)
    requires 0 <= k < |SimpleChunks(rules, text, size, overlap)|
    ensures var chunks, byStructure := SimpleChunks(rules, text, size, overlap), StructureChunks(rules, text, size);
      if |text| > size && |byStructure| > 1 then
        && chunks == byStructure && |chunks[k]| <= |text|
        && g in Outcome(rules, text, size).done
        && chunks[k] == GroupText(g) && GroupFits(rules, g, size, |text| + 1)
        && |chunks[k]| <= LengthBound(rules, g, size) && (3 * size / 2 < |chunks[k]| ==> Indivisible(rules, g))
      else |chunks[k]| <= size + if overlap > 0 then overlap + 1 else 0
  {
    g := Chunk([]);
    if |text| > size {
      if |StructureChunks(rules, text, size)| > 1 {
        g := ChunkLengthBound(rules, text, size, k);
      } else if overlap <= 0 {
        LC.BaseChunksFit(text, size);
      } else {
        LC.OverlapKeepsChunks(text, size, overlap, k);
      }
    }
  }
}
