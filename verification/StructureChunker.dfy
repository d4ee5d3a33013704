/** Splitting text along its structure: headings open chunks, tables stay together, an
    over-large table is split into sub-tables that each repeat its header. */
module StructureChunker {
  import opened Text
  import LC = LineChunker

  type Size = LC.Size

  /** The line tests, which are regular expressions of the program. The one for headings
      matches the beginning of a line. Those for tables look at the stripped line, and a blank
      line belongs to no table. */
  datatype Rules = Rules(opensHeading: string -> bool, isRow: string -> bool, isSeparator: string -> bool)

  predicate IsHeading(rules: Rules, line: string)
  {
    exists n :: 0 <= n <= |line| && HeadingTo(rules, line, n)
  }

  predicate HeadingTo(rules: Rules, line: string, n: int)
    requires 0 <= n <= |line|
  {
    rules.opensHeading(line[..n])
  }

  predicate InTable(rules: Rules, line: string)
  {
    IsRow(rules, line) || IsSeparator(rules, line)
  }

  predicate IsRow(rules: Rules, line: string)
  {
    Strip(line) != "" && rules.isRow(Strip(line))
  }

  predicate IsSeparator(rules: Rules, line: string)
  {
    Strip(line) != "" && rules.isSeparator(Strip(line))
  }

  /** An element of an open chunk: a line (or piece of one), or a table kept whole. */
  datatype Item = Line(s: string) | Table(rows: seq<string>)

  function ItemLines(it: Item): seq<string>
  {
    match it
    case Line(s) => [s]
    case Table(rows) => rows
  }

  /** What the running size counts for an element: a table one character less than its
      lines take. */
  function ItemSize(it: Item): nat
  {
    match it
    case Line(s) => |s| + 1
    case Table(rows) => |Join(rows)|
  }

  function SizeOf(items: seq<Item>): nat
  {
    if items == [] then 0 else SizeOf(items[..|items| - 1]) + ItemSize(items[|items| - 1])
  }

  /** A chunk before stripping. */
  datatype Group = Chunk(items: seq<Item>) | SubTable(header: seq<string>, rows: seq<string>)

  function GroupText(g: Group): string
  {
    match g
    case Chunk(items) => Strip(Join(FlatMap(ItemLines, items)))
    case SubTable(header, rows) => Strip(Join(header) + "\n" + Join(rows))
  }

  function ChunkOf(g: Group): seq<string>
  {
    if GroupText(g) == "" then [] else [GroupText(g)]
  }

  function ChunksOf(groups: seq<Group>): seq<string>
  {
    FlatMap(ChunkOf, groups)
  }

  /** How the input was read: heading lines, plain lines, and maximal runs of table lines. */
  datatype Segment = Heading(line: string) | Plain(line: string) | Run(rows: seq<string>)

  datatype State = State(done: seq<Group>, current: seq<Item>, read: seq<Segment>)

  // ---------- reference definition ----------

  function Flush(st: State): State
  {
    if st.current == [] then st else st.(done := st.done + [Chunk(st.current)], current := [])
  }

  /** The state in which `more` further characters are accepted. */
  function Room(st: State, more: nat, max: Size): State
  {
    if SizeOf(st.current) + more > max then Flush(st) else st
  }

  function Append(st: State, it: Item): State
  {
    st.(current := st.current + [it])
  }

  /** A line over the limit, added piece by piece; blank pieces are skipped. */
  function AddPieces(st: State, line: string, pos: nat, max: Size): State
    decreases |line| - pos
  {
    if pos >= |line| then st
    else
      var end := LC.SliceEnd(line, pos, max);
      AddPieces(AddPiece(st, line[pos..end], max), line, end, max)
  }

  function AddPiece(st: State, piece: string, max: Size): State
  {
    if Strip(piece) == "" then st else Append(Room(st, |piece|, max), Line(piece))
  }

  function AddPlain(st: State, line: string, max: Size): State
  {
    var open := Room(st, |line| + 1, max);
    if |line| + 1 > max then AddPieces(open, line, 0, max) else Append(open, Line(line))
  }

  function AddHeading(st: State, line: string): State
  {
    Append(Flush(st), Line(line))
  }

  predicate Oversized(rows: seq<string>, max: Size)
  {
    2 * |Join(rows)| > 3 * max
  }

  /** Rows up to and including the first separator, or the first two. */
  function HeaderRows(rules: Rules, rows: seq<string>): (n: nat)
    ensures n <= |rows|
    ensures rows != [] ==> 0 < n
  {
    var sep := FirstSeparator(rules, rows);
    if sep < |rows| then sep + 1 else if |rows| < 2 then |rows| else 2
  }

  function FirstSeparator(rules: Rules, rows: seq<string>): (k: nat)
    ensures k <= |rows|
    ensures forall j :: 0 <= j < k ==> !IsSeparator(rules, rows[j])
    ensures k < |rows| ==> IsSeparator(rules, rows[k])
  {
    if rows == [] || IsSeparator(rules, rows[0]) then 0 else 1 + FirstSeparator(rules, rows[1..])
  }

  /** Sub-tables for the data rows from `i` on, the open one holding `sub`. */
  function SubTablesFrom(header: seq<string>, data: seq<string>, i: nat, sub: seq<string>, max: Size): seq<Group>
    requires i <= |data|
    decreases |data| - i
  {
    if i == |data| then (if sub == [] then [] else [SubTable(header, sub)])
    else if |Join(header)| + 1 + Weight(sub) + |data[i]| + 1 > max && sub != [] then
      [SubTable(header, sub)] + SubTablesFrom(header, data, i + 1, [data[i]], max)
    else SubTablesFrom(header, data, i + 1, sub + [data[i]], max)
  }

  function SubTables(rules: Rules, rows: seq<string>, max: Size): seq<Group>
  {
    var n := HeaderRows(rules, rows);
    SubTablesFrom(rows[..n], rows[n..], 0, [], max)
  }

  function AddTable(rules: Rules, st: State, rows: seq<string>, max: Size): State
  {
    if Oversized(rows, max) then
      st.(done := Flush(st).done + SubTables(rules, rows, max), current := [])
    else Append(Room(st, |Join(rows)|, max), Table(rows))
  }

  /** End of the run of table lines that starts at `i`. */
  function RunEnd(rules: Rules, lines: seq<string>, i: nat): (e: nat)
    requires i <= |lines|
    ensures i <= e <= |lines|
    ensures forall k :: i <= k < e ==> InTable(rules, lines[k])
    ensures e < |lines| ==> !InTable(rules, lines[e])
    decreases |lines| - i
  {
    if i < |lines| && InTable(rules, lines[i]) then RunEnd(rules, lines, i + 1) else i
  }

  /** Index of the next line to read, and the state once the lines before it are added. */
  function Next(rules: Rules, lines: seq<string>, i: nat, st: State): (e: nat)
    requires i < |lines|
    ensures i < e <= |lines|
  {
    if IsHeading(rules, lines[i]) && st.current != [] then i + 1
    else if InTable(rules, lines[i]) then RunEnd(rules, lines, i + 1)
    else i + 1
  }

  function SegmentAt(rules: Rules, lines: seq<string>, i: nat, st: State): Segment
    requires i < |lines|
  {
    if IsHeading(rules, lines[i]) && st.current != [] then Heading(lines[i])
    else if InTable(rules, lines[i]) then Run(lines[i..RunEnd(rules, lines, i + 1)])
    else Plain(lines[i])
  }

  function Add(rules: Rules, st: State, seg: Segment, max: Size): State
  {
    var after :=
      match seg
      case Heading(line) => AddHeading(st, line)
      case Plain(line) => AddPlain(st, line, max)
      case Run(rows) => AddTable(rules, st, rows, max);
    after.(read := st.read + [seg])
  }

  function Walk(rules: Rules, lines: seq<string>, i: nat, st: State, max: Size): State
    requires i <= |lines|
    decreases |lines| - i
  {
    if i == |lines| then Flush(st)
    else Walk(rules, lines, Next(rules, lines, i, st), Add(rules, st, SegmentAt(rules, lines, i, st), max), max)
  }

  const EMPTY := State([], [], [])

  function Outcome(rules: Rules, text: string, max: Size): State
  {
    Walk(rules, Split(text), 0, EMPTY, max)
  }

  /** The chunks; when nothing was emitted, the text itself. */
  function StructureChunks(rules: Rules, text: string, max: Size): seq<string>
  {
    var chunks := ChunksOf(Outcome(rules, text, max).done);
    if chunks == [] then [text] else chunks
  }

  /** Structure first; line boundaries when the structure gives no split. */
  function SimpleChunks(rules: Rules, text: string, size: Size, overlap: int): seq<string>
  {
    if |text| <= size then [text]
    else
      var byHeading := StructureChunks(rules, text, size);
      if |byHeading| > 1 then byHeading else LC.LineChunks(text, size, overlap)
  }

  // ---------- the program ----------

  /** The variables of the walk stand for a reference state. */
  ghost predicate Tracks(st: State, chunks: seq<string>, current: seq<Item>, size: nat)
  {
    chunks == ChunksOf(st.done) && current == st.current && size == SizeOf(current)
  }

  method EmitChunk(chunks: seq<string>, text: string) returns (more: seq<string>)
    ensures more == chunks + if Strip(text) == "" then [] else [Strip(text)]
  {
    var stripped := Strip(text);
    more := if stripped != "" then chunks + [stripped] else chunks;
  }

  /** Closes the open chunk. */
  method FlushChunk(ghost st: State, chunks: seq<string>, current: seq<Item>, size: nat)
    returns (chunks': seq<string>, current': seq<Item>, size': nat)
    requires Tracks(st, chunks, current, size)
    ensures Tracks(Flush(st), chunks', current', size')
  {
    chunks', current', size' := chunks, current, size;
    if current != [] {
      FlatMapSnoc(ChunkOf, st.done, Chunk(current));
      chunks' := EmitChunk(chunks, Join(FlatMap(ItemLines, current)));
      current', size' := [], 0;
    }
  }

  method MakeRoom(ghost st: State, chunks: seq<string>, current: seq<Item>, size: nat, more: nat, max: Size)
    returns (chunks': seq<string>, current': seq<Item>, size': nat)
    requires Tracks(st, chunks, current, size)
    ensures Tracks(Room(st, more, max), chunks', current', size')
  {
    chunks', current', size' := chunks, current, size;
    if size + more > max {
      chunks', current', size' := FlushChunk(st, chunks, current, size);
    }
  }

  method SplitTable(rules: Rules, chunks: seq<string>, rows: seq<string>, max: Size) returns (more: seq<string>)
    ensures more == chunks + ChunksOf(SubTables(rules, rows, max))
  {
    var sep := 0;
    while sep < |rows| && !IsSeparator(rules, rows[sep])
      invariant 0 <= sep <= |rows|
      invariant FirstSeparator(rules, rows) == sep + FirstSeparator(rules, rows[sep..])
    {
      assert rows[sep..][1..] == rows[sep + 1..];
      sep := sep + 1;
    }
    var n := if sep < |rows| then sep + 1 else if |rows| < 2 then |rows| else 2;
    assert n == HeaderRows(rules, rows);
    more := EmitSubTables(chunks, rows[..n], rows[n..], max);
  }

  method EmitSubTables(chunks: seq<string>, header: seq<string>, data: seq<string>, max: Size)
    returns (more: seq<string>)
    ensures more == chunks + ChunksOf(SubTablesFrom(header, data, 0, [], max))
  {
    var headerText := Join(header);
    var headerLen := |headerText| + 1;
    more := chunks;
    var sub: seq<string> := [];
    var subLen := headerLen;
    for i := 0 to |data|
      invariant subLen == headerLen + Weight(sub)
      invariant more + ChunksOf(SubTablesFrom(header, data, i, sub, max)) ==
                chunks + ChunksOf(SubTablesFrom(header, data, 0, [], max))
    {
      var row := data[i];
      var rowLen := |row| + 1;
      if subLen + rowLen > max && sub != [] {
        ghost var rest := SubTablesFrom(header, data, i + 1, [row], max);
        FlatMapAppend(ChunkOf, [SubTable(header, sub)], rest);
        FlatMapOne(ChunkOf, SubTable(header, sub));
        Assoc(more, ChunkOf(SubTable(header, sub)), ChunksOf(rest));
        more := EmitChunk(more, headerText + "\n" + Join(sub));
        sub, subLen := [], headerLen;
        assert sub + [row] == [row];
      }
      WeightSnoc(sub, row);
      sub := sub + [row];
      subLen := subLen + rowLen;
    }
    if sub != [] {
      FlatMapOne(ChunkOf, SubTable(header, sub));
      more := EmitChunk(more, headerText + "\n" + Join(sub));
    }
  }

  method EmitPieces(ghost st: State, chunks: seq<string>, current: seq<Item>, size: nat, line: string, max: Size)
    returns (chunks': seq<string>, current': seq<Item>, size': nat)
    requires Tracks(st, chunks, current, size)
    ensures Tracks(AddPieces(st, line, 0, max), chunks', current', size')
  {
    chunks', current', size' := chunks, current, size;
    ghost var now := st;
    var pos: nat := 0;
    while pos < |line|
      invariant AddPieces(st, line, 0, max) == AddPieces(now, line, pos, max)
      invariant Tracks(now, chunks', current', size')
    {
      var end := LC.SliceEnd(line, pos, max);
      var piece := line[pos..end];
      ghost var before := now;
      now := AddPiece(now, piece, max);
      pos := end;
      if Strip(piece) == "" {
        continue;
      }
      chunks', current', size' := MakeRoom(before, chunks', current', size', |piece|, max);
      current' := current' + [Line(piece)];
      size' := size' + |piece| + 1;
    }
  }

  method AddSegment(rules: Rules, ghost st: State, chunks: seq<string>, current: seq<Item>, size: nat,
                    seg: Segment, max: Size)
    returns (chunks': seq<string>, current': seq<Item>, size': nat)
    requires Tracks(st, chunks, current, size)
    ensures Tracks(Add(rules, st, seg, max), chunks', current', size')
  {
    match seg {
      case Heading(line) =>
        chunks', current', size' := FlushChunk(st, chunks, current, size);
        current', size' := current' + [Line(line)], size' + |line| + 1;
      case Run(rows) =>
        var tableText := Join(rows);
        var tableSize := |tableText|;
        if 2 * tableSize <= 3 * max {
          chunks', current', size' := MakeRoom(st, chunks, current, size, tableSize, max);
          current', size' := current' + [Table(rows)], size' + tableSize;
        } else {
          chunks', current', size' := FlushChunk(st, chunks, current, size);
          FlatMapAppend(ChunkOf, Flush(st).done, SubTables(rules, rows, max));
          chunks' := SplitTable(rules, chunks', rows, max);
          current', size' := [], 0;
        }
      case Plain(line) =>
        chunks', current', size' := MakeRoom(st, chunks, current, size, |line| + 1, max);
        if |line| + 1 > max {
          chunks', current', size' := EmitPieces(Room(st, |line| + 1, max), chunks', current', size', line, max);
        } else {
          current', size' := current' + [Line(line)], size' + |line| + 1;
        }
    }
  }

  method ReadRun(rules: Rules, lines: seq<string>, i: nat) returns (e: nat)
    requires i < |lines|
    ensures e == RunEnd(rules, lines, i + 1)
  {
    e := i + 1;
    while e < |lines| && (IsRow(rules, lines[e]) || IsSeparator(rules, lines[e]))
      invariant i < e <= |lines| && RunEnd(rules, lines, i + 1) == RunEnd(rules, lines, e)
    {
      e := e + 1;
    }
  }

  method ChunkByStructure(rules: Rules, text: string, max: Size) returns (result: seq<string>)
    ensures result == StructureChunks(rules, text, max)
  {
    var lines := Split(text);
    var chunks: seq<string>, current: seq<Item>, size: nat := [], [], 0;
    ghost var st := EMPTY;
    var i: nat := 0;
    while i < |lines|
      invariant i <= |lines| && Outcome(rules, text, max) == Walk(rules, lines, i, st, max)
      invariant Tracks(st, chunks, current, size)
    {
      var line := lines[i];
      var e, seg := i + 1, Plain(line);
      if IsHeading(rules, line) && current != [] {
        seg := Heading(line);
      } else if IsRow(rules, line) || IsSeparator(rules, line) {
        e := ReadRun(rules, lines, i);
        seg := Run(lines[i..e]);
      }
      assert seg == SegmentAt(rules, lines, i, st) && e == Next(rules, lines, i, st);
      chunks, current, size := AddSegment(rules, st, chunks, current, size, seg, max);
      st := Add(rules, st, seg, max);
      i := e;
    }
    chunks, current, size := FlushChunk(st, chunks, current, size);
    result := if chunks != [] then chunks else [text];
  }

  method SimpleChunk(rules: Rules, text: string, size: Size, overlap: int) returns (chunks: seq<string>)
    ensures chunks == SimpleChunks(rules, text, size, overlap)
  {
    if |text| <= size {
      return [text];
    }
    chunks := ChunkByStructure(rules, text, size);
    if |chunks| <= 1 {
      chunks := LC.ChunkOnLineBoundaries(text, size, overlap);
    }
  }
}
