/** Splitting text on line boundaries: lines are packed greedily, only a line too long for
    any chunk is cut, and a chunk may repeat the end of the chunk before it. */
module LineChunker {
  import opened Text

  /** Chunk sizes are positive. */
  type Size = n: int | 0 < n witness 1

  /** A chunk before stripping: whole lines, or one slice of an over-long line. */
  datatype Block = Lines(ls: seq<string>) | Slice(s: string)

  function BlockText(b: Block): string
  {
    match b
    case Lines(ls) => Strip(Join(ls))
    case Slice(s) => Strip(s)
  }

  /** A blank block leaves no chunk. */
  function ChunkOf(b: Block): seq<string>
  {
    if BlockText(b) == "" then [] else [BlockText(b)]
  }

  function ChunksOf(blocks: seq<Block>): seq<string>
  {
    FlatMap(ChunkOf, blocks)
  }

  function SliceEnd(line: string, pos: nat, size: Size): (end: nat)
    requires pos < |line|
    ensures pos < end <= |line| && end - pos <= size
  {
    if pos + size < |line| then pos + size else |line|
  }

  /** An over-long line cut into slices of `size` characters, from position `pos` on. */
  function Slices(line: string, pos: nat, size: Size): seq<Block>
    decreases |line| - pos
  {
    if pos >= |line| then []
    else [Slice(line[pos..SliceEnd(line, pos, size)])] + Slices(line, SliceEnd(line, pos, size), size)
  }

  /** Blocks finished so far and the lines of the open block. */
  datatype State = State(done: seq<Block>, current: seq<string>)

  function Flush(st: State): State
  {
    if st.current == [] then st else State(st.done + [Lines(st.current)], [])
  }

  /** The state in which a line that fits is appended. */
  function Room(st: State, line: string, size: Size): State
  {
    if Weight(st.current) + |line| + 1 > size then Flush(st) else st
  }

  function AddLine(st: State, line: string, size: Size): State
  {
    if |line| + 1 > size then State(Flush(st).done + Slices(line, 0, size), [])
    else State(Room(st, line, size).done, Room(st, line, size).current + [line])
  }

  function Pack(lines: seq<string>, i: nat, st: State, size: Size): State
    requires i <= |lines|
    decreases |lines| - i
  {
    if i == |lines| then Flush(st) else Pack(lines, i + 1, AddLine(st, lines[i], size), size)
  }

  function Blocks(text: string, size: Size): seq<Block>
  {
    Pack(Split(text), 0, State([], []), size).done
  }

  function BaseChunks(text: string, size: Size): seq<string>
  {
    ChunksOf(Blocks(text, size))
  }

  // ---------- overlap ----------

  /** What follows the first newline, or everything when there is none. */
  function AfterNewline(s: string): (r: string)
    ensures |r| <= |s|
  {
    if '\n' in s then (if s[0] == '\n' then s[1..] else AfterNewline(s[1..])) else s
  }

  function OverlapTail(prev: string, overlap: nat): string
  {
    AfterNewline(if overlap < |prev| then prev[|prev| - overlap..] else prev)
  }

  function WithOverlap(prev: string, chunk: string, overlap: nat): string
  {
    var tail := OverlapTail(prev, overlap);
    if tail == "" then chunk else Strip(tail + "\n" + chunk)
  }

  function OverlappedAt(chunks: seq<string>, overlap: nat, i: int): string
    requires 0 <= i < |chunks|
  {
    if i == 0 then chunks[0] else WithOverlap(chunks[i - 1], chunks[i], overlap)
  }

  function Overlapped(chunks: seq<string>, overlap: int): (r: seq<string>)
    ensures |r| == |chunks|
  {
    if overlap <= 0 || |chunks| <= 1 then chunks
    else seq(|chunks|, i requires 0 <= i < |chunks| => OverlappedAt(chunks, overlap, i))
  }

  function LineChunks(text: string, size: Size, overlap: int): seq<string>
  {
    Overlapped(BaseChunks(text, size), overlap)
  }

  // ---------- the program ----------

  /** Emits the open lines as a chunk, unless they are blank. */
  method FlushLines(chunks: seq<string>, current: seq<string>) returns (more: seq<string>)
    ensures more == chunks + if current == [] then [] else ChunkOf(Lines(current))
  {
    more := chunks;
    if current != [] {
      var chunk := Strip(Join(current));
      if chunk != "" {
        more := more + [chunk];
      }
    }
  }

  lemma FlushedChunks(st: State)
    ensures ChunksOf(Flush(st).done) ==
            ChunksOf(st.done) + if st.current == [] then [] else ChunkOf(Lines(st.current))
  {
    FlatMapSnoc(ChunkOf, st.done, Lines(st.current));
  }

  /** Emits the slices of an over-long line from `start` on. */
  method SliceLine(chunks: seq<string>, line: string, size: Size) returns (more: seq<string>)
    ensures more == chunks + ChunksOf(Slices(line, 0, size))
  {
    more := chunks;
    var start: nat := 0;
    while start < |line|
      invariant more + ChunksOf(Slices(line, start, size)) == chunks + ChunksOf(Slices(line, 0, size))
    {
      var end := SliceEnd(line, start, size);
      ghost var rest := ChunksOf(Slices(line, end, size));
      FirstSlice(line, start, size);
      Assoc(more, ChunkOf(Slice(line[start..end])), rest);
      more := EmitPiece(more, line[start..end]);
      start := end;
    }
  }

  method EmitPiece(chunks: seq<string>, text: string) returns (more: seq<string>)
    ensures more == chunks + ChunkOf(Slice(text))
  {
    var piece := Strip(text);
    more := if piece != "" then chunks + [piece] else chunks;
  }

  lemma FirstSlice(line: string, start: nat, size: Size)
    requires start < |line|
    ensures var end := SliceEnd(line, start, size);
      ChunksOf(Slices(line, start, size)) == ChunkOf(Slice(line[start..end])) + ChunksOf(Slices(line, end, size))
  {
    var end := SliceEnd(line, start, size);
    FlatMapAppend(ChunkOf, [Slice(line[start..end])], Slices(line, end, size));
    FlatMapOne(ChunkOf, Slice(line[start..end]));
  }

  method EmitLine(chunks: seq<string>, ghost st: State, current: seq<string>, currentLen: nat,
                  line: string, size: Size)
    returns (more: seq<string>, current': seq<string>, currentLen': nat)
    requires chunks == ChunksOf(st.done) && current == st.current && currentLen == Weight(current)
    ensures var st' := AddLine(st, line, size);
      more == ChunksOf(st'.done) && current' == st'.current && currentLen' == Weight(current')
  {
    FlushedChunks(st);
    var lineLen := |line| + 1;
    if lineLen > size {
      more := FlushLines(chunks, current);
      FlatMapAppend(ChunkOf, Flush(st).done, Slices(line, 0, size));
      more := SliceLine(more, line, size);
      return more, [], 0;
    }
    more, current', currentLen' := chunks, current, currentLen;
    if currentLen + lineLen > size {
      more := FlushLines(chunks, current);
      current', currentLen' := [], 0;
    }
    WeightSnoc(current', line);
    current' := current' + [line];
    currentLen' := currentLen' + lineLen;
  }

  method PackLines(text: string, size: Size) returns (chunks: seq<string>)
    ensures chunks == BaseChunks(text, size)
  {
    var lines := Split(text);
    chunks := [];
    var current: seq<string>, currentLen: nat := [], 0;
    ghost var st := State([], []);
    for i := 0 to |lines|
      invariant Pack(lines, 0, State([], []), size) == Pack(lines, i, st, size)
      invariant chunks == ChunksOf(st.done) && current == st.current && currentLen == Weight(current)
    {
      chunks, current, currentLen := EmitLine(chunks, st, current, currentLen, lines[i], size);
      st := AddLine(st, lines[i], size);
    }
    FlushedChunks(st);
    chunks := FlushLines(chunks, current);
  }

  method OverlapChunk(prev: string, chunk: string, overlap: nat) returns (r: string)
    requires 0 < overlap
    ensures r == WithOverlap(prev, chunk, overlap)
  {
    var prevTail := if overlap < |prev| then prev[|prev| - overlap..] else prev;
    prevTail := AfterNewline(prevTail);
    assert prevTail == OverlapTail(prev, overlap);
    r := if prevTail != "" then Strip(prevTail + "\n" + chunk) else chunk;
  }

  method OverlapChunks(chunks: seq<string>, overlap: nat) returns (overlapped: seq<string>)
    requires 0 < overlap && 1 < |chunks|
    ensures overlapped == Overlapped(chunks, overlap)
  {
    overlapped := [chunks[0]];
    for i := 1 to |chunks|
      invariant OverlapDone(chunks, overlap, overlapped) && |overlapped| == i
    {
      var next := OverlapChunk(chunks[i - 1], chunks[i], overlap);
      OverlapSnoc(chunks, overlap, overlapped, next);
      overlapped := overlapped + [next];
    }
  }

  ghost predicate OverlapDone(chunks: seq<string>, overlap: nat, done: seq<string>)
  {
    |done| <= |chunks| && forall j :: 0 <= j < |done| ==> done[j] == OverlappedAt(chunks, overlap, j)
  }

  lemma OverlapSnoc(chunks: seq<string>, overlap: nat, done: seq<string>, next: string)
    requires OverlapDone(chunks, overlap, done) && |done| < |chunks|
    requires next == OverlappedAt(chunks, overlap, |done|)
    ensures OverlapDone(chunks, overlap, done + [next])
  {
  }

  method ChunkOnLineBoundaries(text: string, size: Size, overlap: int) returns (chunks: seq<string>)
    ensures chunks == LineChunks(text, size, overlap)
  {
    chunks := PackLines(text, size);
    if overlap > 0 && |chunks| > 1 {
      chunks := OverlapChunks(chunks, overlap);
    }
  }

  // ---------- lines are kept whole ----------

  /** Where a line must be found: whole when it fits, in its slices when it does not. */
  function PieceOf(line: string, size: Size): seq<Block>
  {
    if |line| + 1 > size then Slices(line, 0, size) else [Lines([line])]
  }

  function PiecesOf(lines: seq<string>, size: Size): seq<Block>
  {
    FlatMap((l: string) => PieceOf(l, size), lines)
  }

  /** A block taken apart into single lines, or a slice. */
  function ApartOne(b: Block): seq<Block>
  {
    match b
    case Slice(_) => [b]
    case Lines(ls) => ApartLines(ls)
  }

  function ApartLines(ls: seq<string>): seq<Block>
  {
    if ls == [] then [] else [Lines([ls[0]])] + ApartLines(ls[1..])
  }

  function Apart(blocks: seq<Block>): seq<Block>
  {
    FlatMap(ApartOne, blocks)
  }

  lemma {:induction false} ApartLinesSnoc(ls: seq<string>, line: string)
    ensures ApartLines(ls + [line]) == ApartLines(ls) + [Lines([line])]
    decreases |ls|
  {
    if ls == [] {
      assert [line][1..] == [];
      assert ls + [line] == [line];
    } else {
      assert (ls + [line])[1..] == ls[1..] + [line];
      ApartLinesSnoc(ls[1..], line);
    }
  }

  lemma {:induction false} ApartSlices(line: string, pos: nat, size: Size)
    ensures Apart(Slices(line, pos, size)) == Slices(line, pos, size)
    decreases |line| - pos
  {
    if pos < |line| {
      var end := SliceEnd(line, pos, size);
      ApartSlices(line, end, size);
      FlatMapAppend(ApartOne, [Slice(line[pos..end])], Slices(line, end, size));
      FlatMapOne(ApartOne, Slice(line[pos..end]));
    }
  }

  /** Everything a state holds, taken apart. */
  function Held(st: State): seq<Block>
  {
    Apart(st.done) + ApartLines(st.current)
  }

  lemma FlushKeepsHeld(st: State)
    ensures Held(Flush(st)) == Held(st)
  {
    FlatMapSnoc(ApartOne, st.done, Lines(st.current));
  }

  lemma AddLongLineHeld(st: State, line: string, size: Size)
    requires |line| + 1 > size
    ensures Held(AddLine(st, line, size)) == Held(st) + Slices(line, 0, size)
  {
    FlushKeepsHeld(st);
    var done, slices := Flush(st).done, Slices(line, 0, size);
    FlatMapAppend(ApartOne, done, slices);
    ApartSlices(line, 0, size);
    assert Held(Flush(st)) == Apart(done);
    assert Held(State(done + slices, [])) == Apart(done + slices);
  }

  lemma AppendHeld(done: seq<Block>, current: seq<string>, line: string)
    ensures Held(State(done, current + [line])) == Held(State(done, current)) + [Lines([line])]
  {
    ApartLinesSnoc(current, line);
    Assoc(Apart(done), ApartLines(current), [Lines([line])]);
  }

  lemma AddLineHeld(st: State, line: string, size: Size)
    ensures Held(AddLine(st, line, size)) == Held(st) + PieceOf(line, size)
  {
    if |line| + 1 > size {
      AddLongLineHeld(st, line, size);
    } else {
      FlushKeepsHeld(st);
      var open := Room(st, line, size);
      AppendHeld(open.done, open.current, line);
    }
  }

  lemma {:induction false} PackHeld(lines: seq<string>, i: nat, st: State, size: Size)
    requires i <= |lines| && Held(st) == PiecesOf(lines[..i], size)
    ensures Held(Pack(lines, i, st, size)) == PiecesOf(lines, size)
    ensures Pack(lines, i, st, size).current == []
    decreases |lines| - i
  {
    if i == |lines| {
      assert lines[..i] == lines;
      FlushKeepsHeld(st);
    } else {
      AddLineHeld(st, lines[i], size);
      FlatMapSnoc((l: string) => PieceOf(l, size), lines[..i], lines[i]);
      assert lines[..i + 1] == lines[..i] + [lines[i]];
      PackHeld(lines, i + 1, AddLine(st, lines[i], size), size);
    }
  }

  /** Every line that fits a chunk lies whole in exactly one block; only longer lines are
      sliced; and the blocks list all of them in the order of the text. */
  lemma LinesKeptWhole(text: string, size: Size)
    ensures Apart(Blocks(text, size)) == PiecesOf(Split(text), size)
  {
    assert Split(text)[..0] == [];
    PackHeld(Split(text), 0, State([], []), size);
  }

  // ---------- sizes ----------

  predicate BlockFits(b: Block, size: Size)
  {
    match b
    case Lines(ls) => ls != [] && Weight(ls) <= size
    case Slice(s) => 0 < |s| <= size
  }

  /** Two blocks of lines stand next to each other only when the first line of the second
      no longer fitted the first. */
  predicate Greedy(a: Block, b: Block, size: Size)
  {
    a.Lines? && b.Lines? && b.ls != [] ==> Weight(a.ls) + |b.ls[0]| + 1 > size
  }

  predicate BlocksFit(blocks: seq<Block>, size: Size)
  {
    && (forall k :: 0 <= k < |blocks| ==> BlockFits(blocks[k], size))
    && (forall k :: 0 < k < |blocks| ==> Greedy(blocks[k - 1], blocks[k], size))
  }

  ghost predicate StateFits(st: State, size: Size)
  {
    && BlocksFit(st.done, size) && Weight(st.current) <= size
    && (st.done != [] && st.current != [] ==> Greedy(st.done[|st.done| - 1], Lines(st.current), size))
    && (st.done != [] && st.current == [] ==> st.done[|st.done| - 1].Slice?)
  }

  lemma {:induction false} SlicesFit(line: string, pos: nat, size: Size)
    ensures forall k :: 0 <= k < |Slices(line, pos, size)| ==>
              Slices(line, pos, size)[k].Slice? && BlockFits(Slices(line, pos, size)[k], size)
    decreases |line| - pos
  {
    if pos < |line| {
      SlicesFit(line, SliceEnd(line, pos, size), size);
    }
  }

  lemma FlushFits(st: State, size: Size)
    requires StateFits(st, size)
    ensures BlocksFit(Flush(st).done, size)
  {
  }

  lemma AddShortLineFits(st: State, line: string, size: Size)
    requires StateFits(st, size) && |line| + 1 <= size
    ensures StateFits(AddLine(st, line, size), size)
  {
    FlushFits(st, size);
    var open := Room(st, line, size);
    WeightSnoc(open.current, line);
    var after := open.current + [line];
    assert Weight(after) <= size;
    if open.done != [] {
      assert Greedy(open.done[|open.done| - 1], Lines(after), size);
    }
  }

  lemma AddLongLineFits(st: State, line: string, size: Size)
    requires StateFits(st, size) && |line| + 1 > size
    ensures StateFits(AddLine(st, line, size), size)
  {
    SlicesFit(line, 0, size);
    FlushFits(st, size);
    var slices := Slices(line, 0, size);
    assert slices != [];
    var done := Flush(st).done + slices;
    assert done[|done| - 1] == slices[|slices| - 1];
  }

  lemma {:induction false} PackFits(lines: seq<string>, i: nat, st: State, size: Size)
    requires i <= |lines| && StateFits(st, size)
    ensures BlocksFit(Pack(lines, i, st, size).done, size)
    decreases |lines| - i
  {
    if i < |lines| {
      if |lines[i]| + 1 > size {
        AddLongLineFits(st, lines[i], size);
      } else {
        AddShortLineFits(st, lines[i], size);
      }
      PackFits(lines, i + 1, AddLine(st, lines[i], size), size);
    }
  }

  predicate ChunkFits(c: string, size: Size)
  {
    0 < |c| <= size && Trim(c)
  }

  lemma BlockTextFits(b: Block, size: Size)
    requires BlockFits(b, size)
    ensures |BlockText(b)| <= size && Trim(BlockText(b))
  {
    match b {
      case Lines(ls) => JoinLength(ls); StripTrims(Join(ls));
      case Slice(s) => StripTrims(s);
    }
  }

  lemma {:induction false} ChunksOfFit(blocks: seq<Block>, size: Size)
    requires forall k :: 0 <= k < |blocks| ==> BlockFits(blocks[k], size)
    ensures forall k :: 0 <= k < |ChunksOf(blocks)| ==> ChunkFits(ChunksOf(blocks)[k], size)
    decreases |blocks|
  {
    if blocks != [] {
      ChunksOfFit(blocks[1..], size);
      BlockTextFits(blocks[0], size);
      var head, rest := ChunkOf(blocks[0]), ChunksOf(blocks[1..]);
      assert ChunksOf(blocks) == head + rest;
      forall k | 0 <= k < |head + rest| ensures ChunkFits((head + rest)[k], size) {
        if k >= |head| {
          assert (head + rest)[k] == rest[k - |head|];
        }
      }
    }
  }

  /** Without overlap no chunk exceeds the size, packing is greedy, and every chunk is a
      non-empty stripped text. */
  lemma BaseChunksFit(text: string, size: Size)
    ensures BlocksFit(Blocks(text, size), size)
    ensures forall k :: 0 <= k < |BaseChunks(text, size)| ==> ChunkFits(BaseChunks(text, size)[k], size)
  {
    PackFits(Split(text), 0, State([], []), size);
    ChunksOfFit(Blocks(text, size), size);
  }

  predicate EndsWith(s: string, suffix: string)
  {
    |suffix| <= |s| && s[|s| - |suffix|..] == suffix
  }

  lemma OverlapOne(prev: string, chunk: string, size: Size, overlap: nat)
    requires ChunkFits(chunk, size)
    ensures EndsWith(WithOverlap(prev, chunk, overlap), chunk)
    ensures |WithOverlap(prev, chunk, overlap)| <= size + overlap + 1
    ensures WithOverlap(prev, chunk, overlap) ==
      if OverlapTail(prev, overlap) == "" then chunk else LStrip(OverlapTail(prev, overlap) + "\n") + chunk
  {
    StripEndsWith(OverlapTail(prev, overlap) + "\n", chunk);
  }

  /** With overlap each chunk still ends with its own base chunk, preceded only by a tail of
      the chunk before it, and grows by at most overlap + 1. */
  lemma OverlapKeepsChunks(text: string, size: Size, overlap: nat, k: int)
    requires 0 <= k < |BaseChunks(text, size)|
    ensures |LineChunks(text, size, overlap)| == |BaseChunks(text, size)|
    ensures EndsWith(LineChunks(text, size, overlap)[k], BaseChunks(text, size)[k])
    ensures |LineChunks(text, size, overlap)[k]| <= size + overlap + 1
    ensures k > 0 && overlap > 0 ==>
      LineChunks(text, size, overlap)[k] ==
        var tail := OverlapTail(BaseChunks(text, size)[k - 1], overlap);
        if tail == "" then BaseChunks(text, size)[k] else LStrip(tail + "\n") + BaseChunks(text, size)[k]
  {
    BaseChunksFit(text, size);
    var base := BaseChunks(text, size);
    if k > 0 && overlap > 0 {
      OverlapOne(base[k - 1], base[k], size, overlap);
    }
  }

  // ---------- where the overlap starts ----------

  predicate StartsLine(s: string, pos: nat)
  {
    pos <= |s| && (pos == 0 || s[pos - 1] == '\n')
  }

  /** The tail consists of the last lines of the text, all of them whole. */
  ghost predicate WholeLines(s: string, tail: string)
  {
    exists k :: LastLines(s, k, tail)
  }

  predicate LastLines(s: string, k: nat, tail: string)
  {
    k < |Split(s)| && tail == Join(Split(s)[k..])
  }

  lemma LastLinesStart(s: string, k: nat, tail: string)
    requires LastLines(s, k, tail)
    ensures |tail| <= |s| && StartsLine(s, |s| - |tail|)
  {
    var lines := Split(s);
    JoinSplit(s);
    assert lines == lines[..k] + lines[k..];
    if k > 0 {
      JoinAppend(lines[..k], lines[k..]);
    }
  }

  lemma {:induction false} StartsLastLines(s: string, pos: nat) returns (k: nat)
    requires StartsLine(s, pos)
    ensures LastLines(s, k, s[pos..])
    decreases |s|
  {
    JoinSplit(s);
    if pos == 0 {
      k := 0;
    } else {
      var rest := s[1..];
      JoinSplit(rest);
      var j := StartsLastLines(rest, if pos == 1 then 0 else pos - 1);
      assert s[pos..] == rest[pos - 1..];
      if s[0] == '\n' {
        k := j + 1;
        assert Split(s)[k..] == Split(rest)[j..];
      } else {
        k := j;
        assert j > 0;
        assert Split(s)[k..] == Split(rest)[j..];
      }
    }
  }

  lemma {:induction false} AfterNewlineAt(s: string) returns (j: nat)
    ensures j <= |s| && AfterNewline(s) == s[j..]
    ensures if '\n' in s then 0 < j && s[j - 1] == '\n' && '\n' !in s[..j - 1] else j == 0
    decreases |s|
  {
    if '\n' !in s {
      j := 0;
    } else if s[0] == '\n' {
      j := 1;
    } else {
      j := AfterNewlineAt(s[1..]);
      assert s[..j] == [s[0]] + s[1..][..j - 1];
      j := j + 1;
    }
  }

  /** The overlap starts at a line exactly when the whole chunk is repeated, or the last
      characters contain a newline, or they happen to start just after one. Otherwise it
      starts in the middle of the chunk's last line. */
  lemma OverlapWholeIff(prev: string, overlap: nat)
    requires 0 < overlap
    ensures WholeLines(prev, OverlapTail(prev, overlap)) <==>
      || |prev| <= overlap
      || '\n' in prev[|prev| - overlap..]
      || prev[|prev| - overlap - 1] == '\n'
  {
    var from := if overlap < |prev| then |prev| - overlap else 0;
    var slice := prev[from..];
    var j := AfterNewlineAt(slice);
    var tail := OverlapTail(prev, overlap);
    assert tail == prev[from + j..];
    if StartsLine(prev, from + j) {
      var k := StartsLastLines(prev, from + j);
    }
    if k :| LastLines(prev, k, tail) {
      LastLinesStart(prev, k, tail);
    }
    assert j > 0 ==> prev[from + j - 1] == slice[j - 1];
  }

  /** Whole last lines that start inside a slice start behind its first newline. */
  lemma NoLongerTail(prev: string, from: nat, j: nat, t: string)
    requires 0 < j && from + j <= |prev| && '\n' !in prev[from..][..j - 1]
    requires WholeLines(prev, t) && |t| < |prev| - from
    ensures |t| <= |prev| - from - j
  {
    var m :| LastLines(prev, m, t);
    LastLinesStart(prev, m, t);
    var at := |prev| - |t| - 1 - from;
    assert prev[from..][at] == prev[from + at] == '\n';
    NoneBefore(prev[from..], '\n', j - 1);
  }

  /** What the overlap is: the last characters, when no line ends among them, and otherwise
      the longest run of whole last lines that is shorter. */
  lemma OverlapTailLongest(prev: string, overlap: nat)
    requires 0 < overlap
    ensures var n := if overlap < |prev| then overlap else |prev|;
      var slice, tail := prev[|prev| - n..], OverlapTail(prev, overlap);
      if '\n' !in slice then tail == slice
      else WholeLines(prev, tail) && |tail| < n && forall t :: WholeLines(prev, t) && |t| < n ==> |t| <= |tail|
  {
    var from: nat := if overlap < |prev| then |prev| - overlap else 0;
    var slice := prev[from..];
    assert from == 0 ==> slice == prev;
    var j := AfterNewlineAt(slice);
    assert OverlapTail(prev, overlap) == prev[from + j..];
    if '\n' in slice {
      assert slice[j - 1] == prev[from + j - 1];
      var k := StartsLastLines(prev, from + j);
      forall t | WholeLines(prev, t) && |t| < |prev| - from ensures |t| <= |prev| - from - j {
        NoLongerTail(prev, from, j, t);
      }
    }
  }

  lemma NoneBefore(s: string, c: char, j: int)
    requires 0 <= j <= |s| && c !in s[..j]
    ensures forall k :: 0 <= k < |s| && s[k] == c ==> j <= k
  {
    assert forall k :: 0 <= k < j ==> s[..j][k] == s[k];
  }

  predicate Word(s: string)
  {
    s != "" && forall k :: 0 <= k < |s| ==> !IsSpace(s[k])
  }

  lemma WithFragment(prev: string, chunk: string, overlap: nat)
    requires Word(prev) && Word(chunk) && 0 < overlap < |prev|
    ensures OverlapTail(prev, overlap) == prev[|prev| - overlap..]
    ensures WithOverlap(prev, chunk, overlap) == prev[|prev| - overlap..] + "\n" + chunk
  {
    var tail := prev[|prev| - overlap..];
    assert !IsSpace(tail[0]);
    assert '\n' !in tail;
    StripEndsWith(tail + "\n", chunk);
    assert LStrip(tail + "\n") == tail + "\n";
  }

  lemma TwoLines(a: string, b: string, size: Size)
    requires Word(a) && Word(b) && |a| < size && |b| < size < |a| + |b| + 2
    ensures Blocks(a + "\n" + b, size) == [Lines([a]), Lines([b])]
  {
    SplitFirst(a, b);
    SplitLine(b);
    var lines := [a, b];
    assert Split(a + "\n" + b) == lines;
    var st1 := AddLine(State([], []), a, size);
    assert [] + [a] == [a] && [] + [b] == [b];
    WeightSnoc([], a);
    WeightSnoc([], b);
    assert st1 == State([], [a]);
    var st2 := AddLine(st1, b, size);
    assert st2 == State([Lines([a])], [b]);
    assert Pack(lines, 2, st2, size) == Flush(st2);
    assert Pack(lines, 1, st1, size) == Pack(lines, 2, st2, size);
    assert Pack(lines, 0, State([], []), size) == Pack(lines, 1, st1, size);
  }

  lemma OneLineChunk(line: string)
    requires Word(line)
    ensures FlatMap(ChunkOf, [Lines([line])]) == [line]
  {
    FlatMapOne(ChunkOf, Lines([line]));
    StripEndsWith("", line);
    assert "" + line == line && LStrip("") == "";
  }

  /** For any two words that do not fit one chunk together, the second chunk starts with a
      fragment of the first word: a line is repeated in part. */
  lemma OverlapStartsMidLine(a: string, b: string, size: Size, overlap: nat)
    requires Word(a) && Word(b) && |a| < size && |b| < size < |a| + |b| + 2 && 0 < overlap < |a|
    ensures LineChunks(a + "\n" + b, size, overlap) == [a, a[|a| - overlap..] + "\n" + b]
    ensures !WholeLines(a, a[|a| - overlap..])
  {
    TwoLines(a, b, size);
    OneLineChunk(a);
    OneLineChunk(b);
    FlatMapAppend(ChunkOf, [Lines([a])], [Lines([b])]);
    assert [Lines([a])] + [Lines([b])] == [Lines([a]), Lines([b])];
    assert BaseChunks(a + "\n" + b, size) == [a, b];
    WithFragment(a, b, overlap);
    assert LineChunks(a + "\n" + b, size, overlap) == [a, WithOverlap(a, b, overlap)];
    OverlapWholeIff(a, overlap);
  }

  // ---------- content ----------

  function SolidBlock(b: Block): string
  {
    match b
    case Lines(ls) => SolidAll(ls)
    case Slice(s) => Solid(s)
  }

  lemma ChunkOfSolid(b: Block)
    ensures SolidAll(ChunkOf(b)) == SolidBlock(b)
  {
    match b {
      case Lines(ls) => SolidStrip(Join(ls)); SolidJoin(ls);
      case Slice(s) => SolidStrip(s);
    }
    FlatMapOne(Solid, BlockText(b));
  }

  lemma {:induction false} ApartLinesSolid(ls: seq<string>)
    ensures FlatMap(SolidBlock, ApartLines(ls)) == SolidAll(ls)
    decreases |ls|
  {
    if ls != [] {
      ApartLinesSolid(ls[1..]);
      FlatMapAppend(SolidBlock, [Lines([ls[0]])], ApartLines(ls[1..]));
      FlatMapOne(SolidBlock, Lines([ls[0]]));
      FlatMapOne(Solid, ls[0]);
    }
  }

  lemma ApartOneSolid(b: Block)
    ensures FlatMap(SolidBlock, ApartOne(b)) == SolidBlock(b)
  {
    match b {
      case Lines(ls) => ApartLinesSolid(ls);
      case Slice(_) => FlatMapOne(SolidBlock, b);
    }
  }

  lemma {:induction false} SlicesSolid(line: string, pos: nat, size: Size)
    requires pos <= |line|
    ensures FlatMap(SolidBlock, Slices(line, pos, size)) == Solid(line[pos..])
    decreases |line| - pos
  {
    if pos < |line| {
      var end := SliceEnd(line, pos, size);
      var head, tail := line[pos..end], line[end..];
      SlicesSolid(line, end, size);
      assert line[pos..] == head + tail;
      SolidAppend(head, tail);
    }
  }

  lemma PieceSolid(line: string, size: Size)
    ensures FlatMap(SolidBlock, PieceOf(line, size)) == Solid(line)
  {
    if |line| + 1 > size {
      SlicesSolid(line, 0, size);
      assert line[0..] == line;
    } else {
      FlatMapOne(SolidBlock, Lines([line]));
      FlatMapOne(Solid, line);
    }
  }

  /** No content is lost, repeated or reordered: the non-whitespace text of the base chunks
      is that of the input. */
  lemma ContentConserved(text: string, size: Size)
    ensures SolidAll(BaseChunks(text, size)) == Solid(text)
  {
    var blocks, lines := Blocks(text, size), Split(text);
    forall b: Block ensures SolidAll(ChunkOf(b)) == SolidBlock(b) { ChunkOfSolid(b); }
    forall b: Block ensures FlatMap(SolidBlock, ApartOne(b)) == SolidBlock(b) { ApartOneSolid(b); }
    forall l: string ensures FlatMap(SolidBlock, PieceOf(l, size)) == Solid(l) { PieceSolid(l, size); }
    FlatMapFuse(ChunkOf, Solid, SolidBlock, blocks);
    FlatMapFuse(ApartOne, SolidBlock, SolidBlock, blocks);
    LinesKeptWhole(text, size);
    FlatMapFuse((l: string) => PieceOf(l, size), SolidBlock, Solid, lines);
    SolidJoin(lines);
    JoinSplit(text);
  }
}
