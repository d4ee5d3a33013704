/** The chunks of a text are passages of the text itself. */
module ChunkPassages {
  import opened Text
  import opened Passages
  import opened LineChunker

  // ---------- passages ----------

  function Raw(b: Block): string
  {
    match b
    case Lines(ls) => Join(ls)
    case Slice(s) => s
  }

  lemma ChunkEmitted(b: Block)
    ensures ChunkOf(b) == Emit(Raw(b))
  {
  }

  /** The lines up to `i` are the passages emitted and the open lines. */
  ghost predicate OpenAt(lines: seq<string>, i: nat, st: State)
  {
    && |st.current| <= i <= |lines| && st.current == lines[i - |st.current|..i]
    && PassagesOf(Ended(lines[..i - |st.current|]), ChunksOf(st.done))
  }

  lemma LinesEmitted(text: string, done: seq<Block>, lines: seq<string>)
    requires PassagesOf(text, ChunksOf(done)) && lines != []
    ensures PassagesOf(text + Ended(lines), ChunksOf(done + [Lines(lines)]))
  {
    PassagesThenLines(text, ChunksOf(done), lines);
    ChunkEmitted(Lines(lines));
    FlatMapSnoc(ChunkOf, done, Lines(lines));
  }

  lemma FlushOpen(lines: seq<string>, i: nat, st: State)
    requires OpenAt(lines, i, st)
    ensures OpenAt(lines, i, Flush(st)) && Flush(st).current == []
  {
    if st.current != [] {
      var k := i - |st.current|;
      LinesEmitted(Ended(lines[..k]), st.done, st.current);
      EndedTo(lines, k, i);
    }
  }

  lemma EndedTo(lines: seq<string>, k: nat, i: nat)
    requires k <= i <= |lines|
    ensures Ended(lines[..i]) == Ended(lines[..k]) + Ended(lines[k..i])
  {
    FlatMapParts(EndLine, lines[..i], lines[..k], lines[k..i]);
  }

  lemma {:induction false} SlicesPassages(text: string, chunks: seq<string>, line: string, pos: nat, size: Size)
    requires pos <= |line| && PassagesOf(text + line[..pos], chunks)
    ensures PassagesOf(text + line, chunks + ChunksOf(Slices(line, pos, size)))
    decreases |line| - pos
  {
    if pos == |line| {
      assert line[..pos] == line && chunks + [] == chunks;
    } else {
      var end := SliceEnd(line, pos, size);
      var slice := line[pos..end];
      PassagesThenStripped(text + line[..pos], chunks, slice);
      assert line[..pos] + slice == line[..end];
      Assoc(text, line[..pos], slice);
      SlicesPassages(text, chunks + Emit(slice), line, end, size);
      FirstSlice(line, pos, size);
      Assoc(chunks, Emit(slice), ChunksOf(Slices(line, end, size)));
    }
  }

  lemma LongLinePassages(lines: seq<string>, i: nat, st: State, size: Size)
    requires i < |lines| && OpenAt(lines, i, st) && st.current == []
    ensures PassagesOf(Ended(lines[..i + 1]), ChunksOf(st.done + Slices(lines[i], 0, size)))
  {
    var text, line, chunks := Ended(lines[..i]), lines[i], ChunksOf(st.done);
    assert lines[..i - 0] == lines[..i];
    assert text + line[..0] == text;
    SlicesPassages(text, chunks, line, 0, size);
    FlatMapAppend(ChunkOf, st.done, Slices(line, 0, size));
    PassagesThenSpace(text + line, chunks + ChunksOf(Slices(line, 0, size)), "\n");
    Assoc(text, line, "\n");
    FlatMapNext(EndLine, lines, i);
  }

  lemma AddLineOpen(lines: seq<string>, i: nat, st: State, size: Size)
    requires i < |lines| && OpenAt(lines, i, st)
    ensures OpenAt(lines, i + 1, AddLine(st, lines[i], size))
  {
    FlushOpen(lines, i, st);
    if |lines[i]| + 1 > size {
      LongLinePassages(lines, i, Flush(st), size);
    } else if Weight(st.current) + |lines[i]| + 1 > size {
      OpenNext(lines, i, Flush(st));
    } else {
      OpenNext(lines, i, st);
    }
  }

  lemma OpenNext(lines: seq<string>, i: nat, st: State)
    requires i < |lines| && OpenAt(lines, i, st)
    ensures OpenAt(lines, i + 1, State(st.done, st.current + [lines[i]]))
  {
    var k := i - |st.current|;
    assert lines[k..i + 1] == lines[k..i] + [lines[i]];
  }

  lemma AllOpen(lines: seq<string>, st: State)
    requires OpenAt(lines, |lines|, st) && st.current == []
    ensures PassagesOf(Ended(lines), ChunksOf(st.done))
  {
    assert lines[..|lines|] == lines;
  }

  lemma {:induction false} PackOpen(lines: seq<string>, i: nat, st: State, size: Size)
    requires OpenAt(lines, i, st)
    ensures OpenAt(lines, |lines|, Pack(lines, i, st, size)) && Pack(lines, i, st, size).current == []
    decreases |lines| - i
  {
    if i == |lines| {
      FlushOpen(lines, i, st);
    } else {
      var next := AddLine(st, lines[i], size);
      AddLineOpen(lines, i, st, size);
      PackOpen(lines, i + 1, next, size);
    }
  }

  // ---------- what each passage is ----------

  predicate LinesFrom(lines: seq<string>, ls: seq<string>, i: int)
  {
    0 <= i && i + |ls| <= |lines| && ls != [] && ls == lines[i..i + |ls|]
  }

  /** A slice of `size` characters, or the last one, of a line that no chunk can hold. */
  predicate SliceFrom(lines: seq<string>, s: string, size: Size, i: int, m: nat)
  {
    && 0 <= i < |lines| && |lines[i]| + 1 > size && m * size < |lines[i]|
    && s == lines[i][m * size..SliceEnd(lines[i], m * size, size)]
  }

  ghost predicate BlockFrom(lines: seq<string>, b: Block, size: Size)
  {
    match b
    case Lines(ls) => exists i :: LinesFrom(lines, ls, i)
    case Slice(s) => exists i, m: nat :: SliceFrom(lines, s, size, i, m)
  }

  ghost predicate BlocksFrom(lines: seq<string>, blocks: seq<Block>, size: Size)
  {
    forall k :: 0 <= k < |blocks| ==> BlockFrom(lines, blocks[k], size)
  }

  lemma {:induction false} SlicesFrom(lines: seq<string>, i: int, m: nat, pos: nat, size: Size)
    requires 0 <= i < |lines| && |lines[i]| + 1 > size && (pos == m * size || pos == |lines[i]|)
    ensures BlocksFrom(lines, Slices(lines[i], pos, size), size)
    decreases |lines[i]| - pos
  {
    var line := lines[i];
    if pos < |line| {
      var end := SliceEnd(line, pos, size);
      assert SliceFrom(lines, line[pos..end], size, i, m);
      assert (m + 1) * size == m * size + size;
      SlicesFrom(lines, i, m + 1, end, size);
    }
  }

  lemma FlushFrom(lines: seq<string>, i: nat, st: State, size: Size)
    requires OpenAt(lines, i, st) && BlocksFrom(lines, st.done, size)
    ensures BlocksFrom(lines, Flush(st).done, size)
  {
    if st.current != [] {
      assert LinesFrom(lines, st.current, i - |st.current|);
      assert BlockFrom(lines, Lines(st.current), size);
    }
  }

  lemma {:induction false} PackFrom(lines: seq<string>, i: nat, st: State, size: Size)
    requires OpenAt(lines, i, st) && BlocksFrom(lines, st.done, size)
    ensures BlocksFrom(lines, Pack(lines, i, st, size).done, size)
    decreases |lines| - i
  {
    FlushFrom(lines, i, st, size);
    if i < |lines| {
      AddLineOpen(lines, i, st, size);
      if |lines[i]| + 1 > size {
        SlicesFrom(lines, i, 0, 0, size);
      }
      PackFrom(lines, i + 1, AddLine(st, lines[i], size), size);
    }
  }

  /** A chunk is the stripped join of consecutive lines, or a stripped slice of one line that
      is too long for any chunk. */
  ghost predicate FromText(text: string, size: Size, chunk: string)
  {
    exists b :: BlockFrom(Split(text), b, size) && chunk == Strip(Raw(b))
  }

  lemma {:induction false} ChunksFrom(blocks: seq<Block>, k: int) returns (j: nat)
    requires 0 <= k < |ChunksOf(blocks)|
    ensures j < |blocks| && ChunksOf(blocks)[k] == Strip(Raw(blocks[j])) != ""
    decreases |blocks|
  {
    if k < |ChunkOf(blocks[0])| {
      j := 0;
    } else {
      j := ChunksFrom(blocks[1..], k - |ChunkOf(blocks[0])|);
      j := j + 1;
    }
    assert ChunksOf(blocks) == ChunkOf(blocks[0]) + ChunksOf(blocks[1..]);
  }

  /** The base chunks are, in order, disjoint passages of the text with only whitespace
      between them; each is some consecutive lines as they stand in the text, stripped, or a
      slice of an over-long line. */
  lemma BaseChunksPassages(text: string, size: Size)
    ensures PassagesOf(text, BaseChunks(text, size))
    ensures forall k :: 0 <= k < |BaseChunks(text, size)| ==> FromText(text, size, BaseChunks(text, size)[k])
  {
    var lines, chunks := Split(text), BaseChunks(text, size);
    assert lines[0..0] == [] && lines[..0] == [];
    assert OpenAt(lines, 0, State([], []));
    PackOpen(lines, 0, State([], []), size);
    AllOpen(lines, Pack(lines, 0, State([], []), size));
    PackFrom(lines, 0, State([], []), size);
    EndedJoin(lines);
    JoinSplit(text);
    forall k | 0 <= k < |chunks| ensures chunks[k] != "" && Trim(chunks[k]) && FromText(text, size, chunks[k]) {
      var j := ChunksFrom(Blocks(text, size), k);
      StripTrims(Raw(Blocks(text, size)[j]));
      assert BlockFrom(lines, Blocks(text, size)[j], size);
    }
    PassagesWithoutEnd(text, "\n", chunks);
  }
}
