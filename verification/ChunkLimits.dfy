/** When a chunk for embedding is over the size limit. */
module ChunkLimits {
  import opened Text
  import opened SectionChunks
  import opened SectionProperties
  import SC = StructureChunker
  import SP = StructureProperties
  import Reread = ChunkReread
  import LC = LineChunker

  // ---------- when a chunk is over the limit ----------

  predicate Over(cfg: Config, texts: seq<string>)
  {
    exists k :: 0 <= k < |texts| && cfg.max < |texts[k]|
  }

  /** Some piece is not too small and over the limit. */
  predicate KeptOver(cfg: Config, pieces: seq<string>)
  {
    exists k :: 0 <= k < |pieces| && !TooSmall(pieces[k]) && cfg.max < |Strip(pieces[k])|
  }

  /** The piece ends over the limit: it is at most a fifth over it and is left alone, or one of
      the pieces it is split into is over it. */
  predicate PieceOver(cfg: Config, piece: string)
  {
    && !TooSmall(piece) && cfg.max < |Strip(piece)|
    && (TooLong(cfg, Strip(piece)) ==> KeptOver(cfg, SecondPieces(cfg, Strip(piece))))
  }

  predicate PageOver(cfg: Config, page: Page)
  {
    var text := Strip(page.rawText);
    cfg.max < |text| &&
    var pieces := SC.SimpleChunks(cfg.rules, text, cfg.max, cfg.overlap);
    exists k :: 0 <= k < |pieces| && PieceOver(cfg, pieces[k])
  }

  predicate SomeOver(cfg: Config, spans: seq<Span>)
  {
    exists k :: 0 <= k < |spans| && cfg.max < |spans[k].text|
  }

  /** Conversely it never joins a chunk over the limit with another. */
  lemma {:induction false} OverKept(cfg: Config, spans: seq<Span>, s: Span)
    requires s in spans && cfg.max < |s.text|
    ensures s in MergeSmall(cfg, spans)
    decreases |spans|
  {
    var init, last := spans[..|spans| - 1], spans[|spans| - 1];
    assert spans == init + [last];
    var merged := MergeSmall(cfg, init);
    if s in init {
      OverKept(cfg, init, s);
      PushKeeps(cfg, merged, last, s);
    } else {
      var k := |merged| - 1;
      assert JoinOrPush(cfg, merged, last) == merged + [last];
      assert (merged + [last])[k + 1] == s;
    }
  }

  lemma PushKeeps(cfg: Config, merged: seq<Span>, next: Span, s: Span)
    requires s in merged && cfg.max < |s.text|
    ensures s in JoinOrPush(cfg, merged, next)
  {
    var j :| 0 <= j < |merged| && merged[j] == s;
    assert JoinOrPush(cfg, merged, next)[j] == s;
  }

  lemma MergeOverIff(cfg: Config, spans: seq<Span>)
    ensures SomeOver(cfg, MergeSmall(cfg, spans)) <==> SomeOver(cfg, spans)
  {
    var merged := MergeSmall(cfg, spans);
    if k :| 0 <= k < |merged| && cfg.max < |merged[k].text| {
      MergedWithinLimit(cfg, spans, k);
    }
    if k :| 0 <= k < |spans| && cfg.max < |spans[k].text| {
      OverKept(cfg, spans, spans[k]);
    }
  }

  lemma {:induction false} KeptOverIff(cfg: Config, pieces: seq<string>)
    ensures Over(cfg, Kept(pieces)) <==> KeptOver(cfg, pieces)
    decreases |pieces|
  {
    if pieces != [] {
      var rest := pieces[1..];
      KeptOverIff(cfg, rest);
      OverAppend(cfg, Keep(pieces[0]), Kept(rest));
      if k :| 0 <= k < |rest| && !TooSmall(rest[k]) && cfg.max < |Strip(rest[k])| {
        assert pieces[k + 1] == rest[k];
      }
      if k :| 0 <= k < |pieces| && !TooSmall(pieces[k]) && cfg.max < |Strip(pieces[k])| {
        if k == 0 {
          assert Keep(pieces[0])[0] == Strip(pieces[0]);
        } else {
          assert rest[k - 1] == pieces[k];
        }
      }
    }
  }

  lemma OverAppend(cfg: Config, a: seq<string>, b: seq<string>)
    ensures Over(cfg, a + b) <==> Over(cfg, a) || Over(cfg, b)
  {
    if k :| 0 <= k < |a| && cfg.max < |a[k]| {
      assert (a + b)[k] == a[k];
    }
    if k :| 0 <= k < |b| && cfg.max < |b[k]| {
      assert (a + b)[|a| + k] == b[k];
    }
  }

  lemma SomeOverAppend(cfg: Config, a: seq<Span>, b: seq<Span>)
    ensures SomeOver(cfg, a + b) <==> SomeOver(cfg, a) || SomeOver(cfg, b)
  {
    if k :| 0 <= k < |a| && cfg.max < |a[k].text| {
      assert (a + b)[k] == a[k];
    }
    if k :| 0 <= k < |b| && cfg.max < |b[k].text| {
      assert (a + b)[|a| + k] == b[k];
    }
  }

  lemma SpansOver(cfg: Config, texts: seq<string>, id: nat, num: int)
    ensures SomeOver(cfg, Spans(texts, id, num)) <==> Over(cfg, texts)
  {
    SpansAt(texts, id, num);
    var spans := Spans(texts, id, num);
    if k :| 0 <= k < |texts| && cfg.max < |texts[k]| {
      assert cfg.max < |spans[k].text|;
    }
  }

  /** The kept pieces of an over-long page, split again where necessary. */
  lemma {:induction false} PiecesOverIff(cfg: Config, pieces: seq<string>, id: nat, num: int)
    ensures SomeOver(cfg, Resplit(cfg, Spans(Kept(pieces), id, num)))
            <==> exists k :: 0 <= k < |pieces| && PieceOver(cfg, pieces[k])
    decreases |pieces|
  {
    if pieces != [] {
      var first, rest := pieces[0], pieces[1..];
      PiecesOverIff(cfg, rest, id, num);
      SpansAppend(Keep(first), Kept(rest), id, num);
      ResplitAppend(cfg, Spans(Keep(first), id, num), Spans(Kept(rest), id, num));
      SomeOverAppend(cfg, Resplit(cfg, Spans(Keep(first), id, num)), Resplit(cfg, Spans(Kept(rest), id, num)));
      PieceOverIff(cfg, first, id, num);
      if k :| 0 <= k < |rest| && PieceOver(cfg, rest[k]) {
        assert pieces[k + 1] == rest[k];
      }
      if k :| 0 <= k < |pieces| && PieceOver(cfg, pieces[k]) {
        assert k > 0 ==> rest[k - 1] == pieces[k];
      }
    }
  }

  lemma PieceOverIff(cfg: Config, piece: string, id: nat, num: int)
    ensures SomeOver(cfg, Resplit(cfg, Spans(Keep(piece), id, num))) <==> PieceOver(cfg, piece)
  {
    var text := Strip(piece);
    if !TooSmall(piece) {
      SpansOne(text, id, num);
      assert [Span(text, id, num)][1..] == [];
      var again := Spans(SplitAgain(cfg, text), id, num);
      assert again + [] == again;
      assert Resplit(cfg, Spans(Keep(piece), id, num)) == again;
      SpansOver(cfg, SplitAgain(cfg, text), id, num);
      if TooLong(cfg, text) {
        KeptOverIff(cfg, SecondPieces(cfg, text));
      } else {
        assert SplitAgain(cfg, text)[0] == text;
      }
    }
  }

  predicate Any<T(!new)>(p: T -> bool, s: seq<T>)
  {
    exists k :: 0 <= k < |s| && p(s[k])
  }

  lemma AnyNext<T(!new)>(p: T -> bool, s: seq<T>, i: nat)
    requires i < |s|
    ensures Any(p, s[..i + 1]) <==> Any(p, s[..i]) || p(s[i])
  {
    var before, after := s[..i], s[..i + 1];
    assert after[i] == s[i];
    if k :| 0 <= k < |before| && p(before[k]) {
      assert after[k] == before[k];
    }
    if k :| 0 <= k < |after| && p(after[k]) {
      assert k < i ==> before[k] == after[k];
    }
  }

  predicate SomePageOver(cfg: Config, pages: seq<Page>)
  {
    Any((page: Page) => PageOver(cfg, page), pages)
  }

  lemma CloseOver(cfg: Config, st: State)
    requires |st.open.text| <= cfg.max
    ensures SomeOver(cfg, Resplit(cfg, Close(st))) <==> SomeOver(cfg, Resplit(cfg, st.done))
  {
    if st.open.text != "" {
      ResplitAppend(cfg, st.done, [st.open]);
      ResplitShort(cfg, st.open);
      SomeOverAppend(cfg, Resplit(cfg, st.done), [st.open]);
    }
  }

  lemma AddPageOver(cfg: Config, st: State, page: Page)
    requires |st.open.text| <= cfg.max
    ensures |AddPage(cfg, st, page).open.text| <= cfg.max
    ensures SomeOver(cfg, Resplit(cfg, AddPage(cfg, st, page).done))
            <==> SomeOver(cfg, Resplit(cfg, st.done)) || PageOver(cfg, page)
  {
    var text := Strip(page.rawText);
    CloseOver(cfg, st);
    if |text| > cfg.max {
      var pieces := SC.SimpleChunks(cfg.rules, text, cfg.max, cfg.overlap);
      var spans := Spans(Kept(pieces), page.id, page.num);
      ResplitAppend(cfg, Close(st), spans);
      SomeOverAppend(cfg, Resplit(cfg, Close(st)), Resplit(cfg, spans));
      PiecesOverIff(cfg, pieces, page.id, page.num);
    }
  }

  lemma SomePageNext(cfg: Config, pages: seq<Page>, i: nat)
    requires i < |pages|
    ensures SomePageOver(cfg, pages[..i + 1]) <==> SomePageOver(cfg, pages[..i]) || PageOver(cfg, pages[i])
  {
    AnyNext((page: Page) => PageOver(cfg, page), pages, i);
  }

  lemma {:induction false} GatherOver(cfg: Config, pages: seq<Page>, i: nat, st: State)
    requires i <= |pages| && |st.open.text| <= cfg.max
    requires SomeOver(cfg, Resplit(cfg, st.done)) <==> SomePageOver(cfg, pages[..i])
    ensures SomeOver(cfg, Resplit(cfg, Gather(cfg, pages, i, st))) <==> SomePageOver(cfg, pages)
    decreases |pages| - i
  {
    if i == |pages| {
      assert pages[..i] == pages;
      CloseOver(cfg, st);
    } else {
      AddPageOver(cfg, st, pages[i]);
      SomePageNext(cfg, pages, i);
      GatherOver(cfg, pages, i + 1, AddPage(cfg, st, pages[i]));
    }
  }

  /** A group has a chunk over the limit exactly when some page over the limit has a piece that
      is over it by at most a fifth, or one with a second piece over it. */
  lemma OverLimitIff(cfg: Config, pages: seq<Page>)
    ensures SomeOver(cfg, GroupSpans(cfg, pages)) <==> SomePageOver(cfg, pages)
  {
    GatherOver(cfg, pages, 0, START);
    MergeOverIff(cfg, Resplit(cfg, Gather(cfg, pages, 0, START)));
  }

  /** Second pieces are over the limit only because of the overlap. */
  lemma SecondOverNeedsOverlap(cfg: Config, page: Page, k: int)
    requires var text := Strip(page.rawText);
      cfg.max < |text| && 0 <= k < |SC.SimpleChunks(cfg.rules, text, cfg.max, cfg.overlap)|
    requires cfg.overlap <= 0
    ensures var piece := SC.SimpleChunks(cfg.rules, Strip(page.rawText), cfg.max, cfg.overlap)[k];
      PieceOver(cfg, piece) <==> !TooSmall(piece) && cfg.max < |Strip(piece)| && !TooLong(cfg, Strip(piece))
  {
    var text := Strip(page.rawText);
    var piece := SC.SimpleChunks(cfg.rules, text, cfg.max, cfg.overlap)[k];
    PieceGathered(cfg, text, k);
    if TooLong(cfg, Strip(piece)) {
      forall j | 0 <= j < |SecondPieces(cfg, Strip(piece))|
        ensures |Strip(SecondPieces(cfg, Strip(piece))[j])| <= cfg.max
      {
        SecondPieceBound(cfg, Strip(piece), j);
      }
    }
  }

  // ---------- both bounds are reached ----------

  /** A page whose pieces are these two, neither of which is split again. */
  lemma TwoChunks(cfg: Config, page: Page, x: string, y: string)
    requires cfg.max < |Strip(page.rawText)|
    requires SC.SimpleChunks(cfg.rules, Strip(page.rawText), cfg.max, cfg.overlap) == [x, y]
    requires Trim(x) && Trim(y) && MIN_CHUNK <= |x| && MIN_CHUNK <= |y|
    requires !TooLong(cfg, x) && !TooLong(cfg, y) && cfg.max <= |x| + |y|
    ensures GroupSpans(cfg, [page]) == [Span(x, page.id, page.num), Span(y, page.id, page.num)]
  {
    var spans := [Span(x, page.id, page.num), Span(y, page.id, page.num)];
    TrimFixed(x);
    TrimFixed(y);
    FlatMapOne(Keep, y);
    assert [x, y][1..] == [y];
    assert Kept([x, y]) == [x] + [y] == [x, y];
    SpansOne(y, page.id, page.num);
    assert Spans([x, y], page.id, page.num) == [spans[0]] + Spans([y], page.id, page.num);
    assert Gather(cfg, [page], 1, AddPage(cfg, START, page)) == spans;
    ResplitShortSpans(cfg, spans);
    TwoUnmerged(cfg, spans[0], spans[1]);
  }

  lemma TwoUnmerged(cfg: Config, a: Span, b: Span)
    requires cfg.max <= |a.text| + |b.text|
    ensures MergeSmall(cfg, [a, b]) == [a, b]
  {
    assert [a, b][..1] == [a] && [a][..0] == [];
    assert MergeSmall(cfg, [a]) == JoinOrPush(cfg, MergeSmall(cfg, []), a) == [a];
  }

  lemma PlainThenRow(rules: SC.Rules, a: string, row: string, max: Size)
    requires !SC.InTable(rules, a) && |a| < max && SC.InTable(rules, row) && !SC.IsHeading(rules, row)
    requires max < |row| && 2 * |row| <= 3 * max
    ensures SC.Walk(rules, [a, row], 0, SC.EMPTY, max).done == [SC.Chunk([SC.Line(a)]), SC.Chunk([SC.Table([row])])]
  {
    var lines := [a, row];
    var st1 := SC.Add(rules, SC.EMPTY, SC.Plain(a), max);
    assert [] + [SC.Line(a)] == [SC.Line(a)];
    assert st1.done == [] && st1.current == [SC.Line(a)];
    assert SC.SegmentAt(rules, lines, 0, SC.EMPTY) == SC.Plain(a) && SC.Next(rules, lines, 0, SC.EMPTY) == 1;
    assert lines[1..2] == [row];
    assert SC.SegmentAt(rules, lines, 1, st1) == SC.Run([row]) && SC.Next(rules, lines, 1, st1) == 2;
    var st2 := SC.Add(rules, st1, SC.Run([row]), max);
    assert [] + [SC.Table([row])] == [SC.Table([row])];
    assert st2.done == [SC.Chunk([SC.Line(a)])] && st2.current == [SC.Table([row])];
    assert SC.Walk(rules, lines, 2, st2, max) == SC.Flush(st2);
    assert SC.Walk(rules, lines, 1, st1, max) == SC.Walk(rules, lines, 2, st2, max);
    assert SC.Walk(rules, lines, 0, SC.EMPTY, max) == SC.Walk(rules, lines, 1, st1, max);
  }

  lemma TwoGroups(a: string, row: string)
    requires Trim(a) && Trim(row) && a != "" && row != ""
    ensures SC.ChunksOf([SC.Chunk([SC.Line(a)]), SC.Chunk([SC.Table([row])])]) == [a, row]
  {
    var first, second := SC.Chunk([SC.Line(a)]), SC.Chunk([SC.Table([row])]);
    TrimFixed(a);
    TrimFixed(row);
    FlatMapOne(SC.ItemLines, SC.Line(a));
    FlatMapOne(SC.ItemLines, SC.Table([row]));
    FlatMapOne(SC.ChunkOf, second);
    assert [first, second][1..] == [second];
    assert SC.ChunkOf(first) == [a] && SC.ChunkOf(second) == [row];
    assert [a] + [row] == [a, row];
  }

  lemma LineAndRow(rules: SC.Rules, a: string, row: string, max: Size)
    requires Trim(a) && Trim(row) && '\n' !in a && '\n' !in row
    requires !SC.InTable(rules, a) && SC.InTable(rules, row) && !SC.IsHeading(rules, row)
    requires 0 < |a| < max < |row| && 2 * |row| <= 3 * max
    ensures SC.StructureChunks(rules, a + "\n" + row, max) == [a, row]
  {
    SplitFirst(a, row);
    SplitLine(row);
    assert Split(a + "\n" + row) == [a, row];
    PlainThenRow(rules, a, row, max);
    TwoGroups(a, row);
  }

  /** A line and a table row that is up to a fifth over the limit: the row is a chunk. */
  lemma RowOverLimit(cfg: Config, page: Page, a: string, row: string)
    requires page.rawText == a + "\n" + row && Trim(a) && Trim(row) && '\n' !in a && '\n' !in row
    requires !SC.InTable(cfg.rules, a) && SC.InTable(cfg.rules, row) && !SC.IsHeading(cfg.rules, row)
    requires MIN_CHUNK <= |a| < cfg.max < |row| <= Tolerance(cfg)
    ensures GroupSpans(cfg, [page]) == [Span(a, page.id, page.num), Span(row, page.id, page.num)]
  {
    var text := page.rawText;
    assert text[0] == a[0] && text[|text| - 1] == row[|row| - 1];
    TrimFixed(text);
    LineAndRow(cfg.rules, a, row, cfg.max);
    TwoChunks(cfg, page, a, row);
  }

  /** The slices of a line of twice the limit. */
  lemma TwoSlices(row: string, size: Size)
    requires |row| == 2 * size && LC.Word(row) && '\n' !in row
    ensures LC.BaseChunks(row, size) == [row[..size], row[size..]]
  {
    var x, y := row[..size], row[size..];
    var blocks := [LC.Slice(x), LC.Slice(y)];
    SplitLine(row);
    assert LC.SliceEnd(row, 0, size) == size && LC.SliceEnd(row, size, size) == 2 * size;
    assert row[0..size] == x && row[size..2 * size] == y;
    assert LC.Slices(row, size, size) == [LC.Slice(y)] + LC.Slices(row, 2 * size, size) == [LC.Slice(y)];
    assert LC.Slices(row, 0, size) == [LC.Slice(x)] + LC.Slices(row, size, size);
    var st := LC.AddLine(LC.State([], []), row, size);
    assert [] + blocks == blocks && st == LC.State(blocks, []);
    assert LC.Pack([row], 1, st, size) == st;
    TrimFixed(x);
    TrimFixed(y);
    FlatMapOne(LC.ChunkOf, LC.Slice(y));
    assert blocks[1..] == [LC.Slice(y)];
    assert LC.ChunksOf(blocks) == [x] + [y];
  }

  lemma WordPart(s: string, i: int, j: int)
    requires LC.Word(s) && 0 <= i < j <= |s|
    ensures LC.Word(s[i..j]) && Trim(s[i..j])
  {
  }

  lemma TwoWords(text: string, x: string, y: string, size: Size, overlap: nat)
    requires LC.BaseChunks(text, size) == [x, y] && LC.Word(x) && LC.Word(y) && 0 < overlap < |x|
    ensures LC.LineChunks(text, size, overlap) == [x, x[|x| - overlap..] + "\n" + y]
  {
    LC.WithFragment(x, y, overlap);
  }

  lemma RowAlone(rules: SC.Rules, row: string, max: Size)
    requires '\n' !in row && SC.InTable(rules, row) && 2 * |row| > 3 * max
    ensures SC.StructureChunks(rules, row, max) == [row]
  {
    SplitLine(row);
    Reread.TableAlone(rules, [row], max);
    SP.NoBlocksIff(rules, [row], max);
  }

  lemma ByLines(rules: SC.Rules, text: string, size: Size, overlap: int)
    requires size < |text| && |SC.StructureChunks(rules, text, size)| <= 1
    ensures SC.SimpleChunks(rules, text, size, overlap) == LC.LineChunks(text, size, overlap)
  {
  }

  lemma RowSliced(rules: SC.Rules, row: string, x: string, tail: string, y: string, max: Size, overlap: nat)
    requires LC.Word(row) && '\n' !in row && SC.InTable(rules, row) && |row| == 2 * max && 0 < overlap < max
    requires x == row[..max] && y == row[max..] && tail == x[|x| - overlap..]
    ensures SC.SimpleChunks(rules, row, max, overlap) == [x, tail + "\n" + y]
  {
    WordPart(row, 0, max);
    WordPart(row, max, |row|);
    assert row[0..max] == x && row[max..|row|] == y;
    RowAlone(rules, row, max);
    ByLines(rules, row, max, overlap);
    TwoSlices(row, max);
    TwoWords(row, x, y, max, overlap);
  }

  lemma TwoOverlapped(cfg: Config, page: Page, x: string, joined: string)
    requires cfg.max < |Strip(page.rawText)|
    requires SC.SimpleChunks(cfg.rules, Strip(page.rawText), cfg.max, cfg.overlap) == [x, joined]
    requires Trim(x) && Trim(joined) && |x| == cfg.max && |joined| == cfg.max + cfg.overlap + 1
    requires MIN_CHUNK <= cfg.max && 0 < cfg.overlap && 5 * (cfg.overlap + 1) <= cfg.max
    ensures |GroupSpans(cfg, [page])| == 2 && |GroupSpans(cfg, [page])[1].text| == WithTail(cfg)
  {
    TwoChunks(cfg, page, x, joined);
  }

  lemma WordEnds(a: string, b: string)
    requires LC.Word(a) && LC.Word(b)
    ensures Trim(a + "\n" + b)
  {
    assert (a + "\n" + b)[|a + "\n" + b| - 1] == b[|b| - 1];
  }

  /** A table row of twice the limit is sliced, and the second slice follows the overlap: the
      chunk is as long as the limit and the overlap allow. */
  lemma OverlapOverLimit(cfg: Config, page: Page)
    requires var row := page.rawText;
      LC.Word(row) && '\n' !in row && SC.InTable(cfg.rules, row) && |row| == 2 * cfg.max
    requires MIN_CHUNK <= cfg.max && 0 < cfg.overlap && 5 * (cfg.overlap + 1) <= cfg.max
    ensures |GroupSpans(cfg, [page])| == 2 && |GroupSpans(cfg, [page])[1].text| == WithTail(cfg)
  {
    var row, max := page.rawText, cfg.max;
    var x, y := row[..max], row[max..];
    var tail := x[max - cfg.overlap..];
    TrimFixed(row);
    RowSliced(cfg.rules, row, x, tail, y, max, cfg.overlap);
    WordEnds(tail, y);
    TwoOverlapped(cfg, page, x, tail + "\n" + y);
  }
}
