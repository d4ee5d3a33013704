/** What the assembly of a section's chunks promises: which content is shown, and how long
    the chunks are. */
module SectionProperties {
  import opened Numbers
  import opened Text
  import opened SectionChunks
  import SC = StructureChunker
  import SP = StructureProperties
  import Sizes = ChunkSizes
  import Reread = ChunkReread

  // ---------- texts ----------

  function TextsOf(spans: seq<Span>): seq<string>
  {
    if spans == [] then [] else [spans[0].text] + TextsOf(spans[1..])
  }

  lemma {:induction false} TextsAppend(a: seq<Span>, b: seq<Span>)
    ensures TextsOf(a + b) == TextsOf(a) + TextsOf(b)
    decreases |a|
  {
    if a == [] {
      assert a + b == b;
    } else {
      assert (a + b)[1..] == a[1..] + b;
      TextsAppend(a[1..], b);
    }
  }

  // ---------- content ----------

  function SolidSpan(s: Span): string { Solid(s.text) }

  function SolidSpans(spans: seq<Span>): string { FlatMap(SolidSpan, spans) }

  /** The content a group shows for one page: all of it when the page fits, otherwise that
      of the sub-chunks that are kept. */
  function PageShown(cfg: Config, page: Page): string
  {
    var text := Strip(page.rawText);
    if |text| <= cfg.max then Solid(page.rawText)
    else SolidSpans(Resplit(cfg, Spans(Kept(SC.SimpleChunks(cfg.rules, text, cfg.max, cfg.overlap)), page.id, page.num)))
  }

  function PagesShown(cfg: Config, pages: seq<Page>): string
  {
    FlatMap((page: Page) => PageShown(cfg, page), pages)
  }

  lemma {:induction false} ResplitAppend(cfg: Config, a: seq<Span>, b: seq<Span>)
    ensures Resplit(cfg, a + b) == Resplit(cfg, a) + Resplit(cfg, b)
    decreases |a|
  {
    if a == [] {
      assert a + b == b;
    } else {
      assert (a + b)[1..] == a[1..] + b;
      ResplitAppend(cfg, a[1..], b);
      Assoc(Spans(SplitAgain(cfg, a[0].text), a[0].id, a[0].num), Resplit(cfg, a[1..]), Resplit(cfg, b));
    }
  }

  lemma ResplitShort(cfg: Config, s: Span)
    requires !TooLong(cfg, s.text)
    ensures Resplit(cfg, [s]) == [s]
  {
    SpansOne(s.text, s.id, s.num);
    assert SplitAgain(cfg, s.text) == [s.text];
    assert [s][1..] == [];
    assert Resplit(cfg, [s]) == Spans(SplitAgain(cfg, s.text), s.id, s.num) + Resplit(cfg, []);
  }

  /** What the spans of a state will show once they are split again. */
  function StateShown(cfg: Config, st: State): string
  {
    SolidSpans(Resplit(cfg, st.done)) + Solid(st.open.text)
  }

  lemma CloseShown(cfg: Config, st: State)
    requires |st.open.text| <= cfg.max
    ensures SolidSpans(Resplit(cfg, Close(st))) == StateShown(cfg, st)
  {
    if st.open.text != "" {
      ResplitAppend(cfg, st.done, [st.open]);
      ResplitShort(cfg, st.open);
      FlatMapSnoc(SolidSpan, Resplit(cfg, st.done), st.open);
    } else {
      assert StateShown(cfg, st) == SolidSpans(Resplit(cfg, st.done)) + "";
    }
  }

  lemma AddPageShown(cfg: Config, st: State, page: Page)
    requires |st.open.text| <= cfg.max
    ensures |AddPage(cfg, st, page).open.text| <= cfg.max
    ensures StateShown(cfg, AddPage(cfg, st, page)) == StateShown(cfg, st) + PageShown(cfg, page)
  {
    var text := Strip(page.rawText);
    SolidStrip(page.rawText);
    CloseShown(cfg, st);
    if text == "" {
      assert StateShown(cfg, st) + "" == StateShown(cfg, st);
    } else if |text| > cfg.max {
      var spans := Spans(Kept(SC.SimpleChunks(cfg.rules, text, cfg.max, cfg.overlap)), page.id, page.num);
      ResplitAppend(cfg, Close(st), spans);
      FlatMapAppend(SolidSpan, Resplit(cfg, Close(st)), Resplit(cfg, spans));
      assert StateShown(cfg, AddPage(cfg, st, page)) == SolidSpans(Resplit(cfg, Close(st) + spans)) + "";
    } else if st.open.text != "" && |st.open.text| + |text| + 1 <= cfg.max {
      SolidNewline(st.open.text);
      SolidAppend(st.open.text + "\n", text);
      Assoc(SolidSpans(Resplit(cfg, st.done)), Solid(st.open.text), Solid(text));
    }
  }

  lemma PagesShownNext(cfg: Config, pages: seq<Page>, i: nat)
    requires i < |pages|
    ensures PagesShown(cfg, pages[..i + 1]) == PagesShown(cfg, pages[..i]) + PageShown(cfg, pages[i])
  {
    FlatMapNext((page: Page) => PageShown(cfg, page), pages, i);
  }

  lemma {:induction false} GatherShown(cfg: Config, pages: seq<Page>, i: nat, st: State)
    requires i <= |pages| && |st.open.text| <= cfg.max && StateShown(cfg, st) == PagesShown(cfg, pages[..i])
    ensures SolidSpans(Resplit(cfg, Gather(cfg, pages, i, st))) == PagesShown(cfg, pages)
    decreases |pages| - i
  {
    if i == |pages| {
      assert pages[..i] == pages;
      CloseShown(cfg, st);
    } else {
      AddPageShown(cfg, st, pages[i]);
      PagesShownNext(cfg, pages, i);
      GatherShown(cfg, pages, i + 1, AddPage(cfg, st, pages[i]));
    }
  }

  lemma JoinShown(cfg: Config, merged: seq<Span>, next: Span)
    ensures SolidSpans(JoinOrPush(cfg, merged, next)) == SolidSpans(merged) + SolidSpan(next)
  {
    var k := |merged| - 1;
    if k >= 0 && |merged[k].text| + |next.text| + 1 <= cfg.max {
      var joined := merged[k].(text := merged[k].text + "\n" + next.text);
      assert merged == merged[..k] + [merged[k]];
      assert JoinOrPush(cfg, merged, next) == merged[..k] + [joined];
      FlatMapSnoc(SolidSpan, merged[..k], merged[k]);
      FlatMapSnoc(SolidSpan, merged[..k], joined);
      SolidNewline(merged[k].text);
      SolidAppend(merged[k].text + "\n", next.text);
      Assoc(SolidSpans(merged[..k]), Solid(merged[k].text), Solid(next.text));
    } else {
      FlatMapSnoc(SolidSpan, merged, next);
    }
  }

  lemma ShownSnoc(spans: seq<Span>)
    requires spans != []
    ensures SolidSpans(spans) == SolidSpans(spans[..|spans| - 1]) + SolidSpan(spans[|spans| - 1])
  {
    var init, last := spans[..|spans| - 1], spans[|spans| - 1];
    assert spans == init + [last];
    FlatMapSnoc(SolidSpan, init, last);
  }

  lemma {:induction false} MergeShown(cfg: Config, spans: seq<Span>)
    ensures SolidSpans(MergeSmall(cfg, spans)) == SolidSpans(spans)
    decreases |spans|
  {
    if spans == [] {
    } else {
      var init, next := spans[..|spans| - 1], spans[|spans| - 1];
      MergeShown(cfg, init);
      JoinShown(cfg, MergeSmall(cfg, init), next);
      ShownSnoc(spans);
    }
  }

  /** Merging pages, splitting again and merging small chunks neither loses nor reorders
      content: a group shows, page after page, what each page alone would show. */
  lemma GroupContent(cfg: Config, pages: seq<Page>)
    ensures SolidSpans(GroupSpans(cfg, pages)) == PagesShown(cfg, pages)
  {
    assert pages[..0] == [];
    GatherShown(cfg, pages, 0, START);
    MergeShown(cfg, Resplit(cfg, Gather(cfg, pages, 0, START)));
  }

  function SolidPage(page: Page): string { Solid(page.rawText) }

  predicate AllFit(cfg: Config, pages: seq<Page>)
  {
    forall k :: 0 <= k < |pages| ==> |Strip(pages[k].rawText)| <= cfg.max
  }

  /** When every page of a group fits a chunk, the chunks carry the content of the pages
      exactly. */
  lemma FittingGroupConserved(cfg: Config, pages: seq<Page>)
    requires AllFit(cfg, pages)
    ensures SolidSpans(GroupSpans(cfg, pages)) == FlatMap(SolidPage, pages)
  {
    GroupContent(cfg, pages);
    FlatMapPaired((page: Page) => PageShown(cfg, page), SolidPage, pages, pages);
  }

  // ---------- a whole document ----------

  function SolidItem(it: Item): string { Solid(it.text) }

  function SolidItems(items: seq<Item>): string { FlatMap(SolidItem, items) }

  lemma GroupItemsContent(cfg: Config, call: Call)
    ensures SolidItems(GroupItems(cfg, call)) == PagesShown(cfg, call.pages)
  {
    FlatMapPaired(SolidItem, SolidSpan, GroupItems(cfg, call), GroupSpans(cfg, call.pages));
    GroupContent(cfg, call.pages);
  }

  lemma {:induction false} ItemsContent(cfg: Config, calls: seq<Call>)
    ensures SolidItems(ItemsOf(cfg, calls)) == PagesShown(cfg, FlatMap(PagesOf, calls))
    decreases |calls|
  {
    if calls != [] {
      var init, call := calls[..|calls| - 1], calls[|calls| - 1];
      assert calls == init + [call];
      ItemsContent(cfg, init);
      GroupItemsContent(cfg, call);
      FlatMapAppend(SolidItem, ItemsOf(cfg, init), GroupItems(cfg, call));
      FlatMapSnoc(PagesOf, init, call);
      FlatMapAppend((page: Page) => PageShown(cfg, page), FlatMap(PagesOf, init), call.pages);
    }
  }

  lemma SplitAt<T>(s: seq<T>, n: nat)
    requires n <= |s|
    ensures s == s[..n] + s[n..]
  {
  }

  /** The chunks of a document show, page after page, what each page with enough text alone
      would show. Beyond the limit on their number, the last chunks are missing. */
  lemma DocumentContent(cfg: Config, pages: seq<Page>, chunkSize: Size, maxChunks: nat)
    ensures var items, kept := ItemsOf(cfg, Calls(pages, chunkSize)), DocumentItems(cfg, pages, chunkSize, maxChunks);
      && kept <= items && (|items| <= maxChunks ==> kept == items) && (maxChunks < |items| ==> |kept| == maxChunks)
      && SolidItems(kept) + SolidItems(items[|kept|..]) == PagesShown(cfg, FlatMap(Eligible, pages))
  {
    var items, kept := ItemsOf(cfg, Calls(pages, chunkSize)), DocumentItems(cfg, pages, chunkSize, maxChunks);
    ItemsContent(cfg, Calls(pages, chunkSize));
    PagesHandedOnce(pages, chunkSize);
    SplitAt(items, |kept|);
    FlatMapParts(SolidItem, items, kept, items[|kept|..]);
  }

  // ---------- a page over the limit ----------

  /** The pieces a piece over the limit is split into. */
  function SecondPieces(cfg: Config, text: string): seq<string>
  {
    var byStructure := SC.StructureChunks(cfg.rules, text, cfg.max);
    if |byStructure| <= 1 then SC.SimpleChunks(cfg.rules, text, cfg.max, cfg.overlap) else byStructure
  }

  predicate TooSmall(piece: string) { |Strip(piece)| < MIN_CHUNK }

  /** What is shown of a piece that is not split again: all of it, or nothing if it is too
      small. */
  function KeptContent(piece: string): string
  {
    if TooSmall(piece) then "" else Solid(piece)
  }

  function PieceShown(cfg: Config, piece: string): string
  {
    if TooSmall(piece) || !TooLong(cfg, Strip(piece)) then KeptContent(piece)
    else FlatMap(KeptContent, SecondPieces(cfg, Strip(piece)))
  }

  lemma KeepContent(piece: string)
    ensures SolidAll(Keep(piece)) == KeptContent(piece)
  {
    SolidStrip(piece);
    FlatMapOne(Solid, Strip(piece));
  }

  lemma KeptContents(pieces: seq<string>)
    ensures SolidAll(Kept(pieces)) == FlatMap(KeptContent, pieces)
  {
    forall p: string ensures SolidAll(Keep(p)) == KeptContent(p) { KeepContent(p); }
    FlatMapFuse(Keep, Solid, KeptContent, pieces);
  }

  lemma {:induction false} SpansContent(texts: seq<string>, id: nat, num: int)
    ensures SolidSpans(Spans(texts, id, num)) == SolidAll(texts)
    decreases |texts|
  {
    if texts != [] {
      SpansContent(texts[1..], id, num);
    }
  }

  /** What a kept text shows once it has been split again where necessary. */
  function AgainShown(cfg: Config, text: string): string
  {
    SolidAll(SplitAgain(cfg, text))
  }

  lemma {:induction false} ResplitContent(cfg: Config, texts: seq<string>, id: nat, num: int)
    ensures SolidSpans(Resplit(cfg, Spans(texts, id, num))) == FlatMap((t: string) => AgainShown(cfg, t), texts)
    decreases |texts|
  {
    if texts != [] {
      ResplitContent(cfg, texts[1..], id, num);
      var spans := Spans(texts, id, num);
      assert spans[1..] == Spans(texts[1..], id, num);
      FlatMapAppend(SolidSpan, Spans(SplitAgain(cfg, texts[0]), id, num), Resplit(cfg, spans[1..]));
      SpansContent(SplitAgain(cfg, texts[0]), id, num);
    }
  }

  lemma KeepThenSplit(cfg: Config, piece: string)
    ensures FlatMap((t: string) => AgainShown(cfg, t), Keep(piece)) == PieceShown(cfg, piece)
  {
    var text := Strip(piece);
    if !TooSmall(piece) {
      FlatMapOne((t: string) => AgainShown(cfg, t), text);
      SolidStrip(piece);
      FlatMapOne(Solid, text);
      KeptContents(SecondPieces(cfg, text));
    }
  }

  /** A page over the limit shows its pieces in order: nothing of a piece that is too small,
      all of a piece that is kept, and of one that is split once more again all of its
      pieces but those that are too small. */
  lemma OverlongPageShown(cfg: Config, page: Page)
    requires cfg.max < |Strip(page.rawText)|
    ensures PageShown(cfg, page) ==
      FlatMap((p: string) => PieceShown(cfg, p),
              SC.SimpleChunks(cfg.rules, Strip(page.rawText), cfg.max, cfg.overlap))
  {
    var pieces := SC.SimpleChunks(cfg.rules, Strip(page.rawText), cfg.max, cfg.overlap);
    ResplitContent(cfg, Kept(pieces), page.id, page.num);
    forall p: string ensures FlatMap((t: string) => AgainShown(cfg, t), Keep(p)) == PieceShown(cfg, p) {
      KeepThenSplit(cfg, p);
    }
    FlatMapFuse(Keep, (t: string) => AgainShown(cfg, t), (p: string) => PieceShown(cfg, p), pieces);
  }

  // ---------- sizes ----------

  /** A fifth over the limit, below which nothing is split again. */
  function Tolerance(cfg: Config): int { 6 * cfg.max / 5 }

  function WithTail(cfg: Config): int
  {
    if cfg.overlap > 0 then cfg.max + cfg.overlap + 1 else cfg.max
  }

  /** What no chunk for embedding exceeds. */
  function SpanBound(cfg: Config): int { Max(Tolerance(cfg), WithTail(cfg)) }

  predicate Within(spans: seq<Span>, bound: int)
  {
    forall k :: 0 <= k < |spans| ==> |spans[k].text| <= bound
  }

  /** One of several chunks that a text's structure gives. */
  predicate FirstChunk(cfg: Config, text: string, j: int, chunk: string)
  {
    var first := SC.StructureChunks(cfg.rules, text, cfg.max);
    1 < |first| && 0 <= j < |first| && chunk == first[j]
  }

  /** A text from gathering pages: short, or a chunk by structure. */
  ghost predicate Gathered(cfg: Config, t: string)
  {
    |t| <= WithTail(cfg) || exists text, j :: FirstChunk(cfg, text, j, t)
  }

  ghost predicate AllGathered(cfg: Config, spans: seq<Span>)
  {
    forall k :: 0 <= k < |spans| ==> Gathered(cfg, spans[k].text)
  }

  lemma {:induction false} KeptFrom(pieces: seq<string>, k: int) returns (j: nat)
    requires 0 <= k < |Kept(pieces)|
    ensures j < |pieces| && Kept(pieces)[k] == Strip(pieces[j])
    decreases |pieces|
  {
    assert Kept(pieces) == Keep(pieces[0]) + Kept(pieces[1..]);
    if k < |Keep(pieces[0])| {
      j := 0;
    } else {
      j := KeptFrom(pieces[1..], k - |Keep(pieces[0])|);
      j := j + 1;
    }
  }

  lemma FirstChunkTrim(cfg: Config, text: string, j: int, chunk: string)
    requires FirstChunk(cfg, text, j, chunk)
    ensures Strip(chunk) == chunk
  {
    var g := Sizes.ChunkLengthBound(cfg.rules, text, cfg.max, j);
    SP.FallbackIff(cfg.rules, text, cfg.max);
    SP.GroupTextTrim(g);
  }

  lemma PieceGathered(cfg: Config, text: string, j: int)
    requires cfg.max < |text| && 0 <= j < |SC.SimpleChunks(cfg.rules, text, cfg.max, cfg.overlap)|
    ensures Gathered(cfg, Strip(SC.SimpleChunks(cfg.rules, text, cfg.max, cfg.overlap)[j]))
  {
    var g := Sizes.SimpleChunksBound(cfg.rules, text, cfg.max, cfg.overlap, j);
    var first := SC.StructureChunks(cfg.rules, text, cfg.max);
    if 1 < |first| {
      assert FirstChunk(cfg, text, j, first[j]);
      FirstChunkTrim(cfg, text, j, first[j]);
    }
  }

  lemma {:induction false} SpansAt(texts: seq<string>, id: nat, num: int)
    ensures |Spans(texts, id, num)| == |texts|
    ensures forall k :: 0 <= k < |texts| ==> Spans(texts, id, num)[k].text == texts[k]
    decreases |texts|
  {
    if texts != [] {
      SpansAt(texts[1..], id, num);
    }
  }

  lemma LongPageGathered(cfg: Config, text: string, id: nat, num: int)
    requires cfg.max < |text|
    ensures AllGathered(cfg, Spans(Kept(SC.SimpleChunks(cfg.rules, text, cfg.max, cfg.overlap)), id, num))
  {
    var pieces := SC.SimpleChunks(cfg.rules, text, cfg.max, cfg.overlap);
    SpansAt(Kept(pieces), id, num);
    forall k | 0 <= k < |Kept(pieces)| ensures Gathered(cfg, Kept(pieces)[k]) {
      var j := KeptFrom(pieces, k);
      PieceGathered(cfg, text, j);
    }
  }

  lemma {:induction false} GatherGathered(cfg: Config, pages: seq<Page>, i: nat, st: State)
    requires i <= |pages| && AllGathered(cfg, st.done) && |st.open.text| <= cfg.max
    ensures AllGathered(cfg, Gather(cfg, pages, i, st))
    decreases |pages| - i
  {
    if i < |pages| {
      var text := Strip(pages[i].rawText);
      if |text| > cfg.max {
        LongPageGathered(cfg, text, pages[i].id, pages[i].num);
      }
      GatherGathered(cfg, pages, i + 1, AddPage(cfg, st, pages[i]));
    }
  }

  /** What is split again ends within the limit and the overlap. */
  lemma SecondPieceBound(cfg: Config, text: string, k: int)
    requires Gathered(cfg, text) && TooLong(cfg, text) && 0 <= k < |SecondPieces(cfg, text)|
    ensures |SecondPieces(cfg, text)[k]| <= WithTail(cfg)
  {
    var second := SC.StructureChunks(cfg.rules, text, cfg.max);
    if |second| <= 1 {
      var g := Sizes.SimpleChunksBound(cfg.rules, text, cfg.max, cfg.overlap, k);
    } else if |text| <= WithTail(cfg) {
      var g := Sizes.ChunkLengthBound(cfg.rules, text, cfg.max, k);
    } else {
      var whole, j :| FirstChunk(cfg, whole, j, text);
      Reread.SecondSplitBound(cfg.rules, whole, cfg.max, j, k);
    }
  }

  lemma AgainBound(cfg: Config, text: string, k: int)
    requires Gathered(cfg, text) && 0 <= k < |SplitAgain(cfg, text)|
    ensures |SplitAgain(cfg, text)[k]| <= SpanBound(cfg)
  {
    if TooLong(cfg, text) {
      var j := KeptFrom(SecondPieces(cfg, text), k);
      SecondPieceBound(cfg, text, j);
    }
  }

  lemma {:induction false} ResplitBound(cfg: Config, spans: seq<Span>)
    requires AllGathered(cfg, spans)
    ensures Within(Resplit(cfg, spans), SpanBound(cfg))
    decreases |spans|
  {
    if spans != [] {
      ResplitBound(cfg, spans[1..]);
      var texts := SplitAgain(cfg, spans[0].text);
      SpansAt(texts, spans[0].id, spans[0].num);
      forall k | 0 <= k < |texts| ensures |texts[k]| <= SpanBound(cfg) {
        AgainBound(cfg, spans[0].text, k);
      }
    }
  }

  lemma {:induction false} MergeWithin(cfg: Config, spans: seq<Span>, bound: int)
    requires Within(spans, bound) && cfg.max <= bound
    ensures Within(MergeSmall(cfg, spans), bound)
    decreases |spans|
  {
    if spans != [] {
      MergeWithin(cfg, spans[..|spans| - 1], bound);
    }
  }

  /** Whatever the pages, no chunk is longer than a fifth over the limit, or the limit and the
      overlap. Both are reached: `ChunkLimits.RowOverLimit` and `OverlapOverLimit`. */
  lemma GroupSpansBound(cfg: Config, pages: seq<Page>)
    ensures Within(GroupSpans(cfg, pages), SpanBound(cfg))
  {
    GatherGathered(cfg, pages, 0, START);
    ResplitBound(cfg, Gather(cfg, pages, 0, START));
    MergeWithin(cfg, Resplit(cfg, Gather(cfg, pages, 0, START)), SpanBound(cfg));
  }

  lemma {:induction false} GatherShort(cfg: Config, pages: seq<Page>, i: nat, st: State)
    requires i <= |pages| && AllFit(cfg, pages) && Within(st.done, cfg.max) && |st.open.text| <= cfg.max
    ensures Within(Gather(cfg, pages, i, st), cfg.max)
    decreases |pages| - i
  {
    if i < |pages| {
      GatherShort(cfg, pages, i + 1, AddPage(cfg, st, pages[i]));
    }
  }

  lemma {:induction false} ResplitShortSpans(cfg: Config, spans: seq<Span>)
    requires forall k :: 0 <= k < |spans| ==> !TooLong(cfg, spans[k].text)
    ensures Resplit(cfg, spans) == spans
    decreases |spans|
  {
    if spans != [] {
      ResplitShortSpans(cfg, spans[1..]);
      ResplitShort(cfg, spans[0]);
      ResplitAppend(cfg, [spans[0]], spans[1..]);
      assert spans == [spans[0]] + spans[1..];
    }
  }

  /** When every page fits a chunk, no chunk exceeds the limit. */
  lemma FittingGroupShort(cfg: Config, pages: seq<Page>)
    requires AllFit(cfg, pages)
    ensures Within(GroupSpans(cfg, pages), cfg.max)
  {
    GatherShort(cfg, pages, 0, START);
    ResplitShortSpans(cfg, Gather(cfg, pages, 0, START));
    MergeWithin(cfg, Gather(cfg, pages, 0, START), cfg.max);
  }

  /** The last step makes no chunk longer than the limit: a longer one was there before. */
  lemma {:induction false} MergedWithinLimit(cfg: Config, spans: seq<Span>, k: int)
    requires 0 <= k < |MergeSmall(cfg, spans)| && cfg.max < |MergeSmall(cfg, spans)[k].text|
    ensures MergeSmall(cfg, spans)[k] in spans
    decreases |spans|
  {
    var init := spans[..|spans| - 1];
    var merged := MergeSmall(cfg, init);
    if k < |merged| && MergeSmall(cfg, spans)[k] == merged[k] {
      MergedWithinLimit(cfg, init, k);
    }
  }

  predicate Tight(cfg: Config, spans: seq<Span>)
  {
    forall k :: 0 < k < |spans| ==> |spans[k - 1].text| + |spans[k].text| + 1 > cfg.max
  }

  lemma JoinOrPushTight(cfg: Config, merged: seq<Span>, next: Span)
    requires Tight(cfg, merged)
    ensures Tight(cfg, JoinOrPush(cfg, merged, next))
  {
  }

  /** After the last merge no two neighbours would fit one chunk. */
  lemma {:induction false} MergeIsGreedy(cfg: Config, spans: seq<Span>)
    ensures Tight(cfg, MergeSmall(cfg, spans))
    decreases |spans|
  {
    if spans != [] {
      MergeIsGreedy(cfg, spans[..|spans| - 1]);
      JoinOrPushTight(cfg, MergeSmall(cfg, spans[..|spans| - 1]), spans[|spans| - 1]);
    }
  }
}
