/** Assembling the chunks of a document for embedding: pages are grouped by section, the
    pages of a group are merged up to a size limit, and every chunk is keyed by its primary
    page and its position. */
module SectionChunks {
  import opened Text
  import SC = StructureChunker

  type Size = SC.Size

  datatype Page = Page(id: nat, num: int, rawText: string, path: string, title: string)

  /** A chunk under construction: its text and its primary page. */
  datatype Span = Span(text: string, id: nat, num: int)

  /** A finished chunk with its storage key (page id, chunk index). */
  datatype Item = Item(id: nat, num: int, idx: nat, path: string, title: string, text: string)

  datatype Config = Config(rules: SC.Rules, max: Size, overlap: int)

  const MIN_CHUNK := 20
  const MIN_PAGE := 10

  // ---------- one group of pages ----------

  function Keep(s: string): seq<string>
  {
    if |Strip(s)| >= MIN_CHUNK then [Strip(s)] else []
  }

  /** Sub-chunks worth keeping. */
  function Kept(subs: seq<string>): seq<string>
  {
    FlatMap(Keep, subs)
  }

  function Spans(texts: seq<string>, id: nat, num: int): seq<Span>
  {
    if texts == [] then [] else [Span(texts[0], id, num)] + Spans(texts[1..], id, num)
  }

  /** Spans so far, and the open one; an empty open text means there is none. */
  datatype State = State(done: seq<Span>, open: Span)

  const START := State([], Span("", 0, 0))

  function Close(st: State): seq<Span>
  {
    if st.open.text == "" then st.done else st.done + [st.open]
  }

  function AddPage(cfg: Config, st: State, page: Page): State
  {
    var text := Strip(page.rawText);
    if text == "" then st
    else if |text| > cfg.max then
      State(Close(st) + Spans(Kept(SC.SimpleChunks(cfg.rules, text, cfg.max, cfg.overlap)), page.id, page.num),
            Span("", 0, 0))
    else if st.open.text != "" && |st.open.text| + |text| + 1 <= cfg.max then
      st.(open := st.open.(text := st.open.text + "\n" + text))
    else State(Close(st), Span(text, page.id, page.num))
  }

  function Gather(cfg: Config, pages: seq<Page>, i: nat, st: State): seq<Span>
    requires i <= |pages|
    decreases |pages| - i
  {
    if i == |pages| then Close(st) else Gather(cfg, pages, i + 1, AddPage(cfg, st, pages[i]))
  }

  predicate TooLong(cfg: Config, text: string) { 5 * |text| > 6 * cfg.max }

  /** A text more than a fifth over the limit is split again. */
  function SplitAgain(cfg: Config, text: string): seq<string>
  {
    if !TooLong(cfg, text) then [text]
    else
      var byStructure := SC.StructureChunks(cfg.rules, text, cfg.max);
      Kept(if |byStructure| <= 1 then SC.SimpleChunks(cfg.rules, text, cfg.max, cfg.overlap) else byStructure)
  }

  function Resplit(cfg: Config, spans: seq<Span>): seq<Span>
  {
    if spans == [] then []
    else Spans(SplitAgain(cfg, spans[0].text), spans[0].id, spans[0].num) + Resplit(cfg, spans[1..])
  }

  /** Adjacent small chunks are joined while they fit; the first one names the page. */
  function MergeSmall(cfg: Config, spans: seq<Span>): seq<Span>
  {
    if spans == [] then []
    else
      var merged, next := MergeSmall(cfg, spans[..|spans| - 1]), spans[|spans| - 1];
      JoinOrPush(cfg, merged, next)
  }

  function JoinOrPush(cfg: Config, merged: seq<Span>, next: Span): seq<Span>
  {
    var k := |merged| - 1;
    if k >= 0 && |merged[k].text| + |next.text| + 1 <= cfg.max
    then merged[k := merged[k].(text := merged[k].text + "\n" + next.text)]
    else merged + [next]
  }

  function GroupSpans(cfg: Config, pages: seq<Page>): seq<Span>
  {
    MergeSmall(cfg, Resplit(cfg, Gather(cfg, pages, 0, START)))
  }

  function Numbered(spans: seq<Span>, path: string, title: string): seq<Item>
  {
    seq(|spans|, k requires 0 <= k < |spans| =>
      Item(spans[k].id, spans[k].num, k, path, title, spans[k].text))
  }

  function GroupItems(cfg: Config, call: Call): seq<Item>
  {
    Numbered(GroupSpans(cfg, call.pages), call.path, call.title)
  }

  // ---------- grouping by section ----------

  /** One group handed to chunking, with the section it is labelled with. */
  datatype Call = Call(pages: seq<Page>, path: string, title: string)

  datatype Grouping = Grouping(calls: seq<Call>, current: Call)

  const NO_GROUP := Grouping([], Call([], "", ""))

  predicate Indexed(page: Page)
  {
    |Strip(page.rawText)| >= MIN_PAGE
  }

  function RawLength(pages: seq<Page>): nat
  {
    if pages == [] then 0 else RawLength(pages[..|pages| - 1]) + |pages[|pages| - 1].rawText|
  }

  function Hand(g: Grouping): Grouping
  {
    Grouping(g.calls + [g.current], g.current.(pages := []))
  }

  /** The group the page joins: a new one when the current section is named differently. */
  function Switch(g: Grouping, page: Page): Grouping
  {
    if g.current.path != "" && g.current.path != page.path then Hand(g) else g
  }

  function GroupPage(g: Grouping, page: Page, chunkSize: Size): Grouping
  {
    if !Indexed(page) then g
    else
      var s := Switch(g, page);
      var joined := Grouping(s.calls, Call(s.current.pages + [page], page.path, page.title));
      if RawLength(joined.current.pages) > 2 * chunkSize then Hand(joined) else joined
  }

  function GroupFrom(pages: seq<Page>, i: nat, g: Grouping, chunkSize: Size): seq<Call>
    requires i <= |pages|
    decreases |pages| - i
  {
    if i == |pages| then (if g.current.pages == [] then g.calls else g.calls + [g.current])
    else GroupFrom(pages, i + 1, GroupPage(g, pages[i], chunkSize), chunkSize)
  }

  function Calls(pages: seq<Page>, chunkSize: Size): seq<Call>
  {
    GroupFrom(pages, 0, NO_GROUP, chunkSize)
  }

  function ItemsOf(cfg: Config, calls: seq<Call>): seq<Item>
  {
    if calls == [] then []
    else ItemsOf(cfg, calls[..|calls| - 1]) + GroupItems(cfg, calls[|calls| - 1])
  }

  /** The chunks of a document, limited in number. `pages` are in page order. */
  function DocumentItems(cfg: Config, pages: seq<Page>, chunkSize: Size, maxChunks: nat): seq<Item>
  {
    var items := ItemsOf(cfg, Calls(pages, chunkSize));
    if |items| > maxChunks then items[..maxChunks] else items
  }

  // ---------- the program ----------

  lemma {:induction false} SpansAppend(a: seq<string>, b: seq<string>, id: nat, num: int)
    ensures Spans(a + b, id, num) == Spans(a, id, num) + Spans(b, id, num)
    decreases |a|
  {
    if a == [] {
      assert a + b == b;
    } else {
      assert (a + b)[1..] == a[1..] + b;
      SpansAppend(a[1..], b, id, num);
    }
  }

  lemma SpansOne(text: string, id: nat, num: int)
    ensures Spans([text], id, num) == [Span(text, id, num)]
  {
    assert [text][1..] == [];
    assert Spans([text][1..], id, num) == [];
  }

  /** Adds the sub-chunks long enough to be kept. */
  method PushKept(spans: seq<Span>, subs: seq<string>, id: nat, num: int) returns (more: seq<Span>)
    ensures more == spans + Spans(Kept(subs), id, num)
  {
    more := spans;
    assert subs[0..] == subs;
    for i := 0 to |subs|
      invariant more + Spans(Kept(subs[i..]), id, num) == spans + Spans(Kept(subs), id, num)
    {
      assert subs[i..] == [subs[i]] + subs[i + 1..];
      ghost var rest := Kept(subs[i + 1..]);
      FlatMapAppend(Keep, [subs[i]], subs[i + 1..]);
      FlatMapOne(Keep, subs[i]);
      SpansAppend(Keep(subs[i]), rest, id, num);
      Assoc(more, Spans(Keep(subs[i]), id, num), Spans(rest, id, num));
      var sc := Strip(subs[i]);
      if |sc| >= MIN_CHUNK {
        SpansOne(sc, id, num);
        more := more + [Span(sc, id, num)];
      }
    }
  }

  method GatherPages(cfg: Config, pages: seq<Page>) returns (spans: seq<Span>)
    ensures spans == Gather(cfg, pages, 0, START)
  {
    spans := [];
    var current := Span("", 0, 0);
    for i := 0 to |pages|
      invariant Gather(cfg, pages, 0, START) == Gather(cfg, pages, i, State(spans, current))
    {
      var page := pages[i];
      var text := Strip(page.rawText);
      if text == "" {
        continue;
      }
      if |text| > cfg.max {
        if current.text != "" {
          spans := spans + [current];
          current := Span("", 0, 0);
        }
        var subs := SC.SimpleChunk(cfg.rules, text, cfg.max, cfg.overlap);
        spans := PushKept(spans, subs, page.id, page.num);
        current := Span("", 0, 0);
        continue;
      }
      if current.text != "" {
        if |current.text| + |text| + 1 <= cfg.max {
          current := current.(text := current.text + "\n" + text);
        } else {
          spans := spans + [current];
          current := Span(text, page.id, page.num);
        }
      } else {
        current := Span(text, page.id, page.num);
      }
    }
    if current.text != "" {
      spans := spans + [current];
    }
  }

  method ResplitSpans(cfg: Config, spans: seq<Span>) returns (final: seq<Span>)
    ensures final == Resplit(cfg, spans)
  {
    final := [];
    assert spans[0..] == spans;
    for i := 0 to |spans|
      invariant final + Resplit(cfg, spans[i..]) == Resplit(cfg, spans)
    {
      var span := spans[i];
      assert spans[i..][1..] == spans[i + 1..];
      Assoc(final, Spans(SplitAgain(cfg, span.text), span.id, span.num), Resplit(cfg, spans[i + 1..]));
      if 5 * |span.text| > 6 * cfg.max {
        var subs := SC.ChunkByStructure(cfg.rules, span.text, cfg.max);
        if |subs| <= 1 {
          subs := SC.SimpleChunk(cfg.rules, span.text, cfg.max, cfg.overlap);
        }
        final := PushKept(final, subs, span.id, span.num);
      } else {
        SpansOne(span.text, span.id, span.num);
        final := final + [span];
      }
    }
  }

  method MergeSpans(cfg: Config, final: seq<Span>) returns (merged: seq<Span>)
    ensures merged == MergeSmall(cfg, final)
  {
    merged := [];
    for i := 0 to |final|
      invariant merged == MergeSmall(cfg, final[..i])
    {
      assert final[..i + 1][..i] == final[..i];
      var next := final[i];
      if merged != [] && |merged[|merged| - 1].text| + |next.text| + 1 <= cfg.max {
        var last := merged[|merged| - 1];
        merged := merged[|merged| - 1 := last.(text := last.text + "\n" + next.text)];
      } else {
        merged := merged + [next];
      }
    }
    assert final[..|final|] == final;
  }

  method NumberChunks(merged: seq<Span>, path: string, title: string) returns (items: seq<Item>)
    ensures items == Numbered(merged, path, title)
  {
    items := [];
    for k := 0 to |merged|
      invariant items == Numbered(merged, path, title)[..k]
    {
      items := items + [Item(merged[k].id, merged[k].num, k, path, title, merged[k].text)];
    }
  }

  method ProcessSectionChunks(cfg: Config, pages: seq<Page>, path: string, title: string, chunkItems: seq<Item>)
    returns (more: seq<Item>)
    ensures more == chunkItems + GroupItems(cfg, Call(pages, path, title))
  {
    if pages == [] {
      assert Gather(cfg, [], 0, START) == [];
      return chunkItems;
    }
    var spans := GatherPages(cfg, pages);
    var final := ResplitSpans(cfg, spans);
    var merged := MergeSpans(cfg, final);
    var items := NumberChunks(merged, path, title);
    more := chunkItems + items;
  }

  lemma ItemsSnoc(cfg: Config, calls: seq<Call>, call: Call)
    ensures ItemsOf(cfg, calls + [call]) == ItemsOf(cfg, calls) + GroupItems(cfg, call)
  {
    assert (calls + [call])[..|calls|] == calls;
  }

  /** The chunking half of building embeddings. */
  method CollectChunks(cfg: Config, pages: seq<Page>, chunkSize: Size, maxChunks: nat) returns (items: seq<Item>)
    ensures items == DocumentItems(cfg, pages, chunkSize, maxChunks)
  {
    items := [];
    var section, title := "", "";
    var current: seq<Page> := [];
    ghost var calls: seq<Call> := [];
    for i := 0 to |pages|
      invariant Calls(pages, chunkSize) == GroupFrom(pages, i, Grouping(calls, Call(current, section, title)), chunkSize)
      invariant items == ItemsOf(cfg, calls)
    {
      var page := pages[i];
      if |Strip(page.rawText)| < MIN_PAGE {
        continue;
      }
      if section != "" && section != page.path {
        ItemsSnoc(cfg, calls, Call(current, section, title));
        calls := calls + [Call(current, section, title)];
        items := ProcessSectionChunks(cfg, current, section, title, items);
        current := [];
      }
      section, title := page.path, page.title;
      current := current + [page];
      if RawLength(current) > 2 * chunkSize {
        ItemsSnoc(cfg, calls, Call(current, section, title));
        calls := calls + [Call(current, section, title)];
        items := ProcessSectionChunks(cfg, current, section, title, items);
        current := [];
      }
    }
    if current != [] {
      ItemsSnoc(cfg, calls, Call(current, section, title));
      items := ProcessSectionChunks(cfg, current, section, title, items);
    }
    if |items| > maxChunks {
      items := items[..maxChunks];
    }
  }

  // ---------- sections are not mixed ----------

  /** Every page of a group carries the group's section path, or none. */
  predicate OneSection(call: Call)
  {
    forall k :: 0 <= k < |call.pages| ==> call.pages[k].path == "" || call.pages[k].path == call.path
  }

  /** The group is labelled by its last page and, without that page, is within the length
      at which a group is closed. */
  predicate WellGrouped(call: Call, chunkSize: Size)
  {
    && OneSection(call)
    && (call.pages != [] ==>
          var last := call.pages[|call.pages| - 1];
          && call.path == last.path && call.title == last.title
          && RawLength(call.pages) - |last.rawText| <= 2 * chunkSize)
  }

  function PagesOf(call: Call): seq<Page> { call.pages }

  function Eligible(page: Page): seq<Page> { if Indexed(page) then [page] else [] }

  ghost predicate GroupingSound(g: Grouping, chunkSize: Size)
  {
    && (forall c :: 0 <= c < |g.calls| ==> WellGrouped(g.calls[c], chunkSize))
    && WellGrouped(g.current, chunkSize)
    && RawLength(g.current.pages) <= 2 * chunkSize
  }

  lemma RawLengthSnoc(pages: seq<Page>, page: Page)
    ensures RawLength(pages + [page]) == RawLength(pages) + |page.rawText|
  {
    assert (pages + [page])[..|pages|] == pages;
  }

  lemma HandSound(g: Grouping, chunkSize: Size)
    requires (forall c :: 0 <= c < |g.calls| ==> WellGrouped(g.calls[c], chunkSize)) && WellGrouped(g.current, chunkSize)
    ensures GroupingSound(Hand(g), chunkSize)
  {
  }

  lemma JoinSound(call: Call, page: Page, chunkSize: Size)
    requires WellGrouped(call, chunkSize) && RawLength(call.pages) <= 2 * chunkSize
    requires call.pages == [] || call.path == "" || call.path == page.path
    ensures WellGrouped(Call(call.pages + [page], page.path, page.title), chunkSize)
  {
    RawLengthSnoc(call.pages, page);
  }

  lemma GroupPageSound(g: Grouping, page: Page, chunkSize: Size)
    requires GroupingSound(g, chunkSize)
    ensures GroupingSound(GroupPage(g, page, chunkSize), chunkSize)
  {
    HandSound(g, chunkSize);
    var s := Switch(g, page);
    JoinSound(s.current, page, chunkSize);
    HandSound(Grouping(s.calls, Call(s.current.pages + [page], page.path, page.title)), chunkSize);
  }

  lemma {:induction false} GroupFromSound(pages: seq<Page>, i: nat, g: Grouping, chunkSize: Size)
    requires i <= |pages| && GroupingSound(g, chunkSize)
    ensures forall c :: 0 <= c < |GroupFrom(pages, i, g, chunkSize)| ==>
              WellGrouped(GroupFrom(pages, i, g, chunkSize)[c], chunkSize)
    decreases |pages| - i
  {
    if i < |pages| {
      GroupPageSound(g, pages[i], chunkSize);
      GroupFromSound(pages, i + 1, GroupPage(g, pages[i], chunkSize), chunkSize);
    }
  }

  /** No group, hence no chunk, mixes pages of two different named sections. */
  lemma SectionsNotMixed(pages: seq<Page>, chunkSize: Size, c: int)
    requires 0 <= c < |Calls(pages, chunkSize)|
    ensures WellGrouped(Calls(pages, chunkSize)[c], chunkSize)
  {
    GroupFromSound(pages, 0, NO_GROUP, chunkSize);
  }

  // ---------- a group is closed only when it must be ----------

  /** Why a group ends where the next begins: it is too large, or the next page is of
      another section. */
  predicate Closed(call: Call, next: Call, chunkSize: Size)
  {
    || RawLength(call.pages) > 2 * chunkSize
    || (call.path != "" && next.pages != [] && next.pages[0].path != call.path)
  }

  predicate AllClosed(calls: seq<Call>, chunkSize: Size)
  {
    forall c :: 0 < c < |calls| ==> Closed(calls[c - 1], calls[c], chunkSize)
  }

  /** The groups so far are closed, the last of them by size while the current one is empty. */
  predicate ClosedSoFar(g: Grouping, chunkSize: Size)
  {
    && AllClosed(g.calls, chunkSize)
    && (g.calls != [] ==>
          var last := g.calls[|g.calls| - 1];
          if g.current.pages == [] then RawLength(last.pages) > 2 * chunkSize
          else Closed(last, g.current, chunkSize))
  }

  lemma HandClosed(g: Grouping, chunkSize: Size)
    requires ClosedSoFar(g, chunkSize)
    ensures AllClosed(Hand(g).calls, chunkSize)
  {
  }

  /** The page joins the current group, or opens one behind a group that it closes. */
  lemma JoinClosed(g: Grouping, page: Page, title: string, chunkSize: Size)
    requires AllClosed(g.calls, chunkSize)
    requires g.calls != [] ==>
      Closed(g.calls[|g.calls| - 1], Call(g.current.pages + [page], page.path, title), chunkSize)
    ensures var joined := Grouping(g.calls, Call(g.current.pages + [page], page.path, title));
      ClosedSoFar(if RawLength(joined.current.pages) > 2 * chunkSize then Hand(joined) else joined, chunkSize)
  {
  }

  lemma ClosedByPage(g: Grouping, page: Page, title: string, chunkSize: Size)
    requires ClosedSoFar(g, chunkSize)
    ensures var s := Switch(g, page);
      s.calls != [] ==>
        Closed(s.calls[|s.calls| - 1], Call(s.current.pages + [page], page.path, title), chunkSize)
  {
    var s := Switch(g, page);
    assert (s.current.pages + [page])[0] == if s.current.pages == [] then page else s.current.pages[0];
  }

  lemma GroupPageClosed(g: Grouping, page: Page, chunkSize: Size)
    requires ClosedSoFar(g, chunkSize)
    ensures ClosedSoFar(GroupPage(g, page, chunkSize), chunkSize)
  {
    HandClosed(g, chunkSize);
    ClosedByPage(g, page, page.title, chunkSize);
    JoinClosed(Switch(g, page), page, page.title, chunkSize);
  }

  lemma {:induction false} GroupFromClosed(pages: seq<Page>, i: nat, g: Grouping, chunkSize: Size)
    requires i <= |pages| && ClosedSoFar(g, chunkSize)
    ensures AllClosed(GroupFrom(pages, i, g, chunkSize), chunkSize)
    decreases |pages| - i
  {
    if i < |pages| {
      GroupPageClosed(g, pages[i], chunkSize);
      GroupFromClosed(pages, i + 1, GroupPage(g, pages[i], chunkSize), chunkSize);
    } else {
      HandClosed(g, chunkSize);
    }
  }

  /** Pages of one section stay together until their texts exceed twice the chunk size: a group
      is followed by another only when it is larger, or when the next page has another
      section. */
  lemma GroupsClosed(pages: seq<Page>, chunkSize: Size, c: int)
    requires 0 < c < |Calls(pages, chunkSize)|
    ensures Closed(Calls(pages, chunkSize)[c - 1], Calls(pages, chunkSize)[c], chunkSize)
  {
    GroupFromClosed(pages, 0, NO_GROUP, chunkSize);
  }

  // ---------- every page is handed over once ----------

  function Handed(g: Grouping): seq<Page>
  {
    FlatMap(PagesOf, g.calls) + g.current.pages
  }

  lemma HandKeepsHanded(g: Grouping)
    ensures Handed(Hand(g)) == Handed(g)
  {
    FlatMapSnoc(PagesOf, g.calls, g.current);
    assert Handed(Hand(g)) == FlatMap(PagesOf, g.calls + [g.current]) + [];
  }

  lemma GroupPageHanded(g: Grouping, page: Page, chunkSize: Size)
    ensures Handed(GroupPage(g, page, chunkSize)) == Handed(g) + Eligible(page)
  {
    HandKeepsHanded(g);
    var s := Switch(g, page);
    var joined := Grouping(s.calls, Call(s.current.pages + [page], page.path, page.title));
    Assoc(FlatMap(PagesOf, s.calls), s.current.pages, [page]);
    HandKeepsHanded(joined);
  }

  lemma LastGroupHanded(g: Grouping)
    ensures FlatMap(PagesOf, if g.current.pages == [] then g.calls else g.calls + [g.current]) == Handed(g)
  {
    FlatMapSnoc(PagesOf, g.calls, g.current);
    assert g.current.pages == [] ==> FlatMap(PagesOf, g.calls) + g.current.pages == FlatMap(PagesOf, g.calls);
  }

  lemma {:induction false} GroupFromHanded(pages: seq<Page>, i: nat, g: Grouping, chunkSize: Size)
    requires i <= |pages| && Handed(g) == FlatMap(Eligible, pages[..i])
    ensures FlatMap(PagesOf, GroupFrom(pages, i, g, chunkSize)) == FlatMap(Eligible, pages)
    decreases |pages| - i
  {
    if i == |pages| {
      assert pages[..i] == pages;
      LastGroupHanded(g);
    } else {
      GroupPageHanded(g, pages[i], chunkSize);
      FlatMapNext(Eligible, pages, i);
      GroupFromHanded(pages, i + 1, GroupPage(g, pages[i], chunkSize), chunkSize);
    }
  }

  /** The groups, put together, are exactly the pages with enough text, each once, in order. */
  lemma PagesHandedOnce(pages: seq<Page>, chunkSize: Size)
    ensures FlatMap(PagesOf, Calls(pages, chunkSize)) == FlatMap(Eligible, pages)
  {
    assert pages[..0] == [];
    GroupFromHanded(pages, 0, NO_GROUP, chunkSize);
  }

  // ---------- storage keys ----------

  predicate OwnPage(pages: seq<Page>, id: nat, num: int)
  {
    exists k :: 0 <= k < |pages| && pages[k].id == id && pages[k].num == num
  }

  predicate OwnPages(pages: seq<Page>, spans: seq<Span>)
  {
    forall k :: 0 <= k < |spans| ==> OwnPage(pages, spans[k].id, spans[k].num)
  }

  lemma {:induction false} SpansOwn(pages: seq<Page>, texts: seq<string>, id: nat, num: int)
    requires OwnPage(pages, id, num)
    ensures OwnPages(pages, Spans(texts, id, num))
    decreases |texts|
  {
    if texts != [] {
      SpansOwn(pages, texts[1..], id, num);
    }
  }

  ghost predicate StateOwn(pages: seq<Page>, st: State)
  {
    OwnPages(pages, st.done) && (st.open.text != "" ==> OwnPage(pages, st.open.id, st.open.num))
  }

  lemma AddPageOwn(cfg: Config, pages: seq<Page>, st: State, page: Page)
    requires StateOwn(pages, st) && OwnPage(pages, page.id, page.num)
    ensures StateOwn(pages, AddPage(cfg, st, page))
  {
    SpansOwn(pages, Kept(SC.SimpleChunks(cfg.rules, Strip(page.rawText), cfg.max, cfg.overlap)), page.id, page.num);
  }

  lemma {:induction false} GatherOwn(cfg: Config, pages: seq<Page>, i: nat, st: State)
    requires i <= |pages| && StateOwn(pages, st)
    ensures OwnPages(pages, Gather(cfg, pages, i, st))
    decreases |pages| - i
  {
    if i < |pages| {
      assert OwnPage(pages, pages[i].id, pages[i].num);
      AddPageOwn(cfg, pages, st, pages[i]);
      GatherOwn(cfg, pages, i + 1, AddPage(cfg, st, pages[i]));
    }
  }

  lemma {:induction false} ResplitOwn(cfg: Config, pages: seq<Page>, spans: seq<Span>)
    requires OwnPages(pages, spans)
    ensures OwnPages(pages, Resplit(cfg, spans))
    decreases |spans|
  {
    if spans != [] {
      ResplitOwn(cfg, pages, spans[1..]);
      SpansOwn(pages, SplitAgain(cfg, spans[0].text), spans[0].id, spans[0].num);
    }
  }

  lemma {:induction false} MergeOwn(cfg: Config, pages: seq<Page>, spans: seq<Span>)
    requires OwnPages(pages, spans)
    ensures OwnPages(pages, MergeSmall(cfg, spans))
    decreases |spans|
  {
    if spans != [] {
      MergeOwn(cfg, pages, spans[..|spans| - 1]);
    }
  }

  /** The chunks of one group are numbered from 0 and keyed by pages of that group. */
  lemma GroupKeys(cfg: Config, call: Call, k: int)
    requires 0 <= k < |GroupItems(cfg, call)|
    ensures var it := GroupItems(cfg, call)[k];
      it.idx == k && it.path == call.path && it.title == call.title && OwnPage(call.pages, it.id, it.num)
    ensures var it := GroupItems(cfg, call)[k];
      Span(it.text, it.id, it.num) == GroupSpans(cfg, call.pages)[k]
  {
    GatherOwn(cfg, call.pages, 0, START);
    var spans := Gather(cfg, call.pages, 0, START);
    ResplitOwn(cfg, call.pages, spans);
    MergeOwn(cfg, call.pages, Resplit(cfg, spans));
  }

  predicate DistinctIds(pages: seq<Page>)
  {
    forall i, j :: 0 <= i < j < |pages| ==> pages[i].id != pages[j].id
  }

  predicate DistinctKeys(items: seq<Item>)
  {
    forall i, j :: 0 <= i < j < |items| ==> items[i].id != items[j].id || items[i].idx != items[j].idx
  }

  predicate KeyedBy(pages: seq<Page>, items: seq<Item>)
  {
    forall k :: 0 <= k < |items| ==> OwnPage(pages, items[k].id, items[k].num)
  }

  lemma AppendKeys(a: seq<Item>, b: seq<Item>, pa: seq<Page>, pb: seq<Page>)
    requires DistinctIds(pa + pb) && KeyedBy(pa, a) && KeyedBy(pb, b)
    requires DistinctKeys(a) && DistinctKeys(b)
    ensures DistinctKeys(a + b) && KeyedBy(pa + pb, a + b)
  {
    var pages, items := pa + pb, a + b;
    forall i, j | 0 <= i < |a| && 0 <= j < |b| ensures a[i].id != b[j].id {
      var x :| 0 <= x < |pa| && pa[x].id == a[i].id && pa[x].num == a[i].num;
      var y :| 0 <= y < |pb| && pb[y].id == b[j].id && pb[y].num == b[j].num;
      assert pages[x].id != pages[|pa| + y].id;
    }
    forall k | 0 <= k < |items| ensures OwnPage(pages, items[k].id, items[k].num) {
      if k < |a| {
        var x :| 0 <= x < |pa| && pa[x].id == a[k].id && pa[x].num == a[k].num;
        assert pages[x] == pa[x];
      } else {
        assert OwnPage(pb, b[k - |a|].id, b[k - |a|].num);
        var y :| 0 <= y < |pb| && pb[y].id == b[k - |a|].id && pb[y].num == b[k - |a|].num;
        assert pages[|pa| + y] == pb[y];
      }
    }
  }

  lemma {:induction false} ItemsKeys(cfg: Config, calls: seq<Call>)
    requires DistinctIds(FlatMap(PagesOf, calls))
    ensures DistinctKeys(ItemsOf(cfg, calls)) && KeyedBy(FlatMap(PagesOf, calls), ItemsOf(cfg, calls))
    decreases |calls|
  {
    if calls != [] {
      var init, call := calls[..|calls| - 1], calls[|calls| - 1];
      var before := FlatMap(PagesOf, init);
      assert calls == init + [call];
      FlatMapSnoc(PagesOf, init, call);
      forall i, j | 0 <= i < j < |before| ensures before[i].id != before[j].id {
        assert (before + call.pages)[i] == before[i] && (before + call.pages)[j] == before[j];
      }
      ItemsKeys(cfg, init);
      var items := GroupItems(cfg, call);
      forall k | 0 <= k < |items| ensures items[k].idx == k && OwnPage(call.pages, items[k].id, items[k].num) {
        GroupKeys(cfg, call, k);
      }
      AppendKeys(ItemsOf(cfg, init), items, before, call.pages);
    }
  }

  lemma {:induction false} EligibleDistinct(pages: seq<Page>)
    requires DistinctIds(pages)
    ensures DistinctIds(FlatMap(Eligible, pages))
    ensures forall k :: 0 <= k < |FlatMap(Eligible, pages)| ==>
              OwnPage(pages, FlatMap(Eligible, pages)[k].id, FlatMap(Eligible, pages)[k].num)
    decreases |pages|
  {
    if pages != [] {
      EligibleDistinct(pages[1..]);
      var rest := FlatMap(Eligible, pages[1..]);
      forall k | 0 <= k < |rest|
        ensures rest[k].id != pages[0].id && OwnPage(pages, rest[k].id, rest[k].num)
      {
        assert OwnPage(pages[1..], rest[k].id, rest[k].num);
        var x :| 0 <= x < |pages[1..]| && pages[1..][x].id == rest[k].id && pages[1..][x].num == rest[k].num;
        assert pages[x + 1] == pages[1..][x];
      }
      assert OwnPage(pages, pages[0].id, pages[0].num);
    }
  }

  /** Storage keys never collide: all (page id, chunk index) pairs of a document are
      distinct, although numbering restarts with every group. Each is keyed by a page of the
      document. */
  lemma VectorKeysDistinct(cfg: Config, pages: seq<Page>, chunkSize: Size, maxChunks: nat)
    requires DistinctIds(pages)
    ensures DistinctKeys(DocumentItems(cfg, pages, chunkSize, maxChunks))
    ensures KeyedBy(pages, DocumentItems(cfg, pages, chunkSize, maxChunks))
  {
    EligibleDistinct(pages);
    PagesHandedOnce(pages, chunkSize);
    ItemsKeys(cfg, Calls(pages, chunkSize));
    KeyedByAll(pages, FlatMap(Eligible, pages), ItemsOf(cfg, Calls(pages, chunkSize)));
  }

  lemma KeyedByAll(pages: seq<Page>, some: seq<Page>, items: seq<Item>)
    requires KeyedBy(some, items) && forall k :: 0 <= k < |some| ==> OwnPage(pages, some[k].id, some[k].num)
    ensures KeyedBy(pages, items)
  {
    forall k | 0 <= k < |items| ensures OwnPage(pages, items[k].id, items[k].num) {
      assert OwnPage(some, items[k].id, items[k].num);
    }
  }
}
