/** Which pages a chunk for embedding is made of, and which one it is keyed by. */
module SpanRuns {
  import opened Text
  import opened SectionChunks
  import opened SectionProperties
  import SC = StructureChunker

  /** What a page contributes: nothing when blank, its text when that fits, and otherwise its
      pieces. Each carries the page's id and number. */
  function PageAtoms(cfg: Config, page: Page): seq<Span>
  {
    var text := Strip(page.rawText);
    if text == "" then []
    else if |text| <= cfg.max then [Span(text, page.id, page.num)]
    else Resplit(cfg, Spans(Kept(SC.SimpleChunks(cfg.rules, text, cfg.max, cfg.overlap)), page.id, page.num))
  }

  function Atoms(cfg: Config, pages: seq<Page>): seq<Span>
  {
    FlatMap((page: Page) => PageAtoms(cfg, page), pages)
  }

  /** The span joins these atoms, fits the limit if they are several, and is keyed by the
      first. */
  predicate Joins(max: Size, atoms: seq<Span>, s: Span)
  {
    && atoms != [] && s == Span(Join(TextsOf(atoms)), atoms[0].id, atoms[0].num)
    && (|atoms| == 1 || |s.text| <= max)
  }

  /** One run of atoms for each span. */
  predicate Joined(max: Size, runs: seq<seq<Span>>, spans: seq<Span>)
  {
    |runs| == |spans| && forall k :: 0 <= k < |spans| ==> Joins(max, runs[k], spans[k])
  }

  function Same(run: seq<Span>): seq<Span> { run }

  /** The runs, one after the other. */
  function Flat(runs: seq<seq<Span>>): seq<Span>
  {
    FlatMap(Same, runs)
  }

  lemma JoinsOne(max: Size, s: Span)
    ensures Joins(max, [s], s)
  {
    assert [s][1..] == [];
    assert TextsOf([s]) == [s.text];
  }

  lemma FlatNext(runs: seq<seq<Span>>, run: seq<Span>)
    ensures Flat(runs + [run]) == Flat(runs) + run
  {
    FlatMapSnoc(Same, runs, run);
  }

  lemma FlatAppend(a: seq<seq<Span>>, b: seq<seq<Span>>)
    ensures Flat(a + b) == Flat(a) + Flat(b)
  {
    FlatMapAppend(Same, a, b);
  }

  /** Spans that are their own runs. */
  lemma {:induction false} Singles(max: Size, atoms: seq<Span>) returns (runs: seq<seq<Span>>)
    ensures Joined(max, runs, atoms) && Flat(runs) == atoms
    decreases |atoms|
  {
    if atoms == [] {
      runs := [];
    } else {
      var k := |atoms| - 1;
      runs := Singles(max, atoms[..k]);
      FlatNext(runs, [atoms[k]]);
      JoinsOne(max, atoms[k]);
      runs := runs + [[atoms[k]]];
    }
  }

  /** Two runs become one when their texts fit together. */
  lemma JoinsBoth(max: Size, a: seq<Span>, s: Span, b: seq<Span>, t: Span)
    requires Joins(max, a, s) && Joins(max, b, t) && |s.text| + |t.text| + 1 <= max
    ensures Joins(max, a + b, s.(text := s.text + "\n" + t.text))
  {
    TextsAppend(a, b);
    JoinAppend(TextsOf(a), TextsOf(b));
  }

  lemma PushJoined(cfg: Config, runs: seq<seq<Span>>, merged: seq<Span>, run: seq<Span>, next: Span)
    returns (runs': seq<seq<Span>>)
    requires Joined(cfg.max, runs, merged) && Joins(cfg.max, run, next)
    ensures Joined(cfg.max, runs', JoinOrPush(cfg, merged, next)) && Flat(runs') == Flat(runs) + run
    ensures var k := |merged| - 1;
      runs' == if k >= 0 && |merged[k].text| + |next.text| + 1 <= cfg.max then runs[k := runs[k] + run]
               else runs + [run]
  {
    var k := |merged| - 1;
    if k >= 0 && |merged[k].text| + |next.text| + 1 <= cfg.max {
      JoinsBoth(cfg.max, runs[k], merged[k], run, next);
      runs' := runs[k := runs[k] + run];
      assert runs == runs[..k] + [runs[k]] && runs' == runs[..k] + [runs[k] + run];
      FlatNext(runs[..k], runs[k]);
      FlatNext(runs[..k], runs[k] + run);
      Assoc(Flat(runs[..k]), runs[k], run);
    } else {
      runs' := runs + [run];
      FlatNext(runs, run);
    }
  }

  lemma {:induction false} MergeJoined(cfg: Config, runs: seq<seq<Span>>, spans: seq<Span>) returns (merged: seq<seq<Span>>)
    requires Joined(cfg.max, runs, spans)
    ensures Joined(cfg.max, merged, MergeSmall(cfg, spans)) && Flat(merged) == Flat(runs)
    decreases |spans|
  {
    if spans == [] {
      merged := [];
      assert runs == [];
    } else {
      var k := |spans| - 1;
      merged := MergeJoined(cfg, runs[..k], spans[..k]);
      merged := PushJoined(cfg, merged, MergeSmall(cfg, spans[..k]), runs[k], spans[k]);
      assert runs == runs[..k] + [runs[k]];
      FlatNext(runs[..k], runs[k]);
    }
  }

  // ---------- gathering pages ----------

  /** The atoms of the pages so far: those of the closed spans, once split again, and those of
      the open one. */
  predicate Held(cfg: Config, atoms: seq<Span>, st: State, closed: seq<seq<Span>>, open: seq<Span>)
  {
    && atoms == Flat(closed) + open && |st.open.text| <= cfg.max
    && Joined(cfg.max, closed, Resplit(cfg, st.done))
    && if st.open.text == "" then open == [] else Joins(cfg.max, open, st.open)
  }

  lemma CloseHeld(cfg: Config, atoms: seq<Span>, st: State, closed: seq<seq<Span>>, open: seq<Span>)
    returns (runs: seq<seq<Span>>)
    requires Held(cfg, atoms, st, closed, open)
    ensures Joined(cfg.max, runs, Resplit(cfg, Close(st))) && Flat(runs) == atoms
  {
    if st.open.text == "" {
      assert Flat(closed) + [] == Flat(closed);
      runs := closed;
    } else {
      ResplitAppend(cfg, st.done, [st.open]);
      ResplitShort(cfg, st.open);
      FlatNext(closed, open);
      runs := closed + [open];
    }
  }

  lemma LongPageHeld(cfg: Config, st: State, runs: seq<seq<Span>>, page: Page) returns (closed: seq<seq<Span>>)
    requires Joined(cfg.max, runs, Resplit(cfg, Close(st))) && cfg.max < |Strip(page.rawText)|
    ensures Held(cfg, Flat(runs) + PageAtoms(cfg, page), AddPage(cfg, st, page), closed, [])
  {
    var text := Strip(page.rawText);
    var spans := Spans(Kept(SC.SimpleChunks(cfg.rules, text, cfg.max, cfg.overlap)), page.id, page.num);
    ResplitAppend(cfg, Close(st), spans);
    var singles := Singles(cfg.max, Resplit(cfg, spans));
    FlatAppend(runs, singles);
    closed := runs + singles;
    assert Flat(closed) + [] == Flat(closed);
  }

  lemma AddPageHeld(cfg: Config, atoms: seq<Span>, st: State, closed: seq<seq<Span>>, open: seq<Span>, page: Page)
    returns (closed': seq<seq<Span>>, open': seq<Span>)
    requires Held(cfg, atoms, st, closed, open)
    ensures Held(cfg, atoms + PageAtoms(cfg, page), AddPage(cfg, st, page), closed', open')
  {
    var text := Strip(page.rawText);
    var runs := CloseHeld(cfg, atoms, st, closed, open);
    if text == "" {
      closed', open' := closed, open;
      assert atoms + [] == atoms;
    } else if |text| > cfg.max {
      closed' := LongPageHeld(cfg, st, runs, page);
      open' := [];
    } else {
      var atom := Span(text, page.id, page.num);
      JoinsOne(cfg.max, atom);
      if st.open.text != "" && |st.open.text| + |text| + 1 <= cfg.max {
        JoinsBoth(cfg.max, open, st.open, [atom], atom);
        closed', open' := closed, open + [atom];
        Assoc(Flat(closed), open, [atom]);
      } else {
        closed', open' := runs, [atom];
      }
    }
  }

  lemma {:induction false} GatherJoined(cfg: Config, pages: seq<Page>, i: nat, st: State, closed: seq<seq<Span>>, open: seq<Span>)
    returns (runs: seq<seq<Span>>)
    requires i <= |pages| && Held(cfg, Atoms(cfg, pages[..i]), st, closed, open)
    ensures Joined(cfg.max, runs, Resplit(cfg, Gather(cfg, pages, i, st))) && Flat(runs) == Atoms(cfg, pages)
    decreases |pages| - i
  {
    if i == |pages| {
      assert pages[..i] == pages;
      runs := CloseHeld(cfg, Atoms(cfg, pages), st, closed, open);
    } else {
      FlatMapNext((page: Page) => PageAtoms(cfg, page), pages, i);
      var closed', open' := AddPageHeld(cfg, Atoms(cfg, pages[..i]), st, closed, open, pages[i]);
      runs := GatherJoined(cfg, pages, i + 1, AddPage(cfg, st, pages[i]), closed', open');
    }
  }

  /** The chunks of a group: what its pages contribute falls into consecutive runs, and each
      chunk is one run, its texts joined by newlines, keyed by the page the run begins with. A
      run of several parts fits the limit, and no two neighbouring chunks would. */
  lemma GroupRuns(cfg: Config, pages: seq<Page>) returns (runs: seq<seq<Span>>)
    ensures Flat(runs) == Atoms(cfg, pages) && Joined(cfg.max, runs, GroupSpans(cfg, pages))
    ensures Tight(cfg, GroupSpans(cfg, pages))
  {
    var spans := Resplit(cfg, Gather(cfg, pages, 0, START));
    assert pages[..0] == [];
    runs := GatherJoined(cfg, pages, 0, START, [], []);
    runs := MergeJoined(cfg, runs, spans);
    MergeIsGreedy(cfg, spans);
  }

  // ---------- which runs ----------

  /** Each run is as long as can be: what the next begins with does not fit any more. */
  predicate Full(max: Size, runs: seq<seq<Span>>, spans: seq<Span>)
    requires Joined(max, runs, spans)
  {
    forall k :: 0 < k < |runs| ==> |spans[k - 1].text| + |runs[k][0].text| + 1 > max
  }

  lemma GrowFull(max: Size, runs: seq<seq<Span>>, spans: seq<Span>, run: seq<Span>, s: Span)
    requires Joined(max, runs, spans) && Full(max, runs, spans) && runs != []
    requires Joins(max, runs[|runs| - 1] + run, s)
    ensures var k := |runs| - 1;
      var runs', spans' := runs[k := runs[k] + run], spans[k := s];
      Joined(max, runs', spans') && Full(max, runs', spans')
  {
    assert (runs[|runs| - 1] + run)[0] == runs[|runs| - 1][0];
  }

  lemma OpenFull(max: Size, runs: seq<seq<Span>>, spans: seq<Span>, next: Span)
    requires Joined(max, runs, spans) && Full(max, runs, spans)
    requires runs != [] ==> |spans[|spans| - 1].text| + |next.text| + 1 > max
    ensures Joined(max, runs + [[next]], spans + [next]) && Full(max, runs + [[next]], spans + [next])
  {
    JoinsOne(max, next);
  }

  lemma PushFull(cfg: Config, runs: seq<seq<Span>>, merged: seq<Span>, next: Span) returns (runs': seq<seq<Span>>)
    requires Joined(cfg.max, runs, merged) && Full(cfg.max, runs, merged)
    ensures var merged' := JoinOrPush(cfg, merged, next);
      Flat(runs') == Flat(runs) + [next] && Joined(cfg.max, runs', merged') && Full(cfg.max, runs', merged')
  {
    JoinsOne(cfg.max, next);
    runs' := PushJoined(cfg, runs, merged, [next], next);
    var k := |merged| - 1;
    if k >= 0 && |merged[k].text| + |next.text| + 1 <= cfg.max {
      JoinsBoth(cfg.max, runs[k], merged[k], [next], next);
      GrowFull(cfg.max, runs, merged, [next], merged[k].(text := merged[k].text + "\n" + next.text));
    } else {
      OpenFull(cfg.max, runs, merged, next);
    }
  }

  /** Small chunks are joined from the first on, each with as many as fit. */
  lemma {:induction false} MergeRuns(cfg: Config, spans: seq<Span>) returns (runs: seq<seq<Span>>)
    ensures Flat(runs) == spans && Joined(cfg.max, runs, MergeSmall(cfg, spans))
    ensures Full(cfg.max, runs, MergeSmall(cfg, spans))
    decreases |spans|
  {
    if spans == [] {
      runs := [];
    } else {
      var init, next := spans[..|spans| - 1], spans[|spans| - 1];
      runs := MergeRuns(cfg, init);
      assert spans == init + [next];
      runs := PushFull(cfg, runs, MergeSmall(cfg, init), next);
    }
  }

  predicate AllFit(cfg: Config, pages: seq<Page>)
  {
    forall k :: 0 <= k < |pages| ==> |Strip(pages[k].rawText)| <= cfg.max
  }

  /** Pages that fit are gathered in the same way: from the first on, as many as fit. */
  lemma {:induction false} FittingPages(cfg: Config, pages: seq<Page>, i: nat, st: State)
    requires i <= |pages| && AllFit(cfg, pages)
    requires Close(st) == MergeSmall(cfg, Atoms(cfg, pages[..i])) && (st.open.text == "" ==> st.done == [])
    ensures Gather(cfg, pages, i, st) == MergeSmall(cfg, Atoms(cfg, pages))
    decreases |pages| - i
  {
    if i == |pages| {
      assert pages[..i] == pages;
    } else {
      FlatMapNext((page: Page) => PageAtoms(cfg, page), pages, i);
      NextFitting(cfg, Atoms(cfg, pages[..i]), st, pages[i]);
      FittingPages(cfg, pages, i + 1, AddPage(cfg, st, pages[i]));
    }
  }

  lemma NextFitting(cfg: Config, atoms: seq<Span>, st: State, page: Page)
    requires |Strip(page.rawText)| <= cfg.max
    requires Close(st) == MergeSmall(cfg, atoms) && (st.open.text == "" ==> st.done == [])
    ensures var after := AddPage(cfg, st, page);
      && Close(after) == MergeSmall(cfg, atoms + PageAtoms(cfg, page))
      && (after.open.text == "" ==> after.done == [])
  {
    var text := Strip(page.rawText);
    if text == "" {
      assert atoms + [] == atoms;
    } else {
      var atom := Span(text, page.id, page.num);
      assert (atoms + [atom])[..|atoms|] == atoms;
      assert MergeSmall(cfg, atoms + [atom]) == JoinOrPush(cfg, MergeSmall(cfg, atoms), atom);
    }
  }

  lemma {:induction false} GatherBehind(cfg: Config, pages: seq<Page>, i: nat, st: State, before: seq<Span>)
    requires i <= |pages|
    ensures Gather(cfg, pages, i, State(before + st.done, st.open)) == before + Gather(cfg, pages, i, st)
    decreases |pages| - i
  {
    if i < |pages| {
      AddBehind(cfg, st, pages[i], before);
      GatherBehind(cfg, pages, i + 1, AddPage(cfg, st, pages[i]), before);
    }
  }

  lemma AddBehind(cfg: Config, st: State, page: Page, before: seq<Span>)
    ensures var after := AddPage(cfg, st, page);
      AddPage(cfg, State(before + st.done, st.open), page) == State(before + after.done, after.open)
  {
    Assoc(before, st.done, [st.open]);
    var pieces := Spans(Kept(SC.SimpleChunks(cfg.rules, Strip(page.rawText), cfg.max, cfg.overlap)), page.id, page.num);
    Assoc(before, Close(st), pieces);
  }

  lemma GatherStep(cfg: Config, pages: seq<Page>, i: nat, st: State)
    requires i < |pages|
    ensures Gather(cfg, pages, i, st) == Gather(cfg, pages, i + 1, AddPage(cfg, st, pages[i]))
  {
  }

  /** The state in which the pages behind `pages` are read. */
  lemma {:induction false} GatherOn(cfg: Config, pages: seq<Page>, i: nat, more: seq<Page>, st: State)
    returns (mid: State)
    requires i <= |pages|
    ensures Gather(cfg, pages + more, i, st) == Gather(cfg, pages + more, |pages|, mid)
    ensures Close(mid) == Gather(cfg, pages, i, st)
    decreases |pages| - i
  {
    if i == |pages| {
      mid := st;
    } else {
      assert (pages + more)[i] == pages[i];
      GatherStep(cfg, pages + more, i, st);
      GatherStep(cfg, pages, i, st);
      mid := GatherOn(cfg, pages, i + 1, more, AddPage(cfg, st, pages[i]));
    }
  }

  lemma {:induction false} GatherRest(cfg: Config, pages: seq<Page>, i: nat, st: State)
    requires i <= |pages|
    ensures Gather(cfg, pages, i, st) == Gather(cfg, pages[i..], 0, st)
    decreases |pages| - i
  {
    if i == |pages| {
      assert pages[i..] == [];
    } else {
      GatherStep(cfg, pages, i, st);
      GatherRest(cfg, pages, i + 1, AddPage(cfg, st, pages[i]));
      GatherStep(cfg, pages[i..], 0, st);
      GatherRest(cfg, pages[i..], 1, AddPage(cfg, st, pages[i]));
      assert pages[i..][1..] == pages[i + 1..];
    }
  }

  lemma LongPageAdded(cfg: Config, st: State, page: Page, behind: seq<Page>)
    requires cfg.max < |Strip(page.rawText)|
    ensures var pieces := Kept(SC.SimpleChunks(cfg.rules, Strip(page.rawText), cfg.max, cfg.overlap));
      Gather(cfg, behind, 0, AddPage(cfg, st, page)) ==
      Close(st) + Spans(pieces, page.id, page.num) + Gather(cfg, behind, 0, START)
  {
    var after := AddPage(cfg, st, page);
    assert after.done + START.done == after.done;
    GatherBehind(cfg, behind, 0, START, after.done);
  }

  /** A page over the limit parts the pages before it from those after it, and its kept pieces
      stand alone between them. */
  lemma LongPageParts(cfg: Config, before: seq<Page>, page: Page, behind: seq<Page>)
    requires cfg.max < |Strip(page.rawText)|
    ensures var pieces := Kept(SC.SimpleChunks(cfg.rules, Strip(page.rawText), cfg.max, cfg.overlap));
      Gather(cfg, before + ([page] + behind), 0, START) ==
      Gather(cfg, before, 0, START) + Spans(pieces, page.id, page.num) + Gather(cfg, behind, 0, START)
  {
    var mid := GatherOn(cfg, before, 0, [page] + behind, START);
    LongPageAdded(cfg, mid, page, behind);
    GatherPast(cfg, before, page, behind, mid);
  }

  lemma GatherPast(cfg: Config, before: seq<Page>, page: Page, behind: seq<Page>, mid: State)
    ensures Gather(cfg, before + ([page] + behind), |before|, mid) == Gather(cfg, behind, 0, AddPage(cfg, mid, page))
  {
    var pages, after := before + ([page] + behind), AddPage(cfg, mid, page);
    GatherStep(cfg, pages, |before|, mid);
    GatherRest(cfg, pages, |before| + 1, after);
    assert pages[|before| + 1..] == behind;
  }

  /** Between pages over the limit, pages are gathered from the first on, as many as fit. */
  lemma PagesGathered(cfg: Config, pages: seq<Page>) returns (runs: seq<seq<Span>>)
    requires AllFit(cfg, pages)
    ensures var spans := Gather(cfg, pages, 0, START);
      Flat(runs) == Atoms(cfg, pages) && Joined(cfg.max, runs, spans) && Full(cfg.max, runs, spans)
  {
    assert pages[..0] == [];
    FittingPages(cfg, pages, 0, START);
    runs := MergeRuns(cfg, Atoms(cfg, pages));
  }

  // ---------- keys ----------

  lemma {:induction false} PiecesKeyed(cfg: Config, spans: seq<Span>, id: nat, num: int)
    requires forall k :: 0 <= k < |spans| ==> spans[k].id == id && spans[k].num == num
    ensures forall k :: 0 <= k < |Resplit(cfg, spans)| ==> Resplit(cfg, spans)[k].id == id && Resplit(cfg, spans)[k].num == num
    decreases |spans|
  {
    if spans != [] {
      PiecesKeyed(cfg, spans[1..], id, num);
      SpansKeyed(SplitAgain(cfg, spans[0].text), id, num);
    }
  }

  lemma {:induction false} SpansKeyed(texts: seq<string>, id: nat, num: int)
    ensures forall k :: 0 <= k < |Spans(texts, id, num)| ==> Spans(texts, id, num)[k].id == id && Spans(texts, id, num)[k].num == num
    decreases |texts|
  {
    if texts != [] {
      SpansKeyed(texts[1..], id, num);
    }
  }

  /** Whatever a page contributes is keyed by that page. */
  lemma AtomsKeyed(cfg: Config, page: Page, k: int)
    requires 0 <= k < |PageAtoms(cfg, page)|
    ensures PageAtoms(cfg, page)[k].id == page.id && PageAtoms(cfg, page)[k].num == page.num
  {
    var text := Strip(page.rawText);
    if |text| > cfg.max {
      var texts := Kept(SC.SimpleChunks(cfg.rules, text, cfg.max, cfg.overlap));
      SpansKeyed(texts, page.id, page.num);
      PiecesKeyed(cfg, Spans(texts, page.id, page.num), page.id, page.num);
    }
  }
}
