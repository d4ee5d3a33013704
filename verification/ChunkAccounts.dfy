/** What the chunkers do with all of a text's content. */
module ChunkAccounts {
  import opened Text
  import opened Accounts
  import opened StructureChunker
  import opened StructureProperties
  import opened ChunkContents
  import LC = LineChunker

  // ---------- chunks by lines ----------

  /** The overlap is repeated, the rest is the chunk's own. */
  predicate LinePart(base: seq<string>, chunks: seq<string>, overlap: nat, k: int, p: Part)
    requires 0 <= k < |base| == |chunks|
  {
    p == Part(Solid(base[k]), [Solid(Repeated(base, overlap, k))], Emitted(chunks[k]))
  }

  /** Each chunk shows a passage of the own part before it, and then its own part. */
  ghost predicate Linked(before: string, own: seq<string>, repeated: seq<string>, chunks: seq<string>)
  {
    && |own| == |repeated| == |chunks|
    && (forall k :: 0 <= k < |chunks| ==> Solid(chunks[k]) == Solid(repeated[k]) + Solid(own[k]))
    && (chunks != [] ==> Inside(Solid(repeated[0]), before))
    && (forall k :: 0 < k < |chunks| ==> Inside(Solid(repeated[k]), Solid(own[k - 1])))
  }

  lemma {:induction false} LinkedAccount(before: string, own: seq<string>, repeated: seq<string>, chunks: seq<string>)
    returns (parts: seq<Part>)
    requires Linked(before, own, repeated, chunks)
    ensures Account(1, before, SolidAll(own), parts, Chunked(chunks), [])
    ensures |parts| == |chunks| && forall k :: 0 <= k < |parts| ==>
      parts[k] == Part(Solid(own[k]), [Solid(repeated[k])], Emitted(chunks[k]))
    decreases |own|
  {
    if own == [] {
      parts := [];
      NoParts(1, before);
    } else {
      var first := Solid(own[0]);
      var p := AfterPassage(1, before, first, Solid(repeated[0]), chunks[0]);
      if |own| > 1 {
        InsideAfter(Solid(repeated[1]), before, first);
      }
      var rest := LinkedAccount(before + first, own[1..], repeated[1..], chunks[1..]);
      AccountAppend(1, before, first, [p], Chunked([chunks[0]]), [], SolidAll(own[1..]), rest, Chunked(chunks[1..]), []);
      FlatMapOne(Whole, chunks[0]);
      parts := [p] + rest;
    }
  }

  /** The overlap is the end of the chunk before. */
  lemma TailInside(prev: string, overlap: nat)
    ensures Inside(Solid(LC.OverlapTail(prev, overlap)), Solid(prev))
  {
    var from := if overlap < |prev| then |prev| - overlap else 0;
    var j := LC.AfterNewlineAt(prev[from..]);
    var head, tail := prev[..from + j], LC.OverlapTail(prev, overlap);
    assert prev[from..][j..] == prev[from + j..];
    assert from == 0 ==> prev[from..] == prev;
    assert prev == head + tail;
    SolidAppend(head, tail);
    InsideSlice(Solid(prev), |Solid(head)|, |Solid(prev)|);
    assert Solid(prev)[|Solid(head)|..|Solid(prev)|] == Solid(tail);
  }

  lemma NothingInside(text: string)
    ensures Inside("", text)
  {
    assert InsideAt("", text, 0);
  }

  /** Chunks by lines: nothing is lost, and each chunk repeats exactly its overlap. */
  lemma LineChunksAccount(text: string, size: Size, overlap: nat) returns (parts: seq<Part>)
    ensures var base, chunks := LC.BaseChunks(text, size), LC.LineChunks(text, size, overlap);
      && |base| == |chunks| == |parts|
      && Account(1, "", Solid(text), parts, Chunked(chunks), [])
      && forall k :: 0 <= k < |parts| ==> LinePart(base, chunks, overlap, k, parts[k])
  {
    var base, chunks := LC.BaseChunks(text, size), LC.LineChunks(text, size, overlap);
    var repeated := seq(|base|, k requires 0 <= k < |base| => Repeated(base, overlap, k));
    forall k | 0 <= k < |base|
      ensures Solid(chunks[k]) == Solid(repeated[k]) + Solid(base[k])
      ensures 0 < k ==> Inside(Solid(repeated[k]), Solid(base[k - 1]))
    {
      LineChunkContent(text, size, overlap, k);
      if 0 < k {
        if overlap == 0 {
          NothingInside(Solid(base[k - 1]));
        } else {
          TailInside(base[k - 1], overlap);
        }
      }
    }
    NothingInside("");
    assert base != [] ==> Solid(repeated[0]) == "";
    LC.ContentConserved(text, size);
    parts := LinkedAccount("", base, repeated, chunks);
  }

  // ---------- chunks by structure ----------

  /** The tables that leave no trace. */
  function LostRun(rules: Rules, max: Size, seg: Segment): seq<seq<string>>
  {
    if seg.Run? && Silent(rules, seg, max) then [seg.rows] else []
  }

  function LostRuns(rules: Rules, max: Size, segs: seq<Segment>): seq<seq<string>>
  {
    FlatMap((seg: Segment) => LostRun(rules, max, seg), segs)
  }

  /** The tables of a text that are lost when it is chunked by structure: the over-large ones
      with header rows only, unless nothing else is emitted. */
  function LostTables(rules: Rules, text: string, max: Size): seq<seq<string>>
  {
    var read := Outcome(rules, text, max).read;
    if AllSilent(rules, read, max) then [] else LostRuns(rules, max, read)
  }

  /** The part is a later block of this run, which repeats the run's header. */
  predicate BlockOf(rules: Rules, max: Size, seg: Segment, p: Part)
  {
    && seg.Run? && Oversized(seg.rows, max)
    && exists k :: 0 < k < |SubTables(rules, seg.rows, max)| && BlockPart(rules, max, seg.rows, k, p)
  }

  predicate BlockPart(rules: Rules, max: Size, rows: seq<string>, k: int, p: Part)
    requires 0 < k < |SubTables(rules, rows, max)|
  {
    var g := SubTables(rules, rows, max)[k];
    && g.SubTable? && |g.header| <= |rows| && HeaderEnds(rules, rows, |g.header|) && g.header == rows[..|g.header|]
    && p == Part(SolidAll(g.rows), [SolidAll(g.header)], Emitted(GroupText(g)))
  }

  /** Nothing is repeated but the header of a run before its later blocks. */
  predicate HeadersRepeated(rules: Rules, max: Size, read: seq<Segment>, parts: seq<Part>)
  {
    forall k :: 0 <= k < |parts| && parts[k].repeated != [] ==>
      exists i :: 0 <= i < |read| && BlockOf(rules, max, read[i], parts[k])
  }

  predicate NothingRepeated(parts: seq<Part>)
  {
    forall k :: 0 <= k < |parts| ==> parts[k].repeated == []
  }

  lemma GroupAccount(before: string, g: Group) returns (parts: seq<Part>)
    ensures Account(1, before, SolidGroup(g), parts, Chunked(ChunkOf(g)), []) && NothingRepeated(parts)
  {
    ChunkOfContent(g);
    if GroupText(g) == "" {
      parts := [];
      assert SolidGroup(g) == "";
      NoParts(1, before);
    } else {
      FlatMapOne(Solid, GroupText(g));
      var p := AllOwn(1, before, GroupText(g));
      parts := [p];
    }
  }

  lemma {:induction false} GroupsAccount(before: string, groups: seq<Group>) returns (parts: seq<Part>)
    ensures Account(1, before, FlatMap(SolidGroup, groups), parts, Chunked(ChunksOf(groups)), []) && NothingRepeated(parts)
    decreases |groups|
  {
    if groups == [] {
      parts := [];
      NoParts(1, before);
    } else {
      var g, others := groups[0], groups[1..];
      var first := GroupAccount(before, g);
      var rest := GroupsAccount(before + SolidGroup(g), others);
      AccountAppend(1, before, SolidGroup(g), first, Chunked(ChunkOf(g)), [],
                    FlatMap(SolidGroup, others), rest, Chunked(ChunksOf(others)), []);
      FlatMapAppend(Whole, ChunkOf(g), ChunksOf(others));
      parts := first + rest;
    }
  }

  /** A later block: the header is repeated. */
  lemma BlockAccount(rules: Rules, max: Size, before: string, rows: seq<string>, k: nat) returns (p: Part)
    requires Oversized(rows, max) && WellRead(rules, Run(rows)) && 0 < k < |SubTables(rules, rows, max)|
    requires Inside(SolidAll(rows[..HeaderRows(rules, rows)]), before)
    ensures var g := SubTables(rules, rows, max)[k];
      g.SubTable? && Account(1, before, SolidAll(g.rows), [p], Chunked(ChunkOf(g)), [])
    ensures BlockOf(rules, max, Run(rows), p)
  {
    var header, g := rows[..HeaderRows(rules, rows)], SubTables(rules, rows, max)[k];
    SplitBehindHeader(rules, rows, max);
    BlockShown(rules, header, g, max);
    ChunkOfContent(g);
    FlatMapOne(Solid, GroupText(g));
    p := AfterPassage(1, before, SolidAll(g.rows), SolidAll(header), GroupText(g));
    HeaderEndsIff(rules, rows, |header|);
    assert BlockPart(rules, max, rows, k, p);
  }

  lemma RowsFrom(subs: seq<Group>, k: nat)
    requires k < |subs| && subs[k].SubTable?
    ensures SolidAll(FlatMap(RowsOf, subs[k..])) == SolidAll(subs[k].rows) + SolidAll(FlatMap(RowsOf, subs[k + 1..]))
    ensures Chunked(ChunksOf(subs[k..])) == Chunked(ChunkOf(subs[k])) + Chunked(ChunksOf(subs[k + 1..]))
  {
    FlatMapFrom(RowsOf, subs, k);
    FlatMapFrom(ChunkOf, subs, k);
    FlatMapAppend(Whole, ChunkOf(subs[k]), ChunksOf(subs[k + 1..]));
    FlatMapAppend(Solid, subs[k].rows, FlatMap(RowsOf, subs[k + 1..]));
  }

  /** The blocks from `k` on, when the header has been shown. */
  lemma {:induction false} BlocksAccount(rules: Rules, max: Size, before: string, rows: seq<string>, k: nat)
    returns (parts: seq<Part>)
    requires Oversized(rows, max) && WellRead(rules, Run(rows))
    requires 0 < k <= |SubTables(rules, rows, max)|
    requires Inside(SolidAll(rows[..HeaderRows(rules, rows)]), before)
    ensures var subs := SubTables(rules, rows, max);
      Account(1, before, SolidAll(FlatMap(RowsOf, subs[k..])), parts, Chunked(ChunksOf(subs[k..])), [])
    ensures forall j :: 0 <= j < |parts| ==> BlockOf(rules, max, Run(rows), parts[j])
    decreases |SubTables(rules, rows, max)| - k
  {
    var header, subs := rows[..HeaderRows(rules, rows)], SubTables(rules, rows, max);
    if k == |subs| {
      parts := [];
      NoParts(1, before);
    } else {
      var p := BlockAccount(rules, max, before, rows, k);
      var own, later := SolidAll(subs[k].rows), SolidAll(FlatMap(RowsOf, subs[k + 1..]));
      InsideLater(SolidAll(header), before, own);
      var rest := BlocksAccount(rules, max, before + own, rows, k + 1);
      RowsFrom(subs, k);
      AccountAppend(1, before, own, [p], Chunked(ChunkOf(subs[k])), [], later, rest, Chunked(ChunksOf(subs[k + 1..])), []);
      parts := [p] + rest;
    }
  }

  /** An over-large table: its first block shows the header as its own, later ones repeat it;
      without a data row all of it is lost. */
  lemma TableAccount(rules: Rules, max: Size, before: string, rows: seq<string>) returns (parts: seq<Part>)
    requires Oversized(rows, max) && WellRead(rules, Run(rows))
    ensures Account(1, before, SolidAll(rows), parts, Chunked(ChunksOf(SubTables(rules, rows, max))),
                    LostRun(rules, max, Run(rows)))
    ensures forall j :: 0 <= j < |parts| && parts[j].repeated != [] ==> BlockOf(rules, max, Run(rows), parts[j])
  {
    var n, subs := HeaderRows(rules, rows), SubTables(rules, rows, max);
    NoBlocksIff(rules, rows, max);
    if subs == [] {
      var p := Part(SolidAll(rows), [], HeaderOnly(rows));
      assert Together([]) + p.own == p.own;
      OnePart(1, before, p);
      parts := [p];
    } else {
      parts := BlockedTableAccount(rules, max, before, rows);
    }
  }

  lemma BlockedTableAccount(rules: Rules, max: Size, before: string, rows: seq<string>) returns (parts: seq<Part>)
    requires Oversized(rows, max) && WellRead(rules, Run(rows)) && SubTables(rules, rows, max) != []
    ensures Account(1, before, SolidAll(rows), parts, Chunked(ChunksOf(SubTables(rules, rows, max))), [])
    ensures forall j :: 0 <= j < |parts| && parts[j].repeated != [] ==> BlockOf(rules, max, Run(rows), parts[j])
  {
    var n, subs := HeaderRows(rules, rows), SubTables(rules, rows, max);
    var header, g := rows[..n], subs[0];
    SplitBehindHeader(rules, rows, max);
    TableContent(rows, n, subs, header);
    var first := GroupAccount(before, g);
    assert SolidGroup(g) == SolidAll(header) + SolidAll(g.rows);
    InsideSlice(SolidGroup(g), 0, |SolidAll(header)|);
    assert SolidGroup(g)[0..|SolidAll(header)|] == SolidAll(header);
    InsideAfter(SolidAll(header), before, SolidGroup(g));
    var rest := BlocksAccount(rules, max, before + SolidGroup(g), rows, 1);
    AccountAppend(1, before, SolidGroup(g), first, Chunked(ChunkOf(g)), [],
                  SolidAll(FlatMap(RowsOf, subs[1..])), rest, Chunked(ChunksOf(subs[1..])), []);
    FlatMapAppend(Whole, ChunkOf(g), ChunksOf(subs[1..]));
    parts := first + rest;
  }

  /** The chunks emitted so far, and the lost tables among what was read, account for `content`. */
  ghost predicate Ledger(rules: Rules, max: Size, st: State, parts: seq<Part>, content: string)
  {
    && Account(1, "", content, parts, Chunked(ChunksOf(st.done)), LostRuns(rules, max, st.read))
    && HeadersRepeated(rules, max, st.read, parts)
  }

  /** Content that was read, of which `content` is accounted for. */
  predicate Covered(st: State, content: string, all: string)
  {
    content + FlatMap(SolidItem, st.current) == all
  }

  lemma MoreRead(rules: Rules, max: Size, read: seq<Segment>, parts: seq<Part>, seg: Segment, more: seq<Part>)
    requires HeadersRepeated(rules, max, read, parts)
    requires forall j :: 0 <= j < |more| && more[j].repeated != [] ==> BlockOf(rules, max, seg, more[j])
    ensures HeadersRepeated(rules, max, read + [seg], parts + more)
  {
    var all, parts' := read + [seg], parts + more;
    forall k | 0 <= k < |parts'| && parts'[k].repeated != []
      ensures exists i :: 0 <= i < |all| && BlockOf(rules, max, all[i], parts'[k])
    {
      if k < |parts| {
        var i :| 0 <= i < |read| && BlockOf(rules, max, read[i], parts[k]);
        assert all[i] == read[i];
      } else {
        assert all[|read|] == seg && BlockOf(rules, max, all[|read|], parts'[k]);
      }
    }
  }

  /** A step that only adds groups to those emitted, and the content `x` to the state. */
  lemma GroupsAdded(st: State, st': State, parts: seq<Part>, content: string, all: string, x: string, tables: seq<seq<string>>)
    returns (added: seq<Part>, content': string)
    requires Account(1, "", content, parts, Chunked(ChunksOf(st.done)), tables) && Covered(st, content, all)
    requires st.done <= st'.done && Content(st') == Content(st) + x
    ensures Account(1, "", content', parts + added, Chunked(ChunksOf(st'.done)), tables)
    ensures Covered(st', content', all + x) && NothingRepeated(added)
  {
    var more := st'.done[|st.done|..];
    assert st'.done == st.done + more;
    var y := FlatMap(SolidGroup, more);
    added := DoneGrows(st.done, more, parts, content, tables);
    content' := content + y;
    FlatMapAppend(SolidGroup, st.done, more);
    SameRest(FlatMap(SolidGroup, st.done), y, FlatMap(SolidItem, st'.current), FlatMap(SolidItem, st.current), x);
    Regrouped(content, y, FlatMap(SolidItem, st'.current), FlatMap(SolidItem, st.current), x);
  }

  lemma DoneGrows(done: seq<Group>, more: seq<Group>, parts: seq<Part>, content: string, tables: seq<seq<string>>)
    returns (added: seq<Part>)
    requires Account(1, "", content, parts, Chunked(ChunksOf(done)), tables)
    ensures Account(1, "", content + FlatMap(SolidGroup, more), parts + added, Chunked(ChunksOf(done + more)), tables)
    ensures NothingRepeated(added)
  {
    added := GroupsAccount(content, more);
    ChunkedAppend(content, parts, done, tables, FlatMap(SolidGroup, more), added, more, []);
    assert tables + [] == tables;
  }

  /** Parts for further groups, after those of the groups before. */
  lemma ChunkedAppend(content: string, parts: seq<Part>, done: seq<Group>, tables: seq<seq<string>>,
                      more: string, added: seq<Part>, groups: seq<Group>, others: seq<seq<string>>)
    requires Account(1, "", content, parts, Chunked(ChunksOf(done)), tables)
    requires Account(1, content, more, added, Chunked(ChunksOf(groups)), others)
    ensures Account(1, "", content + more, parts + added, Chunked(ChunksOf(done + groups)), tables + others)
  {
    assert "" + content == content;
    AccountAppend(1, "", content, parts, Chunked(ChunksOf(done)), tables, more, added, Chunked(ChunksOf(groups)), others);
    FlatMapAppend(ChunkOf, done, groups);
    FlatMapAppend(Whole, ChunksOf(done), ChunksOf(groups));
  }

  lemma SameRest(done: string, more: string, open': string, open: string, x: string)
    requires (done + more) + open' == (done + open) + x
    ensures more + open' == open + x
  {
    assert (done + more) + open' == done + (more + open');
    assert (done + open) + x == done + (open + x);
    assert (done + (more + open'))[|done|..] == more + open';
    assert (done + (open + x))[|done|..] == open + x;
  }

  lemma Regrouped(content: string, more: string, open': string, open: string, x: string)
    requires more + open' == open + x
    ensures (content + more) + open' == (content + open) + x
  {
    assert (content + more) + open' == content + (more + open');
    assert (content + open) + x == content + (open + x);
  }

  lemma LostNext(rules: Rules, max: Size, read: seq<Segment>, seg: Segment)
    ensures LostRuns(rules, max, read + [seg]) == LostRuns(rules, max, read) + LostRun(rules, max, seg)
  {
    FlatMapSnoc((s: Segment) => LostRun(rules, max, s), read, seg);
  }

  /** A segment that is no over-large table. */
  lemma PlainStep(rules: Rules, max: Size, st: State, seg: Segment, parts: seq<Part>, content: string, all: string)
    returns (parts': seq<Part>, content': string)
    requires Ledger(rules, max, st, parts, content) && Covered(st, content, all)
    requires seg.Run? ==> !Oversized(seg.rows, max)
    ensures var st' := Add(rules, st, seg, max);
      Ledger(rules, max, st', parts', content') && Covered(st', content', all + SolidAll(SegmentLines(seg)))
  {
    var st' := Add(rules, st, seg, max);
    AddContent(rules, st, seg, max);
    ShownOne(rules, seg, max);
    AddGrows(rules, st, seg, max);
    var added;
    added, content' := GroupsAdded(st, st', parts, content, all, Shown(rules, seg, max), LostRuns(rules, max, st.read));
    parts' := parts + added;
    LostNext(rules, max, st.read, seg);
    assert LostRuns(rules, max, st.read) + [] == LostRuns(rules, max, st.read);
    MoreRead(rules, max, st.read, parts, seg, added);
  }

  lemma FlushedLedger(rules: Rules, max: Size, st: State, parts: seq<Part>, content: string, all: string)
    returns (added: seq<Part>)
    requires Ledger(rules, max, st, parts, content) && Covered(st, content, all)
    ensures Account(1, "", all, parts + added, Chunked(ChunksOf(Flush(st).done)), LostRuns(rules, max, st.read))
    ensures NothingRepeated(added)
  {
    FlushContent(st);
    assert Content(Flush(st)) == Content(st) + "";
    var end;
    added, end := GroupsAdded(st, Flush(st), parts, content, all, "", LostRuns(rules, max, st.read));
    assert end + "" == end && all + "" == all;
  }

  lemma TableStep(rules: Rules, max: Size, st: State, rows: seq<string>, parts: seq<Part>, content: string, all: string)
    returns (parts': seq<Part>)
    requires Ledger(rules, max, st, parts, content) && Covered(st, content, all)
    requires Oversized(rows, max) && WellRead(rules, Run(rows))
    ensures var st', all' := Add(rules, st, Run(rows), max), all + SolidAll(rows);
      Ledger(rules, max, st', parts', all') && Covered(st', all', all')
  {
    var added := FlushedLedger(rules, max, st, parts, content, all);
    var table := TableAccount(rules, max, all, rows);
    ChunkedAppend(all, parts + added, Flush(st).done, LostRuns(rules, max, st.read),
                  SolidAll(rows), table, SubTables(rules, rows, max), LostRun(rules, max, Run(rows)));
    parts' := parts + added + table;
    TableRead(rules, max, st, rows, parts, added, table, all + SolidAll(rows));
  }

  lemma TableRead(rules: Rules, max: Size, st: State, rows: seq<string>, parts: seq<Part>, added: seq<Part>,
                  table: seq<Part>, content: string)
    requires Oversized(rows, max) && HeadersRepeated(rules, max, st.read, parts) && NothingRepeated(added)
    requires forall j :: 0 <= j < |table| && table[j].repeated != [] ==> BlockOf(rules, max, Run(rows), table[j])
    requires Account(1, "", content, parts + added + table,
                     Chunked(ChunksOf(Flush(st).done + SubTables(rules, rows, max))),
                     LostRuns(rules, max, st.read) + LostRun(rules, max, Run(rows)))
    ensures var st' := Add(rules, st, Run(rows), max);
      Ledger(rules, max, st', parts + added + table, content) && Covered(st', content, content)
  {
    LostNext(rules, max, st.read, Run(rows));
    MoreRead(rules, max, st.read, parts, Run(rows), added + table);
    Assoc(parts, added, table);
    assert content + "" == content;
  }

  lemma {:induction false} WalkLedger(rules: Rules, lines: seq<string>, i: nat, st: State, max: Size, parts: seq<Part>,
                                      content: string)
    returns (parts': seq<Part>)
    requires i <= |lines| && Ledger(rules, max, st, parts, content) && Covered(st, content, SolidAll(lines[..i]))
    ensures Ledger(rules, max, Walk(rules, lines, i, st, max), parts', SolidAll(lines))
    decreases |lines| - i
  {
    if i == |lines| {
      assert lines[..i] == lines;
      var added := FlushedLedger(rules, max, st, parts, content, SolidAll(lines));
      parts' := parts + added;
    } else {
      var seg, e := SegmentAt(rules, lines, i, st), Next(rules, lines, i, st);
      ReadNext(rules, lines, i, st);
      var more, content';
      if seg.Run? && Oversized(seg.rows, max) {
        more := TableStep(rules, max, st, seg.rows, parts, content, SolidAll(lines[..i]));
        content' := SolidAll(lines[..e]);
      } else {
        more, content' := PlainStep(rules, max, st, seg, parts, content, SolidAll(lines[..i]));
      }
      parts' := WalkLedger(rules, lines, e, Add(rules, st, seg, max), max, more, content');
    }
  }

  /** Chunks by structure: the parts' sources are exactly the chunks and the lost tables, and
      nothing is repeated but headers before later blocks of their own table. */
  lemma StructureChunksAccount(rules: Rules, text: string, max: Size) returns (parts: seq<Part>)
    ensures Account(1, "", Solid(text), parts, Chunked(StructureChunks(rules, text, max)), LostTables(rules, text, max))
    ensures HeadersRepeated(rules, max, Outcome(rules, text, max).read, parts)
  {
    FallbackIff(rules, text, max);
    if AllSilent(rules, Outcome(rules, text, max).read, max) {
      var p := AllOwn(1, "", text);
      parts := [p];
    } else {
      NoParts(1, "");
      assert "" + FlatMap(SolidItem, EMPTY.current) == SolidAll(Split(text)[..0]);
      parts := WalkLedger(rules, Split(text), 0, EMPTY, max, [], "");
      SolidJoin(Split(text));
      JoinSplit(text);
    }
  }

  // ---------- the entry point ----------

  /** What repeats something, and what: headers before later blocks, or the overlap. */
  predicate RepeatsOnly(rules: Rules, text: string, size: Size, overlap: nat, parts: seq<Part>)
  {
    if ByStructure(rules, text, size) then HeadersRepeated(rules, size, Outcome(rules, text, size).read, parts)
    else if |text| <= size then NothingRepeated(parts)
    else
      var base, chunks := LC.BaseChunks(text, size), LC.LineChunks(text, size, overlap);
      |parts| == |base| == |chunks| && forall k :: 0 <= k < |parts| ==> LinePart(base, chunks, overlap, k, parts[k])
  }

  function Positive(overlap: int): nat { if overlap > 0 then overlap else 0 }

  /** The entry point: the same by structure, and nothing is lost otherwise. */
  lemma SimpleChunksAccount(rules: Rules, text: string, size: Size, overlap: int) returns (parts: seq<Part>)
    ensures Account(1, "", Solid(text), parts, Chunked(SimpleChunks(rules, text, size, overlap)),
                    if ByStructure(rules, text, size) then LostTables(rules, text, size) else [])
    ensures RepeatsOnly(rules, text, size, Positive(overlap), parts)
  {
    if |text| <= size {
      var p := AllOwn(1, "", text);
      parts := [p];
    } else if |StructureChunks(rules, text, size)| > 1 {
      parts := StructureChunksAccount(rules, text, size);
    } else {
      parts := LineChunksAccount(text, size, Positive(overlap));
      assert LC.LineChunks(text, size, Positive(overlap)) == LC.LineChunks(text, size, overlap);
    }
  }
}
