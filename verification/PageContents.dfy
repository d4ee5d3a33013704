/** Where the content of a page over the size limit goes. */
module PageContents {
  import opened Text
  import opened Accounts
  import opened ChunkAccounts
  import opened SectionChunks
  import opened SectionProperties
  import SC = StructureChunker
  import SP = StructureProperties
  import Sizes = ChunkSizes
  import Reread = ChunkReread
  import Contents = ChunkContents

  // ---------- pieces that are too short ----------

  /** A piece is kept, stripped, or thrown away exactly when it is too small. */
  function Label(piece: string): Source
  {
    if TooSmall(piece) then Scrap(piece) else Emitted(Strip(piece))
  }

  function LabelOne(piece: string): seq<Source> { [Label(piece)] }

  function Labelled(pieces: seq<string>): seq<Source>
  {
    FlatMap(LabelOne, pieces)
  }

  function Relabel(source: Source): Source
  {
    if source.Emitted? then Label(source.text) else source
  }

  function RelabelOne(source: Source): seq<Source> { [Relabel(source)] }

  function Relabelled(parts: seq<Part>): seq<Part>
  {
    if parts == [] then [] else [parts[0].(source := Relabel(parts[0].source))] + Relabelled(parts[1..])
  }

  lemma {:induction false} RelabelAccount(passages: nat, before: string, parts: seq<Part>)
    requires Sound(passages, before, parts)
    ensures Account(passages, before, FlatMap(Own, parts), Relabelled(parts),
                    FlatMap(RelabelOne, FlatMap(PieceBy, parts)), FlatMap(TableBy, parts))
    decreases |parts|
  {
    if parts != [] {
      var p, rest := parts[0], parts[1..];
      var q := p.(source := Relabel(p.source));
      RelabelAccount(passages, before + p.own, rest);
      if p.source.Emitted? {
        SolidStrip(p.source.text);
      }
      OnePart(passages, before, q);
      FlatMapAppend(RelabelOne, PieceBy(p), FlatMap(PieceBy, rest));
      RelabelledPiece(p);
      AccountAppend(passages, before, q.own, [q], PieceBy(q), TableBy(q), FlatMap(Own, rest), Relabelled(rest),
                    FlatMap(RelabelOne, FlatMap(PieceBy, rest)), FlatMap(TableBy, rest));
    }
  }

  lemma RelabelledPiece(p: Part)
    ensures FlatMap(RelabelOne, PieceBy(p)) == PieceBy(p.(source := Relabel(p.source)))
    ensures TableBy(p) == TableBy(p.(source := Relabel(p.source)))
  {
    FlatMapOne(RelabelOne, p.source);
  }

  lemma RelabelledChunks(chunks: seq<string>)
    ensures FlatMap(RelabelOne, Chunked(chunks)) == Labelled(chunks)
  {
    forall c: string ensures FlatMap(RelabelOne, Whole(c)) == LabelOne(c) {
      FlatMapOne(RelabelOne, Emitted(c));
    }
    FlatMapFuse(Whole, RelabelOne, LabelOne, chunks);
  }

  // ---------- a part whose piece is split again ----------

  /** What of the text is not within its first `n` characters. */
  function Later(text: string, n: nat): string
  {
    if |text| <= n then "" else text[n..]
  }

  /** How many of these next characters are within the first `n`. */
  function Early(text: string, own: string, n: nat): (k: nat)
    ensures k <= |own|
  {
    if n <= |text| then 0 else if n - |text| < |own| then n - |text| else |own|
  }

  lemma LaterNext(text: string, own: string, n: nat)
    ensures Later(text + own, n) == Later(text, n) + own[Early(text, own, n)..]
  {
    if n <= |text| {
      assert own[0..] == own;
      assert (text + own)[n..] == text[n..] + own;
    } else if n < |text + own| {
      assert (text + own)[n..] == own[n - |text|..];
    } else {
      assert own[|own|..] == "";
    }
  }

  predicate Agree(a: string, b: string) { a <= b || b <= a }

  lemma TogetherAppend(a: seq<string>, b: seq<string>)
    ensures Together(a + b) == Together(a) + Together(b)
    decreases |a|
  {
    if a == [] {
      assert a + b == b;
    } else {
      assert (a + b)[1..] == a[1..] + b;
      TogetherAppend(a[1..], b);
      Assoc(a[0], Together(a[1..]), Together(b));
    }
  }

  lemma TogetherOne(a: string)
    ensures Together([a]) == a
  {
    assert [a][1..] == [];
  }

  ghost predicate AllInside(pieces: seq<string>, text: string)
  {
    forall k :: 0 <= k < |pieces| ==> Inside(pieces[k], text)
  }

  /** The beginning of `first` is in what was before, the rest is later content. */
  lemma EarlyInside(before: string, shown: string, piece: string, later: string)
    requires Inside(piece, shown) && Inside(shown, before)
    ensures Inside(piece, before + later)
  {
    InsideTrans(piece, shown, before);
    InsideLater(piece, before, later);
  }

  /** A passage of the piece's content, `text` so far, is one passage of what was shown before
      or of the later content, or one of each. */
  lemma SplitPassage(before: string, shown: string, text: string, passage: string) returns (pieces: seq<string>)
    requires Inside(passage, text) && Inside(shown, before) && Agree(text, shown)
    ensures Together(pieces) == passage && AllInside(pieces, before + Later(text, |shown|))
    ensures |pieces| <= 2 && (|text| <= |shown| ==> |pieces| <= 1)
  {
    var n, later := |shown|, Later(text, |shown|);
    var i :| InsideAt(passage, text, i);
    var j := i + |passage|;
    if j <= n {
      SamePrefix(text, shown, i, j);
      InsideSlice(shown, i, j);
      EarlyInside(before, shown, passage, later);
      pieces := [passage];
      TogetherOne(passage);
    } else if n <= i {
      DroppedSlice(text, n, i, j);
      InsideSlice(later, i - n, j - n);
      InsideAfter(passage, before, later);
      pieces := [passage];
      TogetherOne(passage);
    } else {
      var a, b := shown[i..n], later[..j - n];
      InsideSlice(shown, i, n);
      EarlyInside(before, shown, a, later);
      InsideSlice(later, 0, j - n);
      assert later[0..j - n] == b;
      InsideAfter(b, before, later);
      pieces := [a] + [b];
      TogetherOne(a);
      TogetherOne(b);
      TogetherAppend([a], [b]);
      CutAt(text, i, n, j);
      assert shown == text[..n];
    }
  }

  lemma DroppedSlice(text: string, n: int, i: int, j: int)
    requires 0 <= n <= i <= j <= |text|
    ensures text[n..][i - n..j - n] == text[i..j]
  {
  }

  lemma SamePrefix(a: string, b: string, i: int, j: int)
    requires Agree(a, b) && 0 <= i <= j <= |a| && j <= |b|
    ensures a[i..j] == b[i..j]
  {
    assert a[..j] == b[..j];
    assert a[..j][i..j] == a[i..j] && b[..j][i..j] == b[i..j];
  }

  lemma CutAt(text: string, i: int, n: int, j: int)
    requires 0 <= i <= n <= j <= |text|
    ensures text[i..j] == text[..n][i..n] + text[n..][..j - n]
  {
  }

  /** What the part repeats, of that and of the content shown before. */
  lemma RepeatedLater(before: string, shown: string, text: string, p: Part) returns (pieces: seq<string>)
    requires Inside(shown, before) && PartSound(1, text, p) && Agree(text, shown)
    ensures Together(pieces) == Together(p.repeated) && AllInside(pieces, before + Later(text, |shown|))
    ensures |pieces| <= 2 && (|text| <= |shown| ==> |pieces| <= 1)
  {
    pieces := [];
    if p.repeated != [] {
      assert p.repeated == [p.repeated[0]];
      TogetherOne(p.repeated[0]);
      pieces := SplitPassage(before, shown, text, p.repeated[0]);
    }
  }

  /** The first `k` own characters of the part become a passage it repeats. */
  lemma PartMoved(all: string, p: Part, pieces: seq<string>, k: nat)
    requires k <= |p.own| && |pieces| <= 1 && AllInside(pieces, all) && Inside(p.own[..k], all)
    requires SourceContent(p.source) == Together(pieces) + p.own
    ensures PartSound(2, all, Part(p.own[k..], pieces + [p.own[..k]], p.source))
  {
    assert p.own == p.own[..k] + p.own[k..];
    TogetherOne(p.own[..k]);
    TogetherAppend(pieces, [p.own[..k]]);
    Assoc(Together(pieces), p.own[..k], p.own[k..]);
  }

  /** The part without what belongs to the content shown before. */
  lemma LaterPart(before: string, shown: string, text: string, p: Part) returns (q: Part)
    requires Inside(shown, before) && PartSound(1, text, p) && Agree(text + p.own, shown)
    ensures PartSound(2, before + Later(text, |shown|), q)
    ensures q.own == p.own[Early(text, p.own, |shown|)..] && q.source == p.source
  {
    var k := Early(text, p.own, |shown|);
    AgreePrefix(text, p.own, shown);
    var pieces := RepeatedLater(before, shown, text, p);
    if k == 0 {
      q := Part(p.own[0..], pieces, p.source);
      assert p.own[0..] == p.own;
    } else {
      assert p.own[..k] == shown[|text|..|text| + k];
      InsideSlice(shown, |text|, |text| + k);
      EarlyInside(before, shown, p.own[..k], Later(text, |shown|));
      PartMoved(before + Later(text, |shown|), p, pieces, k);
      q := Part(p.own[k..], pieces + [p.own[..k]], p.source);
    }
  }

  /** All the parts of the piece's content from `text` on. */
  lemma {:induction false} LaterParts(before: string, shown: string, text: string, parts: seq<Part>) returns (later: seq<Part>)
    requires Inside(shown, before) && Sound(1, text, parts) && Agree(text + FlatMap(Own, parts), shown)
    ensures var all := Later(text + FlatMap(Own, parts), |shown|);
      && Later(text, |shown|) <= all
      && Account(2, before + Later(text, |shown|), all[|Later(text, |shown|)|..], later,
                 FlatMap(PieceBy, parts), FlatMap(TableBy, parts))
    decreases |parts|
  {
    var here := Later(text, |shown|);
    if parts == [] {
      assert text + FlatMap(Own, parts) == text;
      later := [];
      NoParts(2, before + here);
    } else {
      var p, rest := parts[0], parts[1..];
      Assoc(text, p.own, FlatMap(Own, rest));
      AgreePrefix(text + p.own, FlatMap(Own, rest), shown);
      var q := LaterPart(before, shown, text, p);
      var more := LaterParts(before, shown, text + p.own, rest);
      LaterNext(text, p.own, |shown|);
      OnePart(2, before + here, q);
      Assoc(before, here, q.own);
      var all := Later(text + FlatMap(Own, parts), |shown|);
      AccountAppend(2, before + here, q.own, [q], PieceBy(p), TableBy(p),
                    all[|here + q.own|..], more, FlatMap(PieceBy, rest), FlatMap(TableBy, rest));
      later := [q] + more;
      DropTwo(here, q.own, all);
    }
  }

  lemma AgreePrefix(a: string, b: string, c: string)
    requires Agree(a + b, c)
    ensures Agree(a, c)
  {
    assert (a + b)[..|a|] == a;
    if |a| <= |c| && a + b <= c {
      assert c[..|a|] == (a + b)[..|a|];
    } else if |a| <= |c| {
      assert c[..|a|] == (a + b)[..|a|];
    } else {
      assert a[..|c|] == (a + b)[..|c|];
    }
  }

  lemma DropTwo(a: string, b: string, all: string)
    requires a + b <= all
    ensures a <= all && all[|a|..] == b + all[|a + b|..]
  {
    assert all == a + b + all[|a + b|..];
    assert a + b + all[|a + b|..] == a + (b + all[|a + b|..]);
  }

  // ---------- the pieces of a page ----------

  /** What becomes of a piece of a page: it is thrown away, kept, or split again into pieces
      that are thrown away or kept. */
  function PieceSources(cfg: Config, piece: string): seq<Source>
  {
    if TooSmall(piece) || !TooLong(cfg, Strip(piece)) then [Label(piece)]
    else Labelled(SecondPieces(cfg, Strip(piece)))
  }

  /** Tables that are lost when the piece is split again. */
  function SecondLost(cfg: Config, piece: string): seq<seq<string>>
  {
    if TooSmall(piece) || !TooLong(cfg, Strip(piece)) then []
    else if |SC.StructureChunks(cfg.rules, Strip(piece), cfg.max)| <= 1 then []
    else LostTables(cfg.rules, Strip(piece), cfg.max)
  }

  lemma SecondAccount(cfg: Config, piece: string) returns (parts: seq<Part>)
    requires !TooSmall(piece) && TooLong(cfg, Strip(piece))
    ensures Account(1, "", Solid(Strip(piece)), parts, PieceSources(cfg, piece), SecondLost(cfg, piece))
  {
    var text := Strip(piece);
    if |SC.StructureChunks(cfg.rules, text, cfg.max)| <= 1 {
      parts := SimpleChunksAccount(cfg.rules, text, cfg.max, cfg.overlap);
    } else {
      parts := StructureChunksAccount(cfg.rules, text, cfg.max);
    }
    RelabelAccount(1, "", parts);
    RelabelledChunks(SecondPieces(cfg, text));
    parts := Relabelled(parts);
  }

  lemma PieceSplitAgain(cfg: Config, before: string, p: Part) returns (parts: seq<Part>)
    requires PartSound(1, before, p) && p.source.Emitted?
    requires !TooSmall(p.source.text) && TooLong(cfg, Strip(p.source.text))
    ensures Account(2, before, p.own, parts, PieceSources(cfg, p.source.text), SecondLost(cfg, p.source.text))
  {
    SolidStrip(p.source.text);
    ShownBefore(before, p);
    var second := SecondAccount(cfg, p.source.text);
    parts := WithoutShown(before, Together(p.repeated), p.own, second, PieceSources(cfg, p.source.text),
                          SecondLost(cfg, p.source.text));
  }

  lemma ShownBefore(before: string, p: Part)
    requires PartSound(1, before, p)
    ensures Inside(Together(p.repeated), before)
  {
    if p.repeated == [] {
      NothingInside(before);
    } else {
      assert p.repeated == [p.repeated[0]];
      TogetherOne(p.repeated[0]);
    }
  }

  lemma WithoutShown(before: string, shown: string, own: string, parts: seq<Part>, pieces: seq<Source>,
                     tables: seq<seq<string>>)
    returns (later: seq<Part>)
    requires Inside(shown, before) && Account(1, "", shown + own, parts, pieces, tables)
    ensures Account(2, before, own, later, pieces, tables)
  {
    assert "" + FlatMap(Own, parts) == shown + own;
    later := LaterParts(before, shown, "", parts);
    assert before + "" == before;
    assert Later(shown + own, |shown|) == own && own[0..] == own;
  }

  lemma PieceKept(cfg: Config, before: string, p: Part) returns (parts: seq<Part>)
    requires PartSound(1, before, p) && p.source.Emitted?
    requires TooSmall(p.source.text) || !TooLong(cfg, Strip(p.source.text))
    ensures Account(2, before, p.own, parts, PieceSources(cfg, p.source.text), SecondLost(cfg, p.source.text))
  {
    var q := p.(source := Label(p.source.text));
    SolidStrip(p.source.text);
    OnePart(2, before, q);
    parts := [q];
  }

  function SourceFinal(cfg: Config, source: Source): seq<Source>
  {
    if source.Emitted? then PieceSources(cfg, source.text) else [source]
  }

  function SourceLost(cfg: Config, source: Source): seq<seq<string>>
  {
    if source.Emitted? then SecondLost(cfg, source.text) else if source.HeaderOnly? then [source.rows] else []
  }

  function PartFinal(cfg: Config, p: Part): seq<Source>
  {
    if p.source.HeaderOnly? then [] else SourceFinal(cfg, p.source)
  }

  lemma PartAccount(cfg: Config, before: string, p: Part) returns (parts: seq<Part>)
    requires PartSound(1, before, p) && !p.source.Scrap?
    ensures Account(2, before, p.own, parts, PartFinal(cfg, p), SourceLost(cfg, p.source))
  {
    if p.source.HeaderOnly? {
      OnePart(2, before, p);
      parts := [p];
    } else if TooSmall(p.source.text) || !TooLong(cfg, Strip(p.source.text)) {
      parts := PieceKept(cfg, before, p);
    } else {
      parts := PieceSplitAgain(cfg, before, p);
    }
  }

  lemma {:induction false} PartsAccount(cfg: Config, before: string, parts: seq<Part>) returns (final: seq<Part>)
    requires Sound(1, before, parts) && forall k :: 0 <= k < |parts| ==> !parts[k].source.Scrap?
    ensures Account(2, before, FlatMap(Own, parts), final, FlatMap((p: Part) => PartFinal(cfg, p), parts),
                    FlatMap((p: Part) => SourceLost(cfg, p.source), parts))
    decreases |parts|
  {
    if parts == [] {
      final := [];
      NoParts(2, before);
    } else {
      var p, rest := parts[0], parts[1..];
      var first := PartAccount(cfg, before, p);
      var more := PartsAccount(cfg, before + p.own, rest);
      AccountAppend(2, before, p.own, first, PartFinal(cfg, p), SourceLost(cfg, p.source), FlatMap(Own, rest), more,
                    FlatMap((q: Part) => PartFinal(cfg, q), rest), FlatMap((q: Part) => SourceLost(cfg, q.source), rest));
      final := first + more;
    }
  }

  // ---------- the sources are the pieces ----------

  lemma {:induction false} SourceAmong(parts: seq<Part>, chunks: seq<string>, k: int)
    requires 0 <= k < |parts| && FlatMap(PieceBy, parts) == Chunked(chunks) && !parts[k].source.HeaderOnly?
    ensures parts[k].source.Emitted? && parts[k].source.text in chunks
  {
    FlatMapAt(PieceBy, parts, k);
    assert parts[k].source in FlatMap(PieceBy, parts);
    InChunked(chunks, parts[k].source);
  }

  lemma {:induction false} InChunked(chunks: seq<string>, source: Source)
    requires source in Chunked(chunks)
    ensures source.Emitted? && source.text in chunks
    decreases |chunks|
  {
    if chunks != [] && source != Emitted(chunks[0]) {
      InChunked(chunks[1..], source);
    }
  }

  lemma FinalPieces(cfg: Config, parts: seq<Part>, chunks: seq<string>)
    requires FlatMap(PieceBy, parts) == Chunked(chunks)
    ensures FlatMap((p: Part) => PartFinal(cfg, p), parts) == FlatMap((c: string) => PieceSources(cfg, c), chunks)
  {
    var final := (s: Source) => SourceFinal(cfg, s);
    forall k | 0 <= k < |parts| ensures FlatMap(final, PieceBy(parts[k])) == PartFinal(cfg, parts[k]) {
      FlatMapOne(final, parts[k].source);
    }
    FlatMapFuse(PieceBy, final, (p: Part) => PartFinal(cfg, p), parts);
    forall k | 0 <= k < |chunks| ensures FlatMap(final, Whole(chunks[k])) == PieceSources(cfg, chunks[k]) {
      FlatMapOne(final, Emitted(chunks[k]));
    }
    FlatMapFuse(Whole, final, (c: string) => PieceSources(cfg, c), chunks);
  }

  /** When the first split loses no table, what is lost is lost by the second. */
  lemma LostBySecond(cfg: Config, parts: seq<Part>, chunks: seq<string>)
    requires FlatMap(PieceBy, parts) == Chunked(chunks) && FlatMap(TableBy, parts) == []
    ensures FlatMap((p: Part) => SourceLost(cfg, p.source), parts) == FlatMap((c: string) => SecondLost(cfg, c), chunks)
  {
    var lost := (s: Source) => SourceLost(cfg, s);
    forall k | 0 <= k < |parts| ensures FlatMap(lost, PieceBy(parts[k])) == SourceLost(cfg, parts[k].source) {
      FlatMapAt(TableBy, parts, k);
      FlatMapOne(lost, parts[k].source);
    }
    FlatMapFuse(PieceBy, lost, (p: Part) => SourceLost(cfg, p.source), parts);
    forall k | 0 <= k < |chunks| ensures FlatMap(lost, Whole(chunks[k])) == SecondLost(cfg, chunks[k]) {
      FlatMapOne(lost, Emitted(chunks[k]));
    }
    FlatMapFuse(Whole, lost, (c: string) => SecondLost(cfg, c), chunks);
  }

  /** When the second split loses no table, what is lost is lost by the first. */
  lemma LostByFirst(cfg: Config, parts: seq<Part>, chunks: seq<string>)
    requires FlatMap(PieceBy, parts) == Chunked(chunks) && forall c :: c in chunks ==> SecondLost(cfg, c) == []
    ensures FlatMap((p: Part) => SourceLost(cfg, p.source), parts) == FlatMap(TableBy, parts)
  {
    forall k | 0 <= k < |parts| ensures SourceLost(cfg, parts[k].source) == TableBy(parts[k]) {
      if !parts[k].source.HeaderOnly? {
        SourceAmong(parts, chunks, k);
      }
    }
    FlatMapPaired((p: Part) => SourceLost(cfg, p.source), TableBy, parts, parts);
  }

  /** A line that is split is no table. */
  lemma LineLosesNothing(rules: SC.Rules, text: string, max: Size)
    requires '\n' !in text && 1 < |SC.StructureChunks(rules, text, max)|
    ensures LostTables(rules, text, max) == []
  {
    SplitLine(text);
    var out := SC.Outcome(rules, text, max);
    Reread.FewChunks(out.done);
    if SC.InTable(rules, text) {
      Reread.TableAlone(rules, [text], max);
      SP.NoBlocksIff(rules, [text], max);
    } else {
      var st := SC.Add(rules, SC.EMPTY, SC.Plain(text), max);
      assert SC.Walk(rules, [text], 1, st, max) == SC.Flush(st);
      assert out.read == [] + [SC.Plain(text)] == [SC.Plain(text)];
      FlatMapOne((seg: SC.Segment) => LostRun(rules, max, seg), SC.Plain(text));
    }
  }

  /** A chunk by structure loses nothing when it is split again. */
  lemma ChunkLosesNothing(cfg: Config, text: string, j: int)
    requires var first := SC.StructureChunks(cfg.rules, text, cfg.max);
      1 < |first| && 0 <= j < |first|
    ensures SecondLost(cfg, SC.StructureChunks(cfg.rules, text, cfg.max)[j]) == []
  {
    var chunk := SC.StructureChunks(cfg.rules, text, cfg.max)[j];
    FirstChunkTrim(cfg, text, j, chunk);
    if TooLong(cfg, chunk) && 1 < |SC.StructureChunks(cfg.rules, chunk, cfg.max)| {
      var g := Sizes.ChunkLengthBound(cfg.rules, text, cfg.max, j);
      SP.FallbackIff(cfg.rules, text, cfg.max);
      Reread.GroupStays(cfg.rules, g, cfg.max, |text| + 1);
      LineLosesNothing(cfg.rules, chunk, cfg.max);
    }
  }

  // ---------- a page ----------

  lemma {:induction false} TextsOfSpans(texts: seq<string>, id: nat, num: int)
    ensures TextsOf(Spans(texts, id, num)) == texts
    decreases |texts|
  {
    if texts != [] {
      TextsOfSpans(texts[1..], id, num);
      var spans := Spans(texts, id, num);
      assert spans[1..] == Spans(texts[1..], id, num);
    }
  }

  lemma {:induction false} ResplitTexts(cfg: Config, texts: seq<string>, id: nat, num: int)
    ensures TextsOf(Resplit(cfg, Spans(texts, id, num))) == FlatMap((t: string) => SplitAgain(cfg, t), texts)
    decreases |texts|
  {
    if texts != [] {
      ResplitTexts(cfg, texts[1..], id, num);
      var spans := Spans(texts, id, num);
      assert spans[1..] == Spans(texts[1..], id, num);
      TextsAppend(Spans(SplitAgain(cfg, texts[0]), id, num), Resplit(cfg, spans[1..]));
      TextsOfSpans(SplitAgain(cfg, texts[0]), id, num);
    }
  }

  function EmittedBy(source: Source): seq<string>
  {
    if source.Emitted? then [source.text] else []
  }

  lemma LabelledTexts(pieces: seq<string>)
    ensures FlatMap(EmittedBy, Labelled(pieces)) == Kept(pieces)
  {
    forall p: string ensures FlatMap(EmittedBy, LabelOne(p)) == Keep(p) {
      FlatMapOne(EmittedBy, Label(p));
    }
    FlatMapFuse(LabelOne, EmittedBy, Keep, pieces);
  }

  lemma PieceTexts(cfg: Config, piece: string)
    ensures FlatMap(EmittedBy, PieceSources(cfg, piece)) == Ended(cfg, piece)
  {
    FlatMapOne(EmittedBy, Label(piece));
    if !TooSmall(piece) {
      FlatMapOne((t: string) => SplitAgain(cfg, t), Strip(piece));
      LabelledTexts(SecondPieces(cfg, Strip(piece)));
    }
  }

  /** The pieces a page over the limit is split into, in order: those that are split again are
      replaced by their own pieces, and those that are too small are marked as scraps. */
  function PageSources(cfg: Config, text: string): seq<Source>
  {
    FlatMap((p: string) => PieceSources(cfg, p), SC.SimpleChunks(cfg.rules, text, cfg.max, cfg.overlap))
  }

  /** The tables such a page loses: by the first split when that is by structure, and
      otherwise by splitting the pieces again. */
  function PageLost(cfg: Config, text: string): seq<seq<string>>
  {
    if Contents.ByStructure(cfg.rules, text, cfg.max) then LostTables(cfg.rules, text, cfg.max)
    else FlatMap((p: string) => SecondLost(cfg, p), SC.SimpleChunks(cfg.rules, text, cfg.max, cfg.overlap))
  }

  /** The texts a piece of a page ends as. */
  function Ended(cfg: Config, piece: string): seq<string>
  {
    FlatMap((t: string) => SplitAgain(cfg, t), Keep(piece))
  }

  lemma SourceTexts(cfg: Config, pieces: seq<string>)
    ensures FlatMap(EmittedBy, FlatMap((p: string) => PieceSources(cfg, p), pieces))
         == FlatMap((p: string) => Ended(cfg, p), pieces)
  {
    forall k | 0 <= k < |pieces| ensures FlatMap(EmittedBy, PieceSources(cfg, pieces[k])) == Ended(cfg, pieces[k]) {
      PieceTexts(cfg, pieces[k]);
    }
    FlatMapFuse((p: string) => PieceSources(cfg, p), EmittedBy, (p: string) => Ended(cfg, p), pieces);
  }

  lemma SpanTexts(cfg: Config, pieces: seq<string>, id: nat, num: int)
    ensures TextsOf(Resplit(cfg, Spans(Kept(pieces), id, num))) == FlatMap((p: string) => Ended(cfg, p), pieces)
  {
    ResplitTexts(cfg, Kept(pieces), id, num);
    FlatMapFuse(Keep, (t: string) => SplitAgain(cfg, t), (p: string) => Ended(cfg, p), pieces);
  }

  /** The sources that are no scraps are the texts of the page's spans. */
  lemma PageTexts(cfg: Config, text: string, id: nat, num: int)
    ensures FlatMap(EmittedBy, PageSources(cfg, text)) ==
      TextsOf(Resplit(cfg, Spans(Kept(SC.SimpleChunks(cfg.rules, text, cfg.max, cfg.overlap)), id, num)))
  {
    var pieces := SC.SimpleChunks(cfg.rules, text, cfg.max, cfg.overlap);
    SourceTexts(cfg, pieces);
    SpanTexts(cfg, pieces, id, num);
  }

  lemma PageLostTables(cfg: Config, text: string, parts: seq<Part>)
    requires cfg.max < |text|
    requires var chunks := SC.SimpleChunks(cfg.rules, text, cfg.max, cfg.overlap);
      FlatMap(PieceBy, parts) == Chunked(chunks)
    requires FlatMap(TableBy, parts) ==
      if Contents.ByStructure(cfg.rules, text, cfg.max) then LostTables(cfg.rules, text, cfg.max) else []
    ensures FlatMap((p: Part) => SourceLost(cfg, p.source), parts) == PageLost(cfg, text)
  {
    var chunks := SC.SimpleChunks(cfg.rules, text, cfg.max, cfg.overlap);
    if Contents.ByStructure(cfg.rules, text, cfg.max) {
      forall c | c in chunks ensures SecondLost(cfg, c) == [] {
        var j :| 0 <= j < |chunks| && chunks[j] == c;
        ChunkLosesNothing(cfg, text, j);
      }
      LostByFirst(cfg, parts, chunks);
    } else {
      LostBySecond(cfg, parts, chunks);
    }
  }

  /** The account of a page over the limit. Its content is, in order, the own parts of exactly
      the pieces it is split into and of exactly these tables: the pieces that are too small
      and the tables are lost, everything else is shown, and what a piece shows before its own
      part is at most two passages of earlier parts. */
  lemma OverlongPageAccount(cfg: Config, page: Page) returns (parts: seq<Part>)
    requires cfg.max < |Strip(page.rawText)|
    ensures var text := Strip(page.rawText);
      Account(2, "", Solid(page.rawText), parts, PageSources(cfg, text), PageLost(cfg, text))
    ensures var text := Strip(page.rawText);
      var spans := Resplit(cfg, Spans(Kept(SC.SimpleChunks(cfg.rules, text, cfg.max, cfg.overlap)), page.id, page.num));
      FlatMap(EmittedBy, PageSources(cfg, text)) == TextsOf(spans) && PageShown(cfg, page) == SolidSpans(spans)
  {
    var text := Strip(page.rawText);
    var chunks := SC.SimpleChunks(cfg.rules, text, cfg.max, cfg.overlap);
    SolidStrip(page.rawText);
    var first := SimpleChunksAccount(cfg.rules, text, cfg.max, cfg.overlap);
    forall k | 0 <= k < |first| ensures !first[k].source.Scrap? {
      if !first[k].source.HeaderOnly? {
        SourceAmong(first, chunks, k);
      }
    }
    parts := PartsAccount(cfg, "", first);
    FinalPieces(cfg, first, chunks);
    PageLostTables(cfg, text, first);
    PageTexts(cfg, text, page.id, page.num);
  }
}
