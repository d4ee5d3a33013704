/** Accounts of where the content of a text went. */
module Accounts {
  import opened Text

  /** Where content ends up: in a chunk that is emitted, or, lost, in an over-large table that
      has header rows only, or in a piece too short to be kept. */
  datatype Source = Emitted(text: string) | HeaderOnly(rows: seq<string>) | Scrap(text: string)

  /** A part of the content of a text: the end of what its source shows. What the source
      shows before it is repeated. */
  datatype Part = Part(own: string, repeated: seq<string>, source: Source)

  function SourceContent(source: Source): string
  {
    match source
    case Emitted(text) => Solid(text)
    case HeaderOnly(rows) => SolidAll(rows)
    case Scrap(text) => Solid(text)
  }

  function Together(pieces: seq<string>): string
  {
    if pieces == [] then "" else pieces[0] + Together(pieces[1..])
  }

  predicate InsideAt(piece: string, text: string, i: int)
  {
    0 <= i && i + |piece| <= |text| && text[i..i + |piece|] == piece
  }

  ghost predicate Inside(piece: string, text: string)
  {
    exists i :: InsideAt(piece, text, i)
  }

  /** What is repeated is a limited number of passages, each of which earlier parts, which hold
      `before`, have as their own. */
  ghost predicate PartSound(passages: nat, before: string, p: Part)
  {
    && SourceContent(p.source) == Together(p.repeated) + p.own
    && |p.repeated| <= passages && forall k :: 0 <= k < |p.repeated| ==> Inside(p.repeated[k], before)
  }

  ghost predicate Sound(passages: nat, before: string, parts: seq<Part>)
    decreases |parts|
  {
    parts != [] ==> PartSound(passages, before, parts[0]) && Sound(passages, before + parts[0].own, parts[1..])
  }

  function Own(p: Part): string { p.own }

  function PieceBy(p: Part): seq<Source>
  {
    if p.source.HeaderOnly? then [] else [p.source]
  }

  function TableBy(p: Part): seq<seq<string>>
  {
    if p.source.HeaderOnly? then [p.source.rows] else []
  }

  /** The parts are, in order, all of the content; and their sources are, in order, exactly
      these pieces and these lost tables, each once. */
  ghost predicate Account(passages: nat, before: string, content: string, parts: seq<Part>,
                          pieces: seq<Source>, tables: seq<seq<string>>)
  {
    && Sound(passages, before, parts)
    && FlatMap(Own, parts) == content
    && FlatMap(PieceBy, parts) == pieces
    && FlatMap(TableBy, parts) == tables
  }

  function Whole(text: string): seq<Source> { [Emitted(text)] }

  /** Chunks that are emitted as they are. */
  function Chunked(chunks: seq<string>): seq<Source>
  {
    FlatMap(Whole, chunks)
  }

  lemma NoParts(passages: nat, before: string)
    ensures Account(passages, before, "", [], [], [])
  {
  }

  lemma OnePart(passages: nat, before: string, p: Part)
    requires PartSound(passages, before, p)
    ensures Account(passages, before, p.own, [p], PieceBy(p), TableBy(p))
  {
    assert [p][1..] == [];
    FlatMapOne(Own, p);
    FlatMapOne(PieceBy, p);
    FlatMapOne(TableBy, p);
  }

  lemma {:induction false} SoundAppend(passages: nat, before: string, ps: seq<Part>, after: string, qs: seq<Part>)
    requires Sound(passages, before, ps) && after == before + FlatMap(Own, ps) && Sound(passages, after, qs)
    ensures Sound(passages, before, ps + qs)
    decreases |ps|
  {
    if ps == [] {
      assert ps + qs == qs && after == before;
    } else {
      Assoc(before, ps[0].own, FlatMap(Own, ps[1..]));
      SoundAppend(passages, before + ps[0].own, ps[1..], after, qs);
      ConsAppend(ps, qs);
    }
  }

  lemma ConsAppend<T>(a: seq<T>, b: seq<T>)
    requires a != []
    ensures (a + b)[0] == a[0] && (a + b)[1..] == a[1..] + b
  {
  }

  lemma AccountAppend(passages: nat, before: string,
                      c: string, ps: seq<Part>, pieces: seq<Source>, tables: seq<seq<string>>,
                      d: string, qs: seq<Part>, more: seq<Source>, others: seq<seq<string>>)
    requires Account(passages, before, c, ps, pieces, tables)
    requires Account(passages, before + c, d, qs, more, others)
    ensures Account(passages, before, c + d, ps + qs, pieces + more, tables + others)
  {
    SoundAppend(passages, before, ps, before + c, qs);
    FlatMapAppend(Own, ps, qs);
    FlatMapAppend(PieceBy, ps, qs);
    FlatMapAppend(TableBy, ps, qs);
  }

  /** A chunk all of which is its own part. */
  lemma AllOwn(passages: nat, before: string, text: string) returns (p: Part)
    ensures p == Part(Solid(text), [], Emitted(text))
    ensures Account(passages, before, Solid(text), [p], Chunked([text]), [])
  {
    p := Part(Solid(text), [], Emitted(text));
    assert Together([]) + p.own == p.own;
    OnePart(passages, before, p);
    FlatMapOne(Whole, text);
  }

  /** A chunk that shows one passage of what came before, and then its own part. */
  lemma AfterPassage(passages: nat, before: string, own: string, repeated: string, text: string) returns (p: Part)
    requires 0 < passages && Solid(text) == repeated + own && Inside(repeated, before)
    ensures p == Part(own, [repeated], Emitted(text))
    ensures Account(passages, before, own, [p], Chunked([text]), [])
  {
    p := Part(own, [repeated], Emitted(text));
    assert [repeated][1..] == [];
    assert Together([repeated]) == repeated + Together([]) == repeated;
    OnePart(passages, before, p);
    FlatMapOne(Whole, text);
  }

  // ---------- passages ----------

  lemma InsideLater(piece: string, a: string, b: string)
    requires Inside(piece, a)
    ensures Inside(piece, a + b)
  {
    var i :| InsideAt(piece, a, i);
    assert (a + b)[i..i + |piece|] == a[i..i + |piece|];
    assert InsideAt(piece, a + b, i);
  }

  lemma InsideAfter(piece: string, a: string, b: string)
    requires Inside(piece, b)
    ensures Inside(piece, a + b)
  {
    var i :| InsideAt(piece, b, i);
    assert (a + b)[|a| + i..|a| + i + |piece|] == b[i..i + |piece|];
    assert InsideAt(piece, a + b, |a| + i);
  }

  lemma InsideTrans(piece: string, middle: string, text: string)
    requires Inside(piece, middle) && Inside(middle, text)
    ensures Inside(piece, text)
  {
    var i :| InsideAt(piece, middle, i);
    var j :| InsideAt(middle, text, j);
    forall k | 0 <= k < |piece| ensures text[j + i + k] == piece[k] {
      assert text[j..j + |middle|][i + k] == middle[i + k] && middle[i..i + |piece|][k] == piece[k];
    }
    assert text[j + i..j + i + |piece|] == piece;
    assert InsideAt(piece, text, j + i);
  }

  lemma InsideSlice(text: string, i: int, j: int)
    requires 0 <= i <= j <= |text|
    ensures Inside(text[i..j], text)
  {
    assert InsideAt(text[i..j], text, i);
  }

  // ---------- what an account says about the sources ----------

  lemma {:induction false} TogetherInside(pieces: seq<string>, text: string, c: char)
    requires forall k :: 0 <= k < |pieces| ==> Inside(pieces[k], text)
    requires c in Together(pieces)
    ensures c in text
    decreases |pieces|
  {
    if c in pieces[0] {
      var i :| InsideAt(pieces[0], text, i);
      assert c in text[i..i + |pieces[0]|];
    } else {
      TogetherInside(pieces[1..], text, c);
    }
  }

  /** No source shows anything that is not content. */
  lemma {:induction false} NothingInvented(passages: nat, before: string, content: string, parts: seq<Part>,
                                           pieces: seq<Source>, tables: seq<seq<string>>, source: Source, c: char)
    requires Account(passages, before, content, parts, pieces, tables)
    requires source in pieces && c in SourceContent(source)
    ensures c in before + content
    decreases |parts|
  {
    var p, rest := parts[0], parts[1..];
    if source in PieceBy(p) {
      if c in Together(p.repeated) {
        TogetherInside(p.repeated, before, c);
      }
    } else {
      NothingInvented(passages, before + p.own, FlatMap(Own, rest), rest, FlatMap(PieceBy, rest), FlatMap(TableBy, rest),
                      source, c);
    }
  }

  lemma SourceOf(p: Part)
    ensures FlatMap(SourceContent, PieceBy(p)) + FlatMap(SolidAll, TableBy(p)) == SourceContent(p.source)
  {
    if p.source.HeaderOnly? {
      FlatMapOne(SolidAll, p.source.rows);
    } else {
      FlatMapOne(SourceContent, p.source);
    }
  }

  /** The sources together hold at least all of the content. */
  lemma {:induction false} NothingMissing(passages: nat, before: string, content: string, parts: seq<Part>,
                                          pieces: seq<Source>, tables: seq<seq<string>>)
    requires Account(passages, before, content, parts, pieces, tables)
    ensures |content| <= |FlatMap(SourceContent, pieces)| + |FlatMap(SolidAll, tables)|
    decreases |parts|
  {
    if parts != [] {
      var p, rest := parts[0], parts[1..];
      var more, others := FlatMap(PieceBy, rest), FlatMap(TableBy, rest);
      NothingMissing(passages, before + p.own, FlatMap(Own, rest), rest, more, others);
      FlatMapAppend(SourceContent, PieceBy(p), more);
      FlatMapAppend(SolidAll, TableBy(p), others);
      SourceOf(p);
    }
  }
}
