/** Packing retrieved pages into a context of limited length: pages of a document in score
    order, two budgets at once, and a visible marker wherever text is cut. */
module Merger {
  import opened Numbers

  const MARKER := "[TRUNCATED]"

  const MARKER_RESERVE := 12

  /** Text that was cut short carries the marker on a line of its own. */
  function MarkTruncated(text: string): (r: string)
    ensures |r| == |text| + MARKER_RESERVE
  {
    text + "\n" + MARKER
  }

  // ---------- the excerpt of a page ----------

  function JoinLines(parts: seq<string>): string
  {
    if parts == [] then ""
    else if |parts| == 1 then parts[0]
    else JoinLines(parts[..|parts| - 1]) + "\n" + parts[|parts| - 1]
  }

  predicate OccursAt(text: string, piece: string, i: nat)
  {
    i + |piece| <= |text| && text[i..i + |piece|] == piece
  }

  predicate Contains(text: string, piece: string)
  {
    exists i :: 0 <= i <= |text| && OccursAt(text, piece, i)
  }

  const EXCERPT := "...[excerpt]..."
  const RELEVANT := "\n[Relevant paragraphs]"

  const MAX_SENTENCES := 10

  /** The lines an excerpt starts with. `sentences` are the page's sentences that contain a
      query keyword. */
  function Lead(sentences: seq<string>): seq<string>
  {
    if sentences == [] then [EXCERPT]
    else [EXCERPT, RELEVANT] + if |sentences| < MAX_SENTENCES then sentences else sentences[..MAX_SENTENCES]
  }

  /** The room left for the head and the tail of the page. */
  function ExcerptRoom(sentences: seq<string>, maxLen: nat): int
  {
    maxLen - |JoinLines(Lead(sentences))| - 100
  }

  function ExcerptParts(pageText: string, sentences: seq<string>, maxLen: nat): seq<string>
    requires maxLen < |pageText|
  {
    var room := ExcerptRoom(sentences, maxLen);
    if room <= 500 then Lead(sentences)
    else
      var head, tail := pageText[..room / 2], pageText[|pageText| - room / 2..];
      WithEnds(Lead(sentences), head, tail)
  }

  /** The tail is left out when the head repeats it. */
  function WithEnds(lead: seq<string>, head: string, tail: string): seq<string>
  {
    if Contains(head, tail) then lead + ["\n" + head] else lead + ["\n" + head] + ["\n...\n" + tail]
  }

  /** What is shown of a page: keyword sentences first, then the head and the tail of the
      page if room remains. */
  function PageText(pageText: string, sentences: seq<string>, maxLen: nat): string
  {
    if |pageText| <= maxLen then pageText
    else FinalCut(JoinLines(ExcerptParts(pageText, sentences, maxLen)), maxLen)
  }

  method SmartTruncate(pageText: string, sentences: seq<string>, maxLen: nat) returns (r: string)
    ensures r == PageText(pageText, sentences, maxLen)
  {
    if |pageText| <= maxLen {
      return pageText;
    }
    var parts := ExcerptLines(pageText, sentences, maxLen);
    r := JoinLines(parts);
    if |r| > maxLen {
      r := MarkTruncated(r[..maxLen]);
    }
  }

  method ExcerptLines(pageText: string, sentences: seq<string>, maxLen: nat) returns (parts: seq<string>)
    requires maxLen < |pageText|
    ensures parts == ExcerptParts(pageText, sentences, maxLen)
  {
    parts := LeadLines(sentences);
    var remaining := maxLen - |JoinLines(parts)| - 100;
    if remaining > 500 {
      var half := remaining / 2;
      var tail := if |pageText| > half * 2 then pageText[|pageText| - half..] else "";
      parts := AddEnds(parts, pageText[..half], tail);
    }
  }

  method AddEnds(lead: seq<string>, head: string, tail: string) returns (parts: seq<string>)
    ensures tail != "" ==> parts == WithEnds(lead, head, tail)
    ensures tail == "" ==> parts == lead + ["\n" + head]
  {
    parts := lead + ["\n" + head];
    if tail != "" && !Contains(head, tail) {
      parts := parts + ["\n...\n" + tail];
    }
  }

  method LeadLines(sentences: seq<string>) returns (parts: seq<string>)
    ensures parts == Lead(sentences)
  {
    parts := [EXCERPT];
    if sentences != [] {
      parts := parts + [RELEVANT];
      parts := parts + (if |sentences| < MAX_SENTENCES then sentences else sentences[..MAX_SENTENCES]);
    }
  }

  lemma JoinLinesSnoc(parts: seq<string>, last: string)
    requires parts != []
    ensures JoinLines(parts + [last]) == JoinLines(parts) + "\n" + last
  {
    assert (parts + [last])[..|parts|] == parts;
  }

  lemma ContainsAt(text: string, before: string, piece: string, after: string)
    requires text == before + piece + after
    ensures Contains(text, piece)
  {
    assert OccursAt(text, piece, |before|);
  }

  lemma ContainsInside(text: string, before: string, middle: string, after: string, piece: string)
    requires text == before + middle + after && Contains(middle, piece)
    ensures Contains(text, piece)
  {
    var i :| 0 <= i <= |middle| && OccursAt(middle, piece, i);
    assert text[|before| + i..|before| + i + |piece|] == middle[i..i + |piece|];
    assert OccursAt(text, piece, |before| + i);
  }

  lemma {:induction false} LineShown(parts: seq<string>, i: nat)
    requires i < |parts|
    ensures Contains(JoinLines(parts), parts[i])
    decreases |parts|
  {
    var n := |parts| - 1;
    if n == 0 {
      ContainsAt(parts[0], "", parts[0], "");
    } else if i == n {
      ContainsAt(JoinLines(parts), JoinLines(parts[..n]) + "\n", parts[n], "");
    } else {
      LineShown(parts[..n], i);
      ContainsInside(JoinLines(parts), "", JoinLines(parts[..n]), "\n" + parts[n], parts[i]);
    }
  }

  /** The excerpt is over the cap only when its first lines alone are. */
  lemma ExcerptLength(pageText: string, sentences: seq<string>, maxLen: nat)
    requires maxLen < |pageText|
    ensures |JoinLines(ExcerptParts(pageText, sentences, maxLen))| <= maxLen
            <==> |JoinLines(Lead(sentences))| <= maxLen
  {
    var room, lead := ExcerptRoom(sentences, maxLen), Lead(sentences);
    if room > 500 {
      var head, tail := pageText[..room / 2], pageText[|pageText| - room / 2..];
      JoinLinesSnoc(lead, "\n" + head);
      JoinLinesSnoc(lead + ["\n" + head], "\n...\n" + tail);
      var parts := ExcerptParts(pageText, sentences, maxLen);
      assert parts == lead + ["\n" + head] || parts == lead + ["\n" + head] + ["\n...\n" + tail];
    }
  }

  /** A page over its cap is shortened without a marker exactly when its first ten keyword
      sentences fit the cap. */
  lemma UnmarkedExcerptIff(pageText: string, sentences: seq<string>, maxLen: nat)
    requires maxLen < |pageText|
    ensures |PageText(pageText, sentences, maxLen)| <= maxLen <==> |JoinLines(Lead(sentences))| <= maxLen
    ensures maxLen < |JoinLines(Lead(sentences))| ==>
      PageText(pageText, sentences, maxLen) == MarkTruncated(JoinLines(Lead(sentences))[..maxLen])
  {
    ExcerptLength(pageText, sentences, maxLen);
  }

  /** Such an excerpt holds the first ten keyword sentences and, when more than 600
      characters remain, as much of the page's beginning as of its end. */
  lemma ExcerptShows(pageText: string, sentences: seq<string>, maxLen: nat)
    requires maxLen < |pageText| && |JoinLines(Lead(sentences))| <= maxLen
    ensures var r, room := PageText(pageText, sentences, maxLen), ExcerptRoom(sentences, maxLen);
      && (forall i :: 0 <= i < Min(|sentences|, MAX_SENTENCES) ==> Contains(r, sentences[i]))
      && (room > 500 ==> Contains(r, pageText[..room / 2]) && Contains(r, pageText[|pageText| - room / 2..]))
  {
    ExcerptLength(pageText, sentences, maxLen);
    forall i | 0 <= i < Min(|sentences|, MAX_SENTENCES)
      ensures Contains(PageText(pageText, sentences, maxLen), sentences[i])
    {
      SentenceShown(pageText, sentences, maxLen, i);
    }
    if ExcerptRoom(sentences, maxLen) > 500 {
      ExcerptEnds(pageText, sentences, maxLen);
    }
  }

  /** Each sentence on a line of its own. */
  function LinesBelow(sentences: seq<string>, m: nat): string
    requires m <= |sentences|
  {
    if m == 0 then "" else LinesBelow(sentences, m - 1) + "\n" + sentences[m - 1]
  }

  /** What a shortened page shows first: the note, and the first ten keyword sentences. */
  function LeadText(sentences: seq<string>): string
  {
    if sentences == [] then "...[excerpt]..."
    else "...[excerpt]..." + "\n" + "\n[Relevant paragraphs]" + LinesBelow(sentences, Min(|sentences|, 10))
  }

  lemma {:induction false} JoinLinesLead(parts: seq<string>, sentences: seq<string>, m: nat)
    requires m <= |sentences| && parts != []
    ensures JoinLines(parts + sentences[..m]) == JoinLines(parts) + LinesBelow(sentences, m)
    decreases m
  {
    if m == 0 {
      assert parts + sentences[..0] == parts;
    } else {
      JoinLinesLead(parts, sentences, m - 1);
      assert parts + sentences[..m] == (parts + sentences[..m - 1]) + [sentences[m - 1]];
      JoinLinesSnoc(parts + sentences[..m - 1], sentences[m - 1]);
      assert JoinLines(parts) + LinesBelow(sentences, m - 1) + "\n" + sentences[m - 1] ==
        JoinLines(parts) + (LinesBelow(sentences, m - 1) + "\n" + sentences[m - 1]);
    }
  }

  lemma LeadIsText(sentences: seq<string>)
    ensures JoinLines(Lead(sentences)) == LeadText(sentences)
  {
    if sentences != [] {
      var m := Min(|sentences|, MAX_SENTENCES);
      JoinLinesLead([EXCERPT, RELEVANT], sentences, m);
      assert Lead(sentences) == [EXCERPT, RELEVANT] + sentences[..m];
      assert [EXCERPT, RELEVANT][..1] == [EXCERPT];
    }
  }

  /** The excerpt in full: the note, the first ten keyword sentences in order, and, when more
      than 600 characters remain, the beginning of the page and then its end. */
  lemma ExcerptText(pageText: string, sentences: seq<string>, maxLen: nat)
    requires maxLen < |pageText| && |LeadText(sentences)| <= maxLen
    ensures var lead := LeadText(sentences);
      var half := (maxLen - |lead| - 100) / 2;
      PageText(pageText, sentences, maxLen) ==
        if maxLen - |lead| <= 600 then lead
        else if Contains(pageText[..half], pageText[|pageText| - half..]) then lead + "\n\n" + pageText[..half]
        else lead + "\n\n" + pageText[..half] + "\n\n...\n" + pageText[|pageText| - half..]
  {
    LeadIsText(sentences);
    ExcerptLength(pageText, sentences, maxLen);
    var lead, room := Lead(sentences), ExcerptRoom(sentences, maxLen);
    if room > 500 {
      var head, tail := pageText[..room / 2], pageText[|pageText| - room / 2..];
      JoinLinesSnoc(lead, "\n" + head);
      JoinLinesSnoc(lead + ["\n" + head], "\n...\n" + tail);
      Ended(JoinLines(lead), head, tail);
    }
  }

  lemma Ended(lead: string, head: string, tail: string)
    ensures lead + "\n" + ("\n" + head) == lead + "\n\n" + head
    ensures lead + "\n\n" + head + "\n" + ("\n...\n" + tail) == lead + "\n\n" + head + "\n\n...\n" + tail
  {
    assert lead + "\n" + ("\n" + head) == lead + ("\n" + "\n") + head;
    var before := lead + "\n\n" + head;
    assert before + "\n" + ("\n...\n" + tail) == before + ("\n" + "\n...\n") + tail;
  }

  lemma SentenceShown(pageText: string, sentences: seq<string>, maxLen: nat, i: int)
    requires maxLen < |pageText| && 0 <= i < Min(|sentences|, MAX_SENTENCES)
    ensures Contains(JoinLines(ExcerptParts(pageText, sentences, maxLen)), sentences[i])
  {
    var parts := ExcerptParts(pageText, sentences, maxLen);
    assert Lead(sentences)[i + 2] == sentences[i];
    assert parts[i + 2] == sentences[i];
    LineShown(parts, i + 2);
  }

  lemma ExcerptEnds(pageText: string, sentences: seq<string>, maxLen: nat)
    requires maxLen < |pageText| && ExcerptRoom(sentences, maxLen) > 500
    ensures var r, half := JoinLines(ExcerptParts(pageText, sentences, maxLen)), ExcerptRoom(sentences, maxLen) / 2;
      Contains(r, pageText[..half]) && Contains(r, pageText[|pageText| - half..])
  {
    var half, n := ExcerptRoom(sentences, maxLen) / 2, |Lead(sentences)|;
    var head, tail := pageText[..half], pageText[|pageText| - half..];
    var parts := ExcerptParts(pageText, sentences, maxLen);
    var r := JoinLines(parts);
    LineShown(parts, n);
    assert parts[n] == "\n" + head;
    HasPart(r, "\n", head);
    if Contains(head, tail) {
      ContainsTrans(r, head, tail);
    } else {
      LineShown(parts, n + 1);
      assert parts[n + 1] == "\n...\n" + tail;
      HasPart(r, "\n...\n", tail);
    }
  }

  lemma HasPart(text: string, before: string, piece: string)
    requires Contains(text, before + piece)
    ensures Contains(text, piece)
  {
    ContainsAt(before + piece, before, piece, "");
    ContainsTrans(text, before + piece, piece);
  }

  lemma ContainsTrans(text: string, middle: string, piece: string)
    requires Contains(text, middle) && Contains(middle, piece)
    ensures Contains(text, piece)
  {
    var i :| 0 <= i <= |text| && OccursAt(text, middle, i);
    assert text == text[..i] + middle + text[i + |middle|..];
    ContainsInside(text, text[..i], middle, text[i + |middle|..], piece);
  }

  // ---------- packing ----------

  /** A page ready for packing: its heading line and its capped text. */
  datatype Page = Page(heading: string, content: string)

  /** A document: its header and its pages, best score first. */
  datatype Doc = Doc(header: string, pages: seq<Page>)

  /** Outcome of packing one document: the parts written, the characters the loop counted,
      how many pages were written, and whether the last of them was cut. */
  datatype Packed = Packed(parts: seq<string>, counted: nat, included: nat, cut: bool)

  function Total(parts: seq<string>): nat
  {
    if parts == [] then 0 else Total(parts[..|parts| - 1]) + |parts[|parts| - 1]|
  }

  function Concat(parts: seq<string>): string
  {
    if parts == [] then "" else Concat(parts[..|parts| - 1]) + parts[|parts| - 1]
  }

  function Size(p: Page): nat { |p.heading| + |p.content| }

  /** What of a page that does not fit is still shown: its heading and a marked prefix. */
  function PartialRoom(p: Page, used: nat, current: nat, perDoc: nat, limit: nat): int
  {
    Min(perDoc - used - |p.heading| - MARKER_RESERVE, limit - current - |p.heading| - MARKER_RESERVE)
  }

  predicate Fits(p: Page, used: nat, current: nat, perDoc: nat, limit: nat)
  {
    current + Size(p) <= limit && used + Size(p) <= perDoc
  }

  /** A page over the document budget is shown in part when the context has room for it. */
  predicate ShownInPart(p: Page, used: nat, current: nat, perDoc: nat, limit: nat)
  {
    && current + Size(p) <= limit && used < perDoc
    && PartialRoom(p, used, current, perDoc, limit) > 100
  }

  /** `current` is the length counted before this document's pages. */
  function PackPages(pages: seq<Page>, current: nat, perDoc: nat, limit: nat): Packed
  {
    PackFrom(pages, Packed([], 0, 0, false), current, perDoc, limit)
  }

  function PackFrom(pages: seq<Page>, st: Packed, current: nat, perDoc: nat, limit: nat): Packed
    decreases |pages|
  {
    if pages == [] then st
    else
      var p := pages[0];
      if Fits(p, st.counted, current + st.counted, perDoc, limit) then
        PackFrom(pages[1..], Packed(st.parts + [p.heading, p.content], st.counted + Size(p), st.included + 1, false),
                 current, perDoc, limit)
      else if ShownInPart(p, st.counted, current + st.counted, perDoc, limit) then
        var room := PartialRoom(p, st.counted, current + st.counted, perDoc, limit);
        Packed(st.parts + [p.heading, MarkTruncated(p.content[..room])], st.counted, st.included + 1, true)
      else st
  }

  /** State after some documents: parts written, characters counted, and per document the
      outcome of its packing. The partial pages are not counted. */
  datatype Merge = Merge(parts: seq<string>, counted: nat, docs: seq<Packed>)

  function Next(st: Merge, doc: Doc, perDoc: nat, limit: nat): Merge
  {
    var base := st.counted + |doc.header|;
    var packed := PackPages(doc.pages, base, perDoc, limit);
    Merge(st.parts + [doc.header] + packed.parts, base + packed.counted, st.docs + [packed])
  }

  function MergeDocs(docs: seq<Doc>, st: Merge, perDoc: nat, limit: nat): Merge
    decreases |docs|
  {
    if docs == [] || st.counted + |docs[0].header| > limit then st
    else MergeDocs(docs[1..], Next(st, docs[0], perDoc, limit), perDoc, limit)
  }

  function PerDocument(docs: nat, limit: nat, minPerDoc: nat): nat
  {
    if docs > 1 then Max(limit / docs, minPerDoc) else limit
  }

  function MergedParts(docs: seq<Doc>, limit: nat, minPerDoc: nat): Merge
  {
    MergeDocs(docs, Merge([], 0, []), PerDocument(|docs|, limit, minPerDoc), limit)
  }

  function FinalCut(text: string, limit: nat): string
  {
    if |text| > limit then MarkTruncated(text[..limit]) else text
  }

  function MergedText(docs: seq<Doc>, limit: nat, minPerDoc: nat): string
  {
    FinalCut(Concat(MergedParts(docs, limit, minPerDoc).parts), limit)
  }

  // ---------- the program ----------

  lemma {:induction false} ConcatAppend(a: seq<string>, b: seq<string>)
    ensures Concat(a + b) == Concat(a) + Concat(b)
    ensures Total(a + b) == Total(a) + Total(b)
    decreases |b|
  {
    if b == [] {
      assert a + b == a;
    } else {
      var init := b[..|b| - 1];
      ConcatAppend(a, init);
      assert (a + b)[..|a + b| - 1] == a + init;
      assert Concat(a) + (Concat(init) + b[|b| - 1]) == (Concat(a) + Concat(init)) + b[|b| - 1];
    }
  }

  lemma {:induction false} ConcatLength(parts: seq<string>)
    ensures |Concat(parts)| == Total(parts)
    decreases |parts|
  {
    if parts != [] {
      ConcatLength(parts[..|parts| - 1]);
    }
  }

  method PackDocument(pages: seq<Page>, base: nat, perDoc: nat, limit: nat) returns (packed: Packed)
    ensures packed == PackPages(pages, base, perDoc, limit)
  {
    var parts: seq<string> := [];
    var currentChars: nat, docCharsUsed: nat, included: nat := base, 0, 0;
    var cut := false;
    var i := 0;
    while i < |pages|
      invariant 0 <= i <= |pages| && currentChars == base + docCharsUsed && !cut
      invariant PackPages(pages, base, perDoc, limit) ==
        PackFrom(pages[i..], Packed(parts, docCharsUsed, included, false), base, perDoc, limit)
    {
      var p := pages[i];
      var totalLen := |p.heading| + |p.content|;
      if currentChars + totalLen > limit || docCharsUsed + totalLen > perDoc {
        if currentChars + totalLen <= limit && docCharsUsed < perDoc {
          var reserve := |MARKER| + 1;
          var remaining := Min(perDoc - docCharsUsed - |p.heading| - reserve,
                               limit - currentChars - |p.heading| - reserve);
          if remaining > 100 {
            parts := parts + [p.heading, MarkTruncated(p.content[..remaining])];
            included := included + 1;
            cut := true;
          }
        }
        break;
      }
      parts := parts + [p.heading, p.content];
      currentChars := currentChars + totalLen;
      docCharsUsed := docCharsUsed + totalLen;
      included := included + 1;
      assert pages[i..][1..] == pages[i + 1..];
      i := i + 1;
    }
    packed := Packed(parts, docCharsUsed, included, cut);
  }

  method MergeSegments(docs: seq<Doc>, limit: nat, minPerDoc: nat) returns (text: string)
    ensures text == MergedText(docs, limit, minPerDoc)
  {
    if docs == [] {
      return "";
    }
    var perDoc := if |docs| > 1 then Max(limit / |docs|, minPerDoc) else limit;
    var parts: seq<string> := [];
    var currentChars: nat := 0;
    ghost var done: seq<Packed> := [];
    var i := 0;
    while i < |docs|
      invariant 0 <= i <= |docs|
      invariant MergedParts(docs, limit, minPerDoc) ==
        MergeDocs(docs[i..], Merge(parts, currentChars, done), perDoc, limit)
    {
      var doc := docs[i];
      if currentChars + |doc.header| > limit {
        break;
      }
      parts := parts + [doc.header];
      currentChars := currentChars + |doc.header|;
      var packed := PackDocument(doc.pages, currentChars, perDoc, limit);
      parts := parts + packed.parts;
      currentChars := currentChars + packed.counted;
      done := done + [packed];
      assert docs[i..][1..] == docs[i + 1..];
      i := i + 1;
    }
    assert MergedParts(docs, limit, minPerDoc).parts == parts;
    text := Concat(parts);
    if |text| > limit {
      text := MarkTruncated(text[..limit]);
    }
  }

  // ---------- one document ----------

  /** The headings and texts of pages, in full. */
  function Whole(pages: seq<Page>): seq<string>
  {
    if pages == [] then []
    else Whole(pages[..|pages| - 1]) + [pages[|pages| - 1].heading, pages[|pages| - 1].content]
  }

  /** The state the loop can be in: the first pages in full, none of them over budget. */
  ghost predicate InFull(done: seq<Page>, st: Packed, current: nat, perDoc: nat, limit: nat)
  {
    && !st.cut && st.included == |done| && st.parts == Whole(done)
    && st.counted == Total(st.parts)
    && st.counted <= perDoc && (done != [] ==> current + st.counted <= limit)
  }

  /** Pages before `k` in full, then page `k` cut to `room` characters and marked. */
  ghost predicate EndsInPart(pages: seq<Page>, r: Packed, k: int, room: int)
    requires 0 <= k < |pages| && 0 <= room <= |pages[k].content|
  {
    r.parts == Whole(pages[..k]) + [pages[k].heading, MarkTruncated(pages[k].content[..room])]
  }

  /** What packing one document guarantees about its outcome. */
  ghost predicate PackingSound(pages: seq<Page>, r: Packed, current: nat, perDoc: nat, limit: nat)
  {
    var full := if r.cut then r.included - 1 else r.included;
    && 0 <= full <= r.included <= |pages|
    && r.counted == Total(Whole(pages[..full]))
    // the pages shown are the best ones, in order, and only the last may be cut
    && (!r.cut ==> r.parts == Whole(pages[..full]))
    && (r.cut ==> exists room :: 100 < room < |pages[full].content| && EndsInPart(pages, r, full, room))
    // the document stays within its share, the cut page and its marker included
    && Total(r.parts) <= perDoc
    && (r.parts != [] ==> current + Total(r.parts) <= limit)
    // packing stopped only at a page that does not fit
    && (full < |pages| ==> !Fits(pages[full], r.counted, current + r.counted, perDoc, limit))
  }

  lemma {:induction false} WholeSnoc(pages: seq<Page>, k: int)
    requires 0 <= k < |pages|
    ensures Whole(pages[..k + 1]) == Whole(pages[..k]) + [pages[k].heading, pages[k].content]
    ensures Total(Whole(pages[..k + 1])) == Total(Whole(pages[..k])) + Size(pages[k])
  {
    assert pages[..k + 1][..k] == pages[..k];
    TotalPair(Whole(pages[..k]), pages[k].heading, pages[k].content);
  }

  lemma TotalPair(parts: seq<string>, a: string, b: string)
    ensures Total(parts + [a, b]) == Total(parts) + |a| + |b|
  {
    assert (parts + [a, b])[..|parts| + 1] == parts + [a];
    assert (parts + [a])[..|parts|] == parts;
  }

  lemma FullStep(pages: seq<Page>, k: int, st: Packed, current: nat, perDoc: nat, limit: nat)
    requires 0 <= k < |pages| && InFull(pages[..k], st, current, perDoc, limit)
    requires Fits(pages[k], st.counted, current + st.counted, perDoc, limit)
    ensures InFull(pages[..k + 1],
                   Packed(st.parts + [pages[k].heading, pages[k].content], st.counted + Size(pages[k]), k + 1, false),
                   current, perDoc, limit)
  {
    WholeSnoc(pages, k);
  }

  lemma PartialStep(pages: seq<Page>, k: int, st: Packed, room: int, r: Packed, current: nat, perDoc: nat, limit: nat)
    requires 0 <= k < |pages| && InFull(pages[..k], st, current, perDoc, limit)
    requires var p, used := pages[k], st.counted;
      && !Fits(p, used, current + used, perDoc, limit)
      && ShownInPart(p, used, current + used, perDoc, limit)
      && room == PartialRoom(p, used, current + used, perDoc, limit) < |p.content|
      && r == Packed(st.parts + [p.heading, MarkTruncated(p.content[..room])], used, k + 1, true)
    ensures PackingSound(pages, r, current, perDoc, limit)
  {
    var p := pages[k];
    TotalPair(st.parts, p.heading, MarkTruncated(p.content[..room]));
    assert EndsInPart(pages, r, k, room);
  }

  lemma {:induction false} PackFromSound(pages: seq<Page>, k: int, st: Packed, current: nat, perDoc: nat, limit: nat)
    requires 0 <= k <= |pages| && InFull(pages[..k], st, current, perDoc, limit)
    ensures PackingSound(pages, PackFrom(pages[k..], st, current, perDoc, limit), current, perDoc, limit)
    decreases |pages| - k
  {
    if k < |pages| {
      var p, used := pages[k], st.counted;
      assert pages[k..][0] == p && pages[k..][1..] == pages[k + 1..];
      if Fits(p, used, current + used, perDoc, limit) {
        FullStep(pages, k, st, current, perDoc, limit);
        var next := Packed(st.parts + [p.heading, p.content], used + Size(p), k + 1, false);
        PackFromSound(pages, k + 1, next, current, perDoc, limit);
      } else if ShownInPart(p, used, current + used, perDoc, limit) {
        PartialStep(pages, k, st, PartialRoom(p, used, current + used, perDoc, limit),
                    PackFrom(pages[k..], st, current, perDoc, limit), current, perDoc, limit);
      }
    } else {
      assert pages[..k] == pages;
    }
  }

  /** Packing one document: a prefix of the score-ordered pages, at most the document's
      share even when the last page is cut, and a marker only where text was left out. */
  lemma PackPagesSound(pages: seq<Page>, current: nat, perDoc: nat, limit: nat)
    ensures PackingSound(pages, PackPages(pages, current, perDoc, limit), current, perDoc, limit)
  {
    assert pages[..0] == [] && pages[0..] == pages;
    PackFromSound(pages, 0, Packed([], 0, 0, false), current, perDoc, limit);
  }

  // ---------- all documents ----------

  /** Characters of the cut pages, which the running count leaves out. */
  function Uncounted(docs: seq<Packed>): int
  {
    if docs == [] then 0
    else Uncounted(docs[..|docs| - 1]) + Total(docs[|docs| - 1].parts) - docs[|docs| - 1].counted
  }

  /** Some document other than the last one was cut at its share. */
  predicate EarlierCut(docs: seq<Packed>)
  {
    exists i :: 0 <= i < |docs| - 1 && docs[i].cut
  }

  /** The headers and pages written for the first documents. */
  function Assembled(docs: seq<Doc>, packed: seq<Packed>): seq<string>
    requires |packed| <= |docs|
  {
    if packed == [] then []
    else
      var n := |packed| - 1;
      Assembled(docs, packed[..n]) + [docs[n].header] + packed[n].parts
  }

  /** What holds of the merge after its first |st.docs| documents. */
  ghost predicate MergeSound(docs: seq<Doc>, st: Merge, perDoc: nat, limit: nat)
  {
    && |st.docs| <= |docs|
    && st.parts == Assembled(docs, st.docs)
    && (forall i :: 0 <= i < |st.docs| ==> Total(st.docs[i].parts) <= perDoc)
    && st.counted <= limit
    && Total(st.parts) == st.counted + Uncounted(st.docs)
    && (!EarlierCut(st.docs) ==> Total(st.parts) <= limit)
    && (NoneCut(st.docs) ==> Uncounted(st.docs) == 0)
  }

  predicate NoneCut(docs: seq<Packed>)
  {
    forall i :: 0 <= i < |docs| ==> !docs[i].cut
  }

  lemma NoneCutPrefix(docs: seq<Packed>, last: Packed)
    ensures !EarlierCut(docs + [last]) ==> NoneCut(docs)
    ensures NoneCut(docs + [last]) ==> NoneCut(docs) && !last.cut
  {
    var all := docs + [last];
    assert forall i :: 0 <= i < |docs| ==> all[i] == docs[i];
    assert all[|docs|] == last;
  }

  /** One more document, whatever packing made of it, keeps the merge sound. */
  lemma MergeStepWith(docs: seq<Doc>, st: Merge, packed: Packed, perDoc: nat, limit: nat)
    requires MergeSound(docs, st, perDoc, limit) && |st.docs| < |docs|
    requires var base := st.counted + |docs[|st.docs|].header|;
      && packed.counted <= Total(packed.parts) <= perDoc && base + Total(packed.parts) <= limit
      && (!packed.cut ==> packed.counted == Total(packed.parts))
    ensures var header := docs[|st.docs|].header;
      MergeSound(docs, Merge(st.parts + [header] + packed.parts, st.counted + |header| + packed.counted,
                             st.docs + [packed]), perDoc, limit)
  {
    var header := docs[|st.docs|].header;
    assert (st.docs + [packed])[..|st.docs|] == st.docs;
    ConcatAppend(st.parts + [header], packed.parts);
    assert (st.parts + [header])[..|st.parts|] == st.parts;
    NoneCutPrefix(st.docs, packed);
  }

  lemma CountedWithinParts(pages: seq<Page>, r: Packed, current: nat, perDoc: nat, limit: nat)
    requires PackingSound(pages, r, current, perDoc, limit) && current <= limit
    ensures r.counted <= Total(r.parts) && current + Total(r.parts) <= limit
    ensures !r.cut ==> r.counted == Total(r.parts)
  {
    if r.cut {
      var full := r.included - 1;
      var room :| 100 < room < |pages[full].content| && EndsInPart(pages, r, full, room);
      assert EndsInPart(pages, r, full, room);
      var shown := MarkTruncated(pages[full].content[..room]);
      assert r.parts == Whole(pages[..full]) + [pages[full].heading, shown];
      TotalPair(Whole(pages[..full]), pages[full].heading, shown);
    }
  }

  lemma PackedFitsContext(pages: seq<Page>, base: nat, perDoc: nat, limit: nat)
    requires base <= limit
    ensures var packed := PackPages(pages, base, perDoc, limit);
      && packed.counted <= Total(packed.parts) <= perDoc && base + Total(packed.parts) <= limit
      && (!packed.cut ==> packed.counted == Total(packed.parts))
  {
    PackPagesSound(pages, base, perDoc, limit);
    CountedWithinParts(pages, PackPages(pages, base, perDoc, limit), base, perDoc, limit);
  }

  lemma MergeStep(docs: seq<Doc>, st: Merge, perDoc: nat, limit: nat)
    requires MergeSound(docs, st, perDoc, limit) && |st.docs| < |docs|
    requires st.counted + |docs[|st.docs|].header| <= limit
    ensures MergeSound(docs, Next(st, docs[|st.docs|], perDoc, limit), perDoc, limit)
  {
    var doc := docs[|st.docs|];
    var base := st.counted + |doc.header|;
    PackedFitsContext(doc.pages, base, perDoc, limit);
    MergeStepWith(docs, st, PackPages(doc.pages, base, perDoc, limit), perDoc, limit);
  }

  lemma {:induction false} MergeDocsSound(docs: seq<Doc>, k: int, st: Merge, perDoc: nat, limit: nat)
    requires MergeSound(docs, st, perDoc, limit) && k == |st.docs|
    ensures MergeSound(docs, MergeDocs(docs[k..], st, perDoc, limit), perDoc, limit)
    decreases |docs| - k
  {
    if k < |docs| && st.counted + |docs[k].header| <= limit {
      MergeStep(docs, st, perDoc, limit);
      var next := Next(st, docs[k], perDoc, limit);
      MergeDocsSound(docs, k + 1, next, perDoc, limit);
      assert MergeDocs(docs[k..], st, perDoc, limit) == MergeDocs(docs[k + 1..], next, perDoc, limit) by {
        assert docs[k..][1..] == docs[k + 1..];
      }
    }
  }

  lemma MergedPartsSound(docs: seq<Doc>, limit: nat, minPerDoc: nat)
    ensures MergeSound(docs, MergedParts(docs, limit, minPerDoc), PerDocument(|docs|, limit, minPerDoc), limit)
  {
    assert docs[0..] == docs;
    MergeDocsSound(docs, 0, Merge([], 0, []), PerDocument(|docs|, limit, minPerDoc), limit);
  }

  ghost predicate SoundlyPacked(pages: seq<Page>, packed: Packed, perDoc: nat, limit: nat)
  {
    exists base: nat :: base <= limit && PackingSound(pages, packed, base, perDoc, limit)
  }

  lemma {:induction false} EachSoundlyPacked(docs: seq<Doc>, k: int, st: Merge, perDoc: nat, limit: nat, i: int)
    requires 0 <= k == |st.docs| <= |docs| && 0 <= i < |docs|
    requires i < k ==> SoundlyPacked(docs[i].pages, st.docs[i], perDoc, limit)
    ensures var r := MergeDocs(docs[k..], st, perDoc, limit);
      |r.docs| <= |docs| && (i < |r.docs| ==> SoundlyPacked(docs[i].pages, r.docs[i], perDoc, limit))
    decreases |docs| - k
  {
    var rest := docs[k..];
    if rest != [] && st.counted + |rest[0].header| <= limit {
      if i == k {
        PackPagesSound(docs[k].pages, st.counted + |docs[k].header|, perDoc, limit);
      }
      assert rest[1..] == docs[k + 1..];
      EachSoundlyPacked(docs, k + 1, Next(st, docs[k], perDoc, limit), perDoc, limit, i);
    }
  }

  /** Before the final cut the context is, document by document, the header followed by a
      sound packing of that document's pages, which takes at most the document's share. */
  lemma DocumentShare(docs: seq<Doc>, limit: nat, minPerDoc: nat, i: int)
    requires 0 <= i < |MergedParts(docs, limit, minPerDoc).docs|
    ensures var st := MergedParts(docs, limit, minPerDoc);
      var share := PerDocument(|docs|, limit, minPerDoc);
      && |st.docs| <= |docs| && st.parts == Assembled(docs, st.docs)
      && SoundlyPacked(docs[i].pages, st.docs[i], share, limit)
      && Total(st.docs[i].parts) <= share
  {
    MergedPartsSound(docs, limit, minPerDoc);
    assert docs[0..] == docs;
    EachSoundlyPacked(docs, 0, Merge([], 0, []), PerDocument(|docs|, limit, minPerDoc), limit, i);
  }

  /** The returned context exceeds its limit by at most the marker. The final cut can only
      take effect when a document before the last one was cut at its share: the running
      count leaves out the page shown in part. */
  lemma MergedTextBound(docs: seq<Doc>, limit: nat, minPerDoc: nat)
    ensures |MergedText(docs, limit, minPerDoc)| <= limit + MARKER_RESERVE
    ensures var whole := Concat(MergedParts(docs, limit, minPerDoc).parts);
      MergedText(docs, limit, minPerDoc) == if |whole| <= limit then whole else whole[..limit] + "\n" + "[TRUNCATED]"
    ensures !EarlierCut(MergedParts(docs, limit, minPerDoc).docs) ==>
      MergedText(docs, limit, minPerDoc) == Concat(MergedParts(docs, limit, minPerDoc).parts)
      && |MergedText(docs, limit, minPerDoc)| <= limit
  {
    MergedPartsSound(docs, limit, minPerDoc);
    ConcatLength(MergedParts(docs, limit, minPerDoc).parts);
  }

  /** With one document the limit is never exceeded and nothing is cut at the end. */
  lemma SingleDocumentFits(doc: Doc, limit: nat, minPerDoc: nat)
    ensures |MergedText([doc], limit, minPerDoc)| <= limit
  {
    MergedPartsSound([doc], limit, minPerDoc);
    MergedTextBound([doc], limit, minPerDoc);
  }

  // ---------- how long the merge gets, told from the sizes alone ----------

  /** Characters of the first `k` pages with their headings. */
  function PrefixSize(pages: seq<Page>, k: nat): nat
    requires k <= |pages|
  {
    if k == 0 then 0 else PrefixSize(pages, k - 1) + Size(pages[k - 1])
  }

  predicate PrefixFits(pages: seq<Page>, k: nat, base: nat, perDoc: nat, limit: nat)
    requires k <= |pages|
  {
    PrefixSize(pages, k) <= perDoc && base + PrefixSize(pages, k) <= limit
  }

  /** Exactly the first `k` pages of a document fit. */
  predicate FullyShown(pages: seq<Page>, k: nat, base: nat, perDoc: nat, limit: nat)
  {
    && k <= |pages|
    && (k > 0 ==> PrefixFits(pages, k, base, perDoc, limit))
    && (k < |pages| ==> !PrefixFits(pages, k + 1, base, perDoc, limit))
  }

  /** The next page is over the document's share but not over the limit, and the share has
      room for its heading, the marker and more than 100 characters. */
  predicate CutAtShare(pages: seq<Page>, k: nat, base: nat, perDoc: nat, limit: nat)
  {
    && k < |pages|
    && perDoc < PrefixSize(pages, k + 1) <= limit - base
    && PrefixSize(pages, k) + |pages[k].heading| + MARKER_RESERVE + 100 < perDoc
  }

  /** How many pages fit, at least `k`. */
  function FullCount(pages: seq<Page>, k: nat, base: nat, perDoc: nat, limit: nat): (n: nat)
    requires k <= |pages| && (k > 0 ==> PrefixFits(pages, k, base, perDoc, limit))
    ensures FullyShown(pages, n, base, perDoc, limit)
    decreases |pages| - k
  {
    if k < |pages| && PrefixFits(pages, k + 1, base, perDoc, limit) then
      FullCount(pages, k + 1, base, perDoc, limit)
    else k
  }

  lemma {:induction false} PrefixSizeMonotone(pages: seq<Page>, j: nat, k: nat)
    requires j <= k <= |pages|
    ensures PrefixSize(pages, j) <= PrefixSize(pages, k)
  {
    if j < k {
      PrefixSizeMonotone(pages, j, k - 1);
    }
  }

  lemma FullyShownUnique(pages: seq<Page>, j: nat, k: nat, base: nat, perDoc: nat, limit: nat)
    requires FullyShown(pages, j, base, perDoc, limit) && FullyShown(pages, k, base, perDoc, limit)
    ensures j == k
  {
    if j < k {
      PrefixSizeMonotone(pages, j + 1, k);
    } else if k < j {
      PrefixSizeMonotone(pages, k + 1, j);
    }
  }

  lemma CutAtShareIsFull(pages: seq<Page>, k: nat, base: nat, perDoc: nat, limit: nat)
    requires CutAtShare(pages, k, base, perDoc, limit)
    ensures FullyShown(pages, k, base, perDoc, limit)
  {
    PrefixSizeMonotone(pages, k, k + 1);
  }

  /** What one document adds to the running count, and what it writes: a document that is
      cut fills its share exactly. */
  ghost predicate PackedLike(pages: seq<Page>, r: Packed, n: nat, base: nat, perDoc: nat, limit: nat)
  {
    && FullyShown(pages, n, base, perDoc, limit)
    && r.counted == PrefixSize(pages, n) && r.included == n + (if r.cut then 1 else 0)
    && (r.cut <==> CutAtShare(pages, n, base, perDoc, limit))
    && Total(r.parts) == if r.cut then perDoc else r.counted
  }

  /** The loop stops at page `k`, which it shows in part or not at all. */
  lemma StopSizes(pages: seq<Page>, k: nat, st: Packed, r: Packed, base: nat, perDoc: nat, limit: nat)
    requires FullyShown(pages, k, base, perDoc, limit)
    requires !st.cut && st.included == k && st.counted == Total(st.parts) == PrefixSize(pages, k)
    requires if k < |pages| && ShownInPart(pages[k], st.counted, base + st.counted, perDoc, limit) then
        var room := PartialRoom(pages[k], st.counted, base + st.counted, perDoc, limit);
        room <= |pages[k].content| &&
        r == Packed(st.parts + [pages[k].heading, MarkTruncated(pages[k].content[..room])], st.counted, st.included + 1, true)
      else r == st
    ensures PackedLike(pages, r, k, base, perDoc, limit)
  {
    if k < |pages| && ShownInPart(pages[k], st.counted, base + st.counted, perDoc, limit) {
      var room := PartialRoom(pages[k], st.counted, base + st.counted, perDoc, limit);
      TotalPair(st.parts, pages[k].heading, MarkTruncated(pages[k].content[..room]));
    }
  }

  lemma {:induction false} PackFromSizes(pages: seq<Page>, k: nat, st: Packed, base: nat, perDoc: nat, limit: nat)
    requires k <= |pages| && (k > 0 ==> PrefixFits(pages, k, base, perDoc, limit))
    requires !st.cut && st.included == k && st.counted == Total(st.parts) == PrefixSize(pages, k)
    ensures PackedLike(pages, PackFrom(pages[k..], st, base, perDoc, limit),
                       FullCount(pages, k, base, perDoc, limit), base, perDoc, limit)
    decreases |pages| - k
  {
    if k < |pages| {
      assert pages[k..][0] == pages[k] && pages[k..][1..] == pages[k + 1..];
    }
    if k < |pages| && Fits(pages[k], st.counted, base + st.counted, perDoc, limit) {
      var p := pages[k];
      TotalPair(st.parts, p.heading, p.content);
      var next := Packed(st.parts + [p.heading, p.content], st.counted + Size(p), st.included + 1, false);
      PackFromSizes(pages, k + 1, next, base, perDoc, limit);
    } else {
      StopSizes(pages, k, st, PackFrom(pages[k..], st, base, perDoc, limit), base, perDoc, limit);
    }
  }

  /** One document, told from its page sizes: how many pages are shown in full, whether one
      more is cut, and how many characters are written. */
  lemma PackedSizes(pages: seq<Page>, base: nat, perDoc: nat, limit: nat)
    ensures PackedLike(pages, PackPages(pages, base, perDoc, limit),
                       FullCount(pages, 0, base, perDoc, limit), base, perDoc, limit)
  {
    assert pages[0..] == pages;
    PackFromSizes(pages, 0, Packed([], 0, 0, false), base, perDoc, limit);
  }

  /** A document is cut exactly when some page is over its share while all pages up to it
      are within the limit and there is room to show part of it. */
  lemma DocumentCutIff(pages: seq<Page>, base: nat, perDoc: nat, limit: nat)
    ensures PackPages(pages, base, perDoc, limit).cut
            <==> exists k: nat :: CutAtShare(pages, k, base, perDoc, limit)
  {
    PackedSizes(pages, base, perDoc, limit);
    var n := FullCount(pages, 0, base, perDoc, limit);
    forall k: nat | CutAtShare(pages, k, base, perDoc, limit) ensures k == n {
      CutAtShareIsFull(pages, k, base, perDoc, limit);
      FullyShownUnique(pages, k, n, base, perDoc, limit);
    }
  }

  predicate NoRoomFor(pages: seq<Page>, k: nat, base: nat, perDoc: nat, limit: nat)
    requires k < |pages|
  {
    || base + PrefixSize(pages, k + 1) > limit
    || PrefixSize(pages, k) + |pages[k].heading| + MARKER_RESERVE + 100 >= perDoc
  }

  /** Pages of a document are left out without a marker exactly when the first page that does
      not fit is over the limit, or its share has no room to show part of it. */
  lemma LeftOutUnmarkedIff(pages: seq<Page>, base: nat, perDoc: nat, limit: nat)
    ensures var packed := PackPages(pages, base, perDoc, limit);
      packed.included < |pages| && !packed.cut <==>
      exists k: nat :: k < |pages| && FullyShown(pages, k, base, perDoc, limit) && NoRoomFor(pages, k, base, perDoc, limit)
  {
    PackedSizes(pages, base, perDoc, limit);
    var n := FullCount(pages, 0, base, perDoc, limit);
    forall k: nat | FullyShown(pages, k, base, perDoc, limit) ensures k == n {
      FullyShownUnique(pages, k, n, base, perDoc, limit);
    }
    if n < |pages| {
      assert PrefixFits(pages, n + 1, base, perDoc, limit) <==>
        PrefixSize(pages, n + 1) <= perDoc && base + PrefixSize(pages, n + 1) <= limit;
      assert FullyShown(pages, n, base, perDoc, limit);
    }
  }

  function Written(pages: seq<Page>, base: nat, perDoc: nat, limit: nat): nat
  {
    var n := FullCount(pages, 0, base, perDoc, limit);
    if CutAtShare(pages, n, base, perDoc, limit) then perDoc else PrefixSize(pages, n)
  }

  /** Characters the documents from `i` on add, when `counted` were counted before. */
  function MergedLength(docs: seq<Doc>, i: nat, counted: nat, perDoc: nat, limit: nat): nat
    requires i <= |docs|
    decreases |docs| - i
  {
    if i == |docs| || counted + |docs[i].header| > limit then 0
    else
      var base, pages := counted + |docs[i].header|, docs[i].pages;
      |docs[i].header| + Written(pages, base, perDoc, limit)
        + MergedLength(docs, i + 1, base + PrefixSize(pages, FullCount(pages, 0, base, perDoc, limit)), perDoc, limit)
  }

  lemma NextSizes(st: Merge, doc: Doc, perDoc: nat, limit: nat)
    ensures var base, st' := st.counted + |doc.header|, Next(st, doc, perDoc, limit);
      && Total(st'.parts) == Total(st.parts) + |doc.header| + Written(doc.pages, base, perDoc, limit)
      && st'.counted == base + PrefixSize(doc.pages, FullCount(doc.pages, 0, base, perDoc, limit))
  {
    var base := st.counted + |doc.header|;
    PackedSizes(doc.pages, base, perDoc, limit);
    ConcatAppend(st.parts + [doc.header], PackPages(doc.pages, base, perDoc, limit).parts);
    assert (st.parts + [doc.header])[..|st.parts|] == st.parts;
  }

  lemma {:induction false} MergedLengthFrom(docs: seq<Doc>, i: nat, st: Merge, perDoc: nat, limit: nat)
    requires i <= |docs|
    ensures Total(MergeDocs(docs[i..], st, perDoc, limit).parts) ==
            Total(st.parts) + MergedLength(docs, i, st.counted, perDoc, limit)
    decreases |docs| - i
  {
    if i < |docs| && st.counted + |docs[i].header| <= limit {
      NextSizes(st, docs[i], perDoc, limit);
      var next := Next(st, docs[i], perDoc, limit);
      MergedLengthFrom(docs, i + 1, next, perDoc, limit);
      assert MergeDocs(docs[i..], st, perDoc, limit) == MergeDocs(docs[i + 1..], next, perDoc, limit) by {
        assert docs[i..][1..] == docs[i + 1..];
      }
    }
  }

  /** Characters assembled before the final cut. */
  function AssembledLength(docs: seq<Doc>, limit: nat, minPerDoc: nat): nat
  {
    MergedLength(docs, 0, 0, PerDocument(|docs|, limit, minPerDoc), limit)
  }

  /** The final cut acts exactly when the lengths of the headers, the sizes of the pages, the
      share and the limit say that more than the limit is assembled. */
  lemma FinalCutIff(docs: seq<Doc>, limit: nat, minPerDoc: nat)
    ensures var full := Concat(MergedParts(docs, limit, minPerDoc).parts);
      && |full| == AssembledLength(docs, limit, minPerDoc)
      && MergedText(docs, limit, minPerDoc) ==
         if AssembledLength(docs, limit, minPerDoc) > limit then MarkTruncated(full[..limit]) else full
  {
    assert docs[0..] == docs;
    MergedLengthFrom(docs, 0, Merge([], 0, []), PerDocument(|docs|, limit, minPerDoc), limit);
    ConcatLength(MergedParts(docs, limit, minPerDoc).parts);
  }

  /** What the documents from `i` on can claim: each its header and its share, or all it has
      when that is less. */
  function Claims(docs: seq<Doc>, i: nat, perDoc: nat): nat
    requires i <= |docs|
    decreases |docs| - i
  {
    if i == |docs| then 0
    else |docs[i].header| + Min(perDoc, PrefixSize(docs[i].pages, |docs[i].pages|)) + Claims(docs, i + 1, perDoc)
  }

  lemma {:induction false} LengthWithinClaims(docs: seq<Doc>, i: nat, counted: nat, perDoc: nat, limit: nat)
    requires i <= |docs|
    ensures MergedLength(docs, i, counted, perDoc, limit) <= Claims(docs, i, perDoc)
    decreases |docs| - i
  {
    if i < |docs| && counted + |docs[i].header| <= limit {
      var base, pages := counted + |docs[i].header|, docs[i].pages;
      var n := FullCount(pages, 0, base, perDoc, limit);
      PrefixSizeMonotone(pages, if CutAtShare(pages, n, base, perDoc, limit) then n + 1 else n, |pages|);
      LengthWithinClaims(docs, i + 1, base + PrefixSize(pages, n), perDoc, limit);
    }
  }

  /** When what the documents can claim fits the limit, nothing is cut at the end. */
  lemma ClaimsFitNoFinalCut(docs: seq<Doc>, limit: nat, minPerDoc: nat)
    requires Claims(docs, 0, PerDocument(|docs|, limit, minPerDoc)) <= limit
    ensures MergedText(docs, limit, minPerDoc) == Concat(MergedParts(docs, limit, minPerDoc).parts)
  {
    LengthWithinClaims(docs, 0, 0, PerDocument(|docs|, limit, minPerDoc), limit);
    FinalCutIff(docs, limit, minPerDoc);
  }

  // ---------- which documents are reached, and which are cut ----------

  /** Characters counted before document `i`, if the loop gets that far. */
  function CountedBefore(docs: seq<Doc>, i: nat, perDoc: nat, limit: nat): nat
    requires i <= |docs|
    decreases i, 0
  {
    if i == 0 then 0
    else
      var base, pages := Base(docs, i - 1, perDoc, limit), docs[i - 1].pages;
      base + PrefixSize(pages, FullCount(pages, 0, base, perDoc, limit))
  }

  /** And with the document's header. */
  function Base(docs: seq<Doc>, i: nat, perDoc: nat, limit: nat): nat
    requires i < |docs|
    decreases i, 1
  {
    CountedBefore(docs, i, perDoc, limit) + |docs[i].header|
  }

  /** The headers up to this one fit. */
  predicate Reached(docs: seq<Doc>, i: nat, perDoc: nat, limit: nat)
    requires i < |docs|
  {
    forall j: nat :: j <= i ==> Base(docs, j, perDoc, limit) <= limit
  }

  predicate CutDocument(docs: seq<Doc>, i: nat, perDoc: nat, limit: nat)
    requires i < |docs|
  {
    exists k: nat :: k < |docs[i].pages| && CutAtShare(docs[i].pages, k, Base(docs, i, perDoc, limit), perDoc, limit)
  }

  ghost predicate Tracked(docs: seq<Doc>, st: Merge, perDoc: nat, limit: nat)
  {
    && |st.docs| <= |docs| && st.counted == CountedBefore(docs, |st.docs|, perDoc, limit)
    && forall j: nat :: j < |st.docs| ==>
         Base(docs, j, perDoc, limit) <= limit && (st.docs[j].cut <==> CutDocument(docs, j, perDoc, limit))
  }

  lemma TrackedNext(docs: seq<Doc>, st: Merge, perDoc: nat, limit: nat)
    requires Tracked(docs, st, perDoc, limit) && |st.docs| < |docs|
    requires st.counted + |docs[|st.docs|].header| <= limit
    ensures Tracked(docs, Next(st, docs[|st.docs|], perDoc, limit), perDoc, limit)
  {
    var i := |st.docs|;
    NextSizes(st, docs[i], perDoc, limit);
    DocumentCutIff(docs[i].pages, Base(docs, i, perDoc, limit), perDoc, limit);
  }

  lemma {:induction false} TrackedFrom(docs: seq<Doc>, i: nat, st: Merge, perDoc: nat, limit: nat)
    requires Tracked(docs, st, perDoc, limit) && i == |st.docs|
    ensures var r := MergeDocs(docs[i..], st, perDoc, limit);
      Tracked(docs, r, perDoc, limit) && (|r.docs| < |docs| ==> limit < Base(docs, |r.docs|, perDoc, limit))
    decreases |docs| - i
  {
    if i < |docs| && st.counted + |docs[i].header| <= limit {
      var next := Next(st, docs[i], perDoc, limit);
      TrackedNext(docs, st, perDoc, limit);
      TrackedFrom(docs, i + 1, next, perDoc, limit);
      assert MergeDocs(docs[i..], st, perDoc, limit) == MergeDocs(docs[i + 1..], next, perDoc, limit) by {
        assert docs[i..][1..] == docs[i + 1..];
      }
    }
  }

  /** A document is written exactly when its header and all before it fit, and is cut exactly
      when its page sizes say so. All others are left out whole, without a marker. */
  lemma DocumentReachedIff(docs: seq<Doc>, limit: nat, minPerDoc: nat, i: nat)
    requires i < |docs|
    ensures var written, share := MergedParts(docs, limit, minPerDoc).docs, PerDocument(|docs|, limit, minPerDoc);
      && (i < |written| <==> Reached(docs, i, share, limit))
      && (i < |written| ==> (written[i].cut <==> CutDocument(docs, i, share, limit)))
  {
    assert docs[0..] == docs;
    TrackedFrom(docs, 0, Merge([], 0, []), PerDocument(|docs|, limit, minPerDoc), limit);
  }

  // ---------- the final cut is reached ----------

  function DocumentHeader(title: string): string
  {
    "\n\n===== Document: " + title + " =====\n"
  }

  function PageHeading(section: string, page: string): string
  {
    if section == "" then "\n--- Page " + page + " ---\n"
    else "\n--- " + section + " (Page " + page + ") ---\n"
  }

  function ShortPages(texts: seq<string>): seq<Page>
    requires |texts| == 3
  {
    [Page(PageHeading("", "1"), texts[0]), Page(PageHeading("", "2"), texts[1]), Page(PageHeading("", "3"), texts[2])]
  }

  function LongPages(texts: seq<string>): seq<Page>
    requires |texts| == 2
  {
    [Page(PageHeading("", "1"), texts[0]), Page(PageHeading("", "2"), texts[1])]
  }

  lemma ShortPagesSizes(texts: seq<string>)
    requires |texts| == 3 && forall i :: 0 <= i < 3 ==> |texts[i]| == 2484
    ensures var pages := ShortPages(texts);
      PrefixSize(pages, 1) == 2500 && PrefixSize(pages, 2) == 5000 && PrefixSize(pages, 3) == 7500
  {
    var pages := ShortPages(texts);
    assert Size(pages[0]) == 2500 && Size(pages[1]) == 2500 && Size(pages[2]) == 2500;
    assert PrefixSize(pages, 1) == PrefixSize(pages, 0) + Size(pages[0]);
    assert PrefixSize(pages, 2) == PrefixSize(pages, 1) + Size(pages[1]);
  }

  lemma LongPagesSizes(texts: seq<string>)
    requires |texts| == 2 && forall i :: 0 <= i < 2 ==> |texts[i]| == 2984
    ensures var pages := LongPages(texts);
      PrefixSize(pages, 1) == 3000 && PrefixSize(pages, 2) == 6000
  {
    var pages := LongPages(texts);
    assert Size(pages[0]) == 3000 && Size(pages[1]) == 3000;
    assert PrefixSize(pages, 1) == PrefixSize(pages, 0) + Size(pages[0]);
  }

  /** The configured minimum of a document's share. */
  const MIN_PER_DOC := 5000

  /** Two documents under a limit of 12000 characters, with headings as the program writes
      them and pages within every configured cap. The first is cut at its share of 6000, the
      second fills its share; together with the two headers they are over the limit. */
  lemma FinalCutReachable(titleA: string, titleB: string, textsA: seq<string>, textsB: seq<string>)
    requires |titleA| + |titleB| <= 950
    requires |textsA| == 3 && forall i :: 0 <= i < 3 ==> |textsA[i]| == 2484
    requires |textsB| == 2 && forall i :: 0 <= i < 2 ==> |textsB[i]| == 2984
    ensures var docs := [Doc(DocumentHeader(titleA), ShortPages(textsA)), Doc(DocumentHeader(titleB), LongPages(textsB))];
      && AssembledLength(docs, 12000, MIN_PER_DOC) == 12050 + |titleA| + |titleB|
      && |MergedText(docs, 12000, MIN_PER_DOC)| == 12012
  {
    var a, b := ShortPages(textsA), LongPages(textsB);
    var docs := [Doc(DocumentHeader(titleA), a), Doc(DocumentHeader(titleB), b)];
    var baseA := |DocumentHeader(titleA)|;
    var baseB := baseA + 5000 + |DocumentHeader(titleB)|;
    ShortPagesSizes(textsA);
    LongPagesSizes(textsB);
    assert CutAtShare(a, 2, baseA, 6000, 12000);
    CutAtShareIsFull(a, 2, baseA, 6000, 12000);
    FullyShownUnique(a, 2, FullCount(a, 0, baseA, 6000, 12000), baseA, 6000, 12000);
    assert FullyShown(b, 2, baseB, 6000, 12000);
    FullyShownUnique(b, 2, FullCount(b, 0, baseB, 6000, 12000), baseB, 6000, 12000);
    assert PerDocument(2, 12000, MIN_PER_DOC) == 6000;
    assert MergedLength(docs, 2, baseB + 6000, 6000, 12000) == 0;
    assert MergedLength(docs, 1, baseA + 5000, 6000, 12000) == |DocumentHeader(titleB)| + 6000;
    FinalCutIff(docs, 12000, MIN_PER_DOC);
  }
}
