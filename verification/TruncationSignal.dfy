/** Which cuts can be seen in a context: the detector, and what it finds. */
module TruncationSignal {
  import opened Merger
  import opened Numbers
  import opened Executor

  /** Any of these says that text was cut short. */
  const MARKERS := ["[CONTENT TRUNCATED", "[TRUNCATED", "[truncated]", "[content truncated]", "(context truncated)"]

  predicate IsTruncated(text: string)
  {
    exists i :: 0 <= i < |MARKERS| && Contains(text, MARKERS[i])
  }

  predicate OneLine(text: string)
  {
    forall k :: 0 <= k < |text| ==> text[k] != '\n'
  }

  lemma MarkerShape(i: int)
    requires 0 <= i < |MARKERS|
    ensures OneLine(MARKERS[i]) && |MARKERS[i]| >= 10 && (MARKERS[i][0] == '[' || MARKERS[i][0] == '(')
  {
  }

  // ---------- text without a marker ----------

  /** No marker runs across a line break. */
  lemma JoinContains(a: string, b: string, piece: string)
    requires OneLine(piece) && piece != "" && Contains(a + b, piece)
    requires a == "" || b == "" || a[|a| - 1] == '\n' || b[0] == '\n'
    ensures Contains(a, piece) || Contains(b, piece)
  {
    var i :| 0 <= i <= |a + b| && OccursAt(a + b, piece, i);
    if i + |piece| <= |a| {
      assert a[i..i + |piece|] == (a + b)[i..i + |piece|];
      assert OccursAt(a, piece, i);
    } else if i >= |a| {
      var j := i - |a|;
      assert b[j..j + |piece|] == (a + b)[i..i + |piece|];
      assert OccursAt(b, piece, j);
    } else {
      Straddles(a, b, piece, i);
    }
  }

  lemma Straddles(a: string, b: string, piece: string, i: nat)
    requires i < |a| < i + |piece| && OccursAt(a + b, piece, i)
    ensures piece[|a| - 1 - i] == a[|a| - 1] && piece[|a| - i] == b[0]
  {
    assert (a + b)[i..i + |piece|][|a| - 1 - i] == (a + b)[|a| - 1];
    assert (a + b)[i..i + |piece|][|a| - i] == (a + b)[|a|];
  }

  lemma NotAt(text: string, piece: string, j: nat)
    requires j + |piece| > |text| || (piece != "" && text[j] != piece[0])
    ensures !OccursAt(text, piece, j)
  {
    if j + |piece| <= |text| {
      assert text[j..j + |piece|][0] == text[j];
    }
  }

  lemma QuietJoin(a: string, b: string)
    requires !IsTruncated(a) && !IsTruncated(b)
    requires a == "" || b == "" || a[|a| - 1] == '\n' || b[0] == '\n'
    ensures !IsTruncated(a + b)
  {
    forall i | 0 <= i < |MARKERS| ensures !Contains(a + b, MARKERS[i]) {
      MarkerShape(i);
      if Contains(a + b, MARKERS[i]) {
        JoinContains(a, b, MARKERS[i]);
      }
    }
  }

  /** A cut that is visible somewhere in a text is visible in the text. */
  lemma SeenInside(text: string, before: string, middle: string, after: string)
    requires text == before + middle + after && IsTruncated(middle)
    ensures IsTruncated(text)
  {
    var i :| 0 <= i < |MARKERS| && Contains(middle, MARKERS[i]);
    ContainsInside(text, before, middle, after, MARKERS[i]);
  }

  lemma SeenInPrefix(text: string, n: nat, m: nat)
    requires n <= m && IsTruncated(Prefix(text, n))
    ensures IsTruncated(Prefix(text, m))
  {
    var short, long := Prefix(text, n), Prefix(text, m);
    assert long == [] + short + long[|short|..];
    SeenInside(long, [], short, long[|short|..]);
  }

  lemma MarkSeen(text: string)
    ensures IsTruncated(MarkTruncated(text))
  {
    ContainsAt(MarkTruncated(text), text + "\n", MARKERS[1], "]");
  }

  // ---------- a slice of marked text ----------

  const LINE_MARKER := "\n" + MARKER

  lemma StubQuiet(k: nat)
    requires k <= 10
    ensures !IsTruncated(LINE_MARKER[..k])
  {
    var stub := LINE_MARKER[..k];
    forall i, j: nat | 0 <= i < |MARKERS| ensures !OccursAt(stub, MARKERS[i], j) {
      MarkerShape(i);
      NotAt(stub, MARKERS[i], j);
    }
  }

  /** Text that is cut, marked and then sliced shows the cut exactly when eleven characters
      more than the text are kept: the closing bracket is not needed. */
  lemma SliceSeenIff(text: string, n: nat)
    requires !IsTruncated(text)
    ensures IsTruncated(Prefix(MarkTruncated(text), n)) <==> |text| + 11 <= n
  {
    var marked := MarkTruncated(text);
    if |text| + 11 <= n {
      assert Prefix(marked, |text| + 11) == text + "\n" + MARKERS[1] + "";
      ContainsAt(Prefix(marked, |text| + 11), text + "\n", MARKERS[1], "");
      SeenInPrefix(marked, |text| + 11, n);
    } else if n < |text| {
      assert text == [] + text[..n] + text[n..];
      assert Prefix(marked, n) == text[..n];
      if IsTruncated(text[..n]) {
        SeenInside(text, [], text[..n], text[n..]);
      }
    } else {
      var k := n - |text|;
      assert Prefix(marked, n) == text + LINE_MARKER[..k];
      StubQuiet(k);
      QuietJoin(text, LINE_MARKER[..k]);
    }
  }

  // ---------- one step ----------

  predicate Framed(line: string)
  {
    line != "" && line[0] == '\n' && line[|line| - 1] == '\n'
  }

  predicate PlainPage(p: Page)
  {
    Framed(p.heading) && !IsTruncated(p.heading) && !IsTruncated(p.content)
  }

  /** A document whose texts carry no marker, under headings on lines of their own. */
  predicate Plain(d: Doc)
  {
    Framed(d.header) && !IsTruncated(d.header) && forall i :: 0 <= i < |d.pages| ==> PlainPage(d.pages[i])
  }

  predicate AllPlain(docs: seq<Doc>)
  {
    forall i :: 0 <= i < |docs| ==> Plain(docs[i])
  }

  /** The headings the program writes are framed. */
  lemma HeadingsFramed(title: string, section: string, page: string)
    ensures Framed(DocumentHeader(title)) && Framed(PageHeading(section, page))
  {
  }

  /** Appending a heading and a page keeps the text free of markers. */
  lemma QuietPage(text: string, p: Page)
    requires !IsTruncated(text) && PlainPage(p)
    ensures !IsTruncated(text + p.heading + p.content)
  {
    QuietJoin(text, p.heading);
    QuietJoin(text + p.heading, p.content);
  }

  lemma {:induction false} QuietPages(text: string, pages: seq<Page>)
    requires !IsTruncated(text) && forall i :: 0 <= i < |pages| ==> PlainPage(pages[i])
    ensures !IsTruncated(text + Concat(Whole(pages)))
    decreases |pages|
  {
    if pages == [] {
      assert text + Concat(Whole(pages)) == text;
    } else {
      var n := |pages| - 1;
      QuietPages(text, pages[..n]);
      var before := Whole(pages[..n]);
      QuietPage(text + Concat(before), pages[n]);
      ConcatPair(before, pages[n].heading, pages[n].content);
      assert text + Concat(Whole(pages)) == text + Concat(before) + pages[n].heading + pages[n].content;
    }
  }

  lemma ConcatPair(parts: seq<string>, a: string, b: string)
    ensures Concat(parts + [a, b]) == Concat(parts) + a + b
  {
    assert (parts + [a, b])[..|parts| + 1] == parts + [a];
    assert (parts + [a])[..|parts|] == parts;
  }

  /** Documents none of which was cut give text without a marker, which starts a new line. */
  ghost predicate Quiet(text: string)
  {
    !IsTruncated(text) && (text != "" ==> text[0] == '\n')
  }

  lemma {:induction false} QuietAssembled(docs: seq<Doc>, packed: seq<Packed>, perDoc: nat, limit: nat)
    requires AllPlain(docs) && |packed| <= |docs| && NoneCut(packed)
    requires forall i :: 0 <= i < |packed| ==> SoundlyPacked(docs[i].pages, packed[i], perDoc, limit)
    ensures Quiet(Concat(Assembled(docs, packed)))
    decreases |packed|
  {
    if packed != [] {
      var n := |packed| - 1;
      QuietAssembled(docs, packed[..n], perDoc, limit);
      var before, doc, r := Assembled(docs, packed[..n]), docs[n], packed[n];
      assert Plain(doc);
      UncutParts(doc.pages, r, perDoc, limit);
      QuietDocument(Concat(before), doc, r.included);
      ConcatAppend(before + [doc.header], r.parts);
      assert (before + [doc.header])[..|before|] == before;
    }
  }

  lemma UncutParts(pages: seq<Page>, r: Packed, perDoc: nat, limit: nat)
    requires SoundlyPacked(pages, r, perDoc, limit) && !r.cut
    ensures 0 <= r.included <= |pages| && r.parts == Whole(pages[..r.included])
  {
    var base: nat :| base <= limit && PackingSound(pages, r, base, perDoc, limit);
  }

  lemma QuietDocument(text: string, doc: Doc, k: int)
    requires Quiet(text) && Plain(doc) && 0 <= k <= |doc.pages|
    ensures Quiet(text + doc.header + Concat(Whole(doc.pages[..k])))
  {
    QuietJoin(text, doc.header);
    QuietPages(text + doc.header, doc.pages[..k]);
  }

  lemma NothingCutQuiet(docs: seq<Doc>, limit: nat, minPerDoc: nat)
    requires AllPlain(docs) && NoneCut(MergedParts(docs, limit, minPerDoc).docs)
    ensures Quiet(Concat(MergedParts(docs, limit, minPerDoc).parts))
  {
    var st, share := MergedParts(docs, limit, minPerDoc), PerDocument(|docs|, limit, minPerDoc);
    MergedPartsSound(docs, limit, minPerDoc);
    forall i | 0 <= i < |st.docs| ensures SoundlyPacked(docs[i].pages, st.docs[i], share, limit) {
      DocumentShare(docs, limit, minPerDoc, i);
    }
    QuietAssembled(docs, st.docs, share, limit);
  }

  /** The first document that is cut shows its marker within the limit. */
  predicate SeenWithin(st: Merge, limit: nat)
  {
    NoneCut(st.docs) || IsTruncated(Prefix(Concat(st.parts), limit))
  }

  lemma CutDocumentEnds(pages: seq<Page>, r: Packed, base: nat, perDoc: nat, limit: nat)
    requires PackingSound(pages, r, base, perDoc, limit) && r.cut
    ensures IsTruncated(Concat(r.parts))
  {
    var full := r.included - 1;
    var room :| 100 < room < |pages[full].content| && EndsInPart(pages, r, full, room);
    assert EndsInPart(pages, r, full, room);
    var heading, shown := pages[full].heading, MarkTruncated(pages[full].content[..room]);
    ConcatPair(Whole(pages[..full]), heading, shown);
    MarkSeen(pages[full].content[..room]);
    SeenInside(Concat(r.parts), Concat(Whole(pages[..full])) + heading, shown, []);
  }

  lemma SeenStep(docs: seq<Doc>, st: Merge, perDoc: nat, limit: nat)
    requires MergeSound(docs, st, perDoc, limit) && |st.docs| < |docs|
    requires st.counted + |docs[|st.docs|].header| <= limit && SeenWithin(st, limit)
    ensures SeenWithin(Next(st, docs[|st.docs|], perDoc, limit), limit)
  {
    var doc, base := docs[|st.docs|], st.counted + |docs[|st.docs|].header|;
    var packed := PackPages(doc.pages, base, perDoc, limit);
    var before := Concat(st.parts);
    ConcatAppend(st.parts + [doc.header], packed.parts);
    assert (st.parts + [doc.header])[..|st.parts|] == st.parts;
    var after := doc.header + Concat(packed.parts);
    assert Concat(Next(st, doc, perDoc, limit).parts) == before + after;
    if !NoneCut(st.docs) {
      LongerPrefix(before, after, limit);
    } else if packed.cut {
      PackPagesSound(doc.pages, base, perDoc, limit);
      PackedFitsContext(doc.pages, base, perDoc, limit);
      CutDocumentEnds(doc.pages, packed, base, perDoc, limit);
      ConcatLength(st.parts);
      ConcatLength(packed.parts);
      SeenInside(before + after, before + doc.header, Concat(packed.parts), []);
    } else {
      NoneCutSnoc(st.docs, packed);
    }
  }

  lemma LongerPrefix(a: string, b: string, n: nat)
    requires IsTruncated(Prefix(a, n))
    ensures IsTruncated(Prefix(a + b, n))
  {
    var short, long := Prefix(a, n), Prefix(a + b, n);
    assert long == [] + short + long[|short|..];
    SeenInside(long, [], short, long[|short|..]);
  }

  lemma NoneCutSnoc(docs: seq<Packed>, last: Packed)
    requires NoneCut(docs) && !last.cut
    ensures NoneCut(docs + [last])
  {
  }

  lemma {:induction false} SeenFrom(docs: seq<Doc>, k: int, st: Merge, perDoc: nat, limit: nat)
    requires MergeSound(docs, st, perDoc, limit) && k == |st.docs| && SeenWithin(st, limit)
    ensures SeenWithin(MergeDocs(docs[k..], st, perDoc, limit), limit)
    decreases |docs| - k
  {
    if k < |docs| && st.counted + |docs[k].header| <= limit {
      MergeStep(docs, st, perDoc, limit);
      SeenStep(docs, st, perDoc, limit);
      var next := Next(st, docs[k], perDoc, limit);
      SeenFrom(docs, k + 1, next, perDoc, limit);
      assert MergeDocs(docs[k..], st, perDoc, limit) == MergeDocs(docs[k + 1..], next, perDoc, limit) by {
        assert docs[k..][1..] == docs[k + 1..];
      }
    }
  }

  predicate SomeDocumentCut(docs: seq<Doc>, limit: nat, minPerDoc: nat)
  {
    !NoneCut(MergedParts(docs, limit, minPerDoc).docs)
  }

  /** Neither the final cut of the merge nor the slice to the quota hides that a document was
      cut. */
  lemma StepCutSeen(docs: seq<Doc>, quota: nat, left: nat, minPerDoc: nat)
    requires SomeDocumentCut(docs, Min(quota, left), minPerDoc)
    ensures IsTruncated(StepContext(docs, quota, left, minPerDoc))
  {
    var limit := Min(quota, left);
    var share := PerDocument(|docs|, limit, minPerDoc);
    assert docs[0..] == docs;
    SeenFrom(docs, 0, Merge([], 0, []), share, limit);
    var full := Concat(MergedParts(docs, limit, minPerDoc).parts);
    var short, long := Prefix(full, limit), StepContext(docs, quota, left, minPerDoc);
    assert long == [] + short + long[|short|..];
    SeenInside(long, [], short, long[|short|..]);
  }

  /** A step whose merge was cut at the end is always visibly cut: a document before the
      last one was cut, and its marker is within the part that is kept. */
  lemma FinalCutSeen(docs: seq<Doc>, quota: nat, left: nat, minPerDoc: nat)
    requires AssembledLength(docs, Min(quota, left), minPerDoc) > Min(quota, left)
    ensures IsTruncated(StepContext(docs, quota, left, minPerDoc))
  {
    var limit := Min(quota, left);
    var cut := MergedParts(docs, limit, minPerDoc).docs;
    FinalCutIff(docs, limit, minPerDoc);
    MergedPartsSound(docs, limit, minPerDoc);
    ConcatLength(MergedParts(docs, limit, minPerDoc).parts);
    assert EarlierCut(cut);
    StepCutSeen(docs, quota, left, minPerDoc);
  }

  /** Told from the lengths of the headers and the sizes of the pages: some document that is
      reached has a page over its share, and room to show part of it. */
  predicate CutBySizes(docs: seq<Doc>, limit: nat, minPerDoc: nat)
  {
    var share := PerDocument(|docs|, limit, minPerDoc);
    exists i: nat :: i < |docs| && Reached(docs, i, share, limit) && CutDocument(docs, i, share, limit)
  }

  lemma CutBySizesIff(docs: seq<Doc>, limit: nat, minPerDoc: nat)
    ensures SomeDocumentCut(docs, limit, minPerDoc) <==> CutBySizes(docs, limit, minPerDoc)
  {
    MergedPartsSound(docs, limit, minPerDoc);
    forall i: nat | i < |docs|
      ensures var written, share := MergedParts(docs, limit, minPerDoc).docs, PerDocument(|docs|, limit, minPerDoc);
        && (i < |written| <==> Reached(docs, i, share, limit))
        && (i < |written| ==> (written[i].cut <==> CutDocument(docs, i, share, limit)))
    {
      DocumentReachedIff(docs, limit, minPerDoc, i);
    }
  }

  /** For documents without markers of their own: a step's context is recognized as cut
      exactly when one of its documents is cut at its share. */
  lemma StepSeenIff(docs: seq<Doc>, quota: nat, left: nat, minPerDoc: nat)
    requires AllPlain(docs)
    ensures IsTruncated(StepContext(docs, quota, left, minPerDoc))
            <==> CutBySizes(docs, Min(quota, left), minPerDoc)
    ensures !IsTruncated(StepContext(docs, quota, left, minPerDoc)) ==>
      Quiet(StepContext(docs, quota, left, minPerDoc))
  {
    var limit := Min(quota, left);
    CutBySizesIff(docs, limit, minPerDoc);
    if SomeDocumentCut(docs, limit, minPerDoc) {
      StepCutSeen(docs, quota, left, minPerDoc);
    } else {
      NothingCutQuiet(docs, limit, minPerDoc);
      MergedTextBound(docs, limit, minPerDoc);
    }
  }

  // ---------- the whole context ----------

  lemma {:induction false} QuietContexts(contexts: seq<string>)
    requires forall i :: 0 <= i < |contexts| ==> Quiet(contexts[i])
    ensures !IsTruncated(Concat(contexts))
    decreases |contexts|
  {
    if contexts != [] {
      var n := |contexts| - 1;
      QuietContexts(contexts[..n]);
      QuietJoin(Concat(contexts[..n]), contexts[n]);
    }
  }

  lemma {:induction false} SeenInContexts(contexts: seq<string>, i: int)
    requires 0 <= i < |contexts| && IsTruncated(contexts[i])
    ensures IsTruncated(Concat(contexts))
    decreases |contexts|
  {
    var n := |contexts| - 1;
    var before := Concat(contexts[..n]);
    if i == n {
      SeenInside(Concat(contexts), before, contexts[n], []);
    } else {
      SeenInContexts(contexts[..n], i);
      SeenInside(Concat(contexts), [], before, contexts[n]);
    }
  }

  /** Some document of step `i` is cut at its share, by its sizes and what is left. */
  predicate CutInStep(steps: seq<Step>, contexts: seq<string>, i: int, maxChars: nat, minPerDoc: nat)
    requires 0 <= i < |contexts| <= |steps| && Total(contexts[..i]) < maxChars
  {
    CutBySizes(steps[i].docs, Min(steps[i].quota, maxChars - Total(contexts[..i])), minPerDoc)
  }

  lemma FinalSeenIff(contexts: seq<string>, budget: nat)
    ensures IsTruncated(FinalContext(contexts, budget))
            <==> |Concat(contexts)| > budget || IsTruncated(Concat(contexts))
  {
    var full := Concat(contexts);
    if |full| > budget {
      if |contexts| > 1 {
        MarkSeen(Concat(Shortened(contexts, budget, |full|)));
      } else {
        MarkSeen(full[..budget]);
      }
    }
  }

  /** The whole plan, for documents without markers of their own: the context handed on is
      recognized as cut exactly when it was over the budget or some step cut a document. */
  lemma ContextSeenIff(steps: seq<Step>, maxChars: nat, minPerDoc: nat, budget: nat)
    requires 0 < maxChars && forall i :: 0 <= i < |steps| ==> AllPlain(steps[i].docs)
    ensures var contexts := StepContexts(steps, maxChars, minPerDoc);
      RunOf(steps, contexts, maxChars, minPerDoc) &&
      (IsTruncated(FinalContext(contexts, budget)) <==>
       |Concat(contexts)| > budget || SomeStepCut(steps, contexts, maxChars, minPerDoc))
  {
    var contexts := StepContexts(steps, maxChars, minPerDoc);
    StepsRun(steps, maxChars, minPerDoc);
    FinalSeenIff(contexts, budget);
    RunSeenIff(steps, contexts, maxChars, minPerDoc);
  }

  lemma StepInRunSeenIff(steps: seq<Step>, contexts: seq<string>, i: int, maxChars: nat, minPerDoc: nat)
    requires RunOf(steps, contexts, maxChars, minPerDoc) && 0 <= i < |contexts| && AllPlain(steps[i].docs)
    ensures Total(contexts[..i]) < maxChars
    ensures IsTruncated(contexts[i]) <==> CutInStep(steps, contexts, i, maxChars, minPerDoc)
    ensures !IsTruncated(contexts[i]) ==> Quiet(contexts[i])
  {
    assert StepAt(steps, contexts, i, maxChars, minPerDoc);
    StepSeenIff(steps[i].docs, steps[i].quota, maxChars - Total(contexts[..i]), minPerDoc);
  }

  predicate SomeStepCut(steps: seq<Step>, contexts: seq<string>, maxChars: nat, minPerDoc: nat)
    requires |contexts| <= |steps|
  {
    exists i :: 0 <= i < |contexts| && Total(contexts[..i]) < maxChars && CutInStep(steps, contexts, i, maxChars, minPerDoc)
  }

  lemma RunSeenIff(steps: seq<Step>, contexts: seq<string>, maxChars: nat, minPerDoc: nat)
    requires RunOf(steps, contexts, maxChars, minPerDoc) && forall i :: 0 <= i < |steps| ==> AllPlain(steps[i].docs)
    ensures IsTruncated(Concat(contexts)) <==> SomeStepCut(steps, contexts, maxChars, minPerDoc)
  {
    if i :| 0 <= i < |contexts| && IsTruncated(contexts[i]) {
      StepInRunSeenIff(steps, contexts, i, maxChars, minPerDoc);
      SeenInContexts(contexts, i);
    } else {
      forall i | 0 <= i < |contexts|
        ensures Quiet(contexts[i])
        ensures Total(contexts[..i]) < maxChars && !CutInStep(steps, contexts, i, maxChars, minPerDoc)
      {
        StepInRunSeenIff(steps, contexts, i, maxChars, minPerDoc);
      }
      QuietContexts(contexts);
    }
  }

  // ---------- what cannot be seen ----------

  /** A second page that is over what is left for the step is left out, and nothing in the
      context says so. */
  lemma PageLeftOutUnseen(title: string, first: string, second: string)
    requires |title| <= 1000 && |first| == 2984 == |second| && !IsTruncated(first)
    requires !IsTruncated(DocumentHeader(title))
    ensures var pages := [Page(PageHeading("", "1"), first), Page(PageHeading("", "2"), second)];
      var context := StepContext([Doc(DocumentHeader(title), pages)], 5000, 5000, MIN_PER_DOC);
      context == DocumentHeader(title) + PageHeading("", "1") + first && !IsTruncated(context)
  {
    var p := Page(PageHeading("", "1"), first);
    var pages := [p, Page(PageHeading("", "2"), second)];
    var header := DocumentHeader(title);
    FirstPageOnly(pages, |header|);
    var packed := PackPages(pages, |header|, 5000, 5000);
    OneDocument(Doc(header, pages), 5000, MIN_PER_DOC);
    ConcatAppend([header], packed.parts);
    ConcatPair([], p.heading, p.content);
    assert [] + [p.heading, p.content] == packed.parts && [header][..0] == [];
    HeadingsFramed(title, "", "1");
    HeadingQuiet();
    QuietPage(header, p);
  }

  lemma FirstPageOnly(pages: seq<Page>, base: nat)
    requires |pages| == 2 && Size(pages[0]) == 3000 == Size(pages[1]) && base <= 2000
    ensures PackPages(pages, base, 5000, 5000).parts == [pages[0].heading, pages[0].content]
  {
    var p := pages[0];
    var st := Packed([p.heading, p.content], 3000, 1, false);
    assert pages[1..] == [pages[1]] && [] + [p.heading, p.content] == st.parts;
    assert PackFrom([pages[1]], st, base, 5000, 5000) == st;
  }

  lemma OneDocument(doc: Doc, limit: nat, minPerDoc: nat)
    requires |doc.header| <= limit
    ensures MergedText([doc], limit, minPerDoc) ==
            Concat([doc.header] + PackPages(doc.pages, |doc.header|, limit, limit).parts)
  {
    var next := Next(Merge([], 0, []), doc, limit, limit);
    assert [doc][1..] == [];
    assert MergeDocs([], next, limit, limit) == next;
    SingleDocumentFits(doc, limit, minPerDoc);
    assert [] + [doc.header] == [doc.header];
    MergedPartsSound([doc], limit, minPerDoc);
    MergedTextBound([doc], limit, minPerDoc);
  }

  lemma HeadingQuiet()
    ensures !IsTruncated(PageHeading("", "1"))
  {
    var text := PageHeading("", "1");
    assert forall k :: 0 <= k < |text| ==> text[k] != '[' && text[k] != '(';
    forall i, j: nat | 0 <= i < |MARKERS| ensures !OccursAt(text, MARKERS[i], j) {
      MarkerShape(i);
      NotAt(text, MARKERS[i], j);
    }
  }

  /** A document is left out whole, and nothing says so, exactly when its header or one before
      it does not fit and no document is cut. */
  lemma DroppedUnseenIff(docs: seq<Doc>, quota: nat, left: nat, minPerDoc: nat, i: nat)
    requires AllPlain(docs) && i < |docs|
    ensures var limit := Min(quota, left);
      |MergedParts(docs, limit, minPerDoc).docs| <= i && !IsTruncated(StepContext(docs, quota, left, minPerDoc))
      <==> !Reached(docs, i, PerDocument(|docs|, limit, minPerDoc), limit) && !CutBySizes(docs, limit, minPerDoc)
  {
    StepSeenIff(docs, quota, left, minPerDoc);
    DocumentReachedIff(docs, Min(quota, left), minPerDoc, i);
  }

  lemma TwoPagesSizes(p: Page, q: Page)
    ensures PrefixSize([p, q], 1) == Size(p) && PrefixSize([p, q], 2) == Size(p) + Size(q)
  {
    assert PrefixSize([p, q], 1) == PrefixSize([p, q], 0) + Size(p);
  }

  /** Two pages that fit are shown in full, and the document is not cut. */
  lemma TwoPagesFit(docs: seq<Doc>, i: nat, perDoc: nat, limit: nat)
    requires i < |docs| && |docs[i].pages| == 2
    requires var size := Size(docs[i].pages[0]) + Size(docs[i].pages[1]);
      size <= perDoc && Base(docs, i, perDoc, limit) + size <= limit
    ensures !CutDocument(docs, i, perDoc, limit)
    ensures CountedBefore(docs, i + 1, perDoc, limit) ==
            Base(docs, i, perDoc, limit) + Size(docs[i].pages[0]) + Size(docs[i].pages[1])
  {
    var pages, base := docs[i].pages, Base(docs, i, perDoc, limit);
    assert pages == [pages[0], pages[1]];
    TwoPagesSizes(pages[0], pages[1]);
    assert FullyShown(pages, 2, base, perDoc, limit);
    FullyShownUnique(pages, 2, FullCount(pages, 0, base, perDoc, limit), base, perDoc, limit);
  }

  /** Three documents under a limit of 10000 characters: the first two fill it, and the third
      is left out with all its pages. */
  lemma DocumentLeftOutUnseen(docs: seq<Doc>)
    requires |docs| == 3 && AllPlain(docs) && |docs[0].header| + |docs[1].header| <= 1000
    requires |docs[0].pages| == 2 && Size(docs[0].pages[0]) == 2500 == Size(docs[0].pages[1])
    requires |docs[1].pages| == 2 && Size(docs[1].pages[0]) == 2500
    requires Size(docs[1].pages[1]) == 2500 - |docs[0].header| - |docs[1].header|
    ensures |MergedParts(docs, 10000, MIN_PER_DOC).docs| == 2
    ensures !IsTruncated(StepContext(docs, 10000, 10000, MIN_PER_DOC))
  {
    assert PerDocument(3, 10000, MIN_PER_DOC) == 5000;
    TwoPagesFit(docs, 0, 5000, 10000);
    TwoPagesFit(docs, 1, 5000, 10000);
    assert Plain(docs[2]);
    assert Base(docs, 2, 5000, 10000) > 10000;
    DocumentReachedIff(docs, 10000, MIN_PER_DOC, 1);
    DroppedUnseenIff(docs, 10000, 10000, MIN_PER_DOC, 2);
    MergedPartsSound(docs, 10000, MIN_PER_DOC);
  }
}
