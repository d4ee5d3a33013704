/** Coverage of a document by its section intervals: pages no section claims are merged
    into a neighbouring section, so that every page can be reached through some section. */
module PageCoverage {
  import opened Numbers

  datatype Section = Section(path: string, start: int, end: int, level: int, title: string, fullPath: string)

  const DOCUMENT_BODY := "Document Body"
  const BODY_PATH := "_body"

  predicate Valid(ss: seq<Section>)
  {
    forall i :: 0 <= i < |ss| ==> ss[i].start <= ss[i].end
  }

  predicate Covered(ss: seq<Section>, p: int)
  {
    exists i :: 0 <= i < |ss| && ss[i].start <= p <= ss[i].end
  }

  /** `r` is `s` with a possibly wider interval. */
  predicate Widens(r: Section, s: Section)
  {
    r == s.(start := r.start, end := r.end) && r.start <= s.start && s.end <= r.end
  }

  predicate WidensAll(rs: seq<Section>, ss: seq<Section>)
  {
    |rs| == |ss| && forall i :: 0 <= i < |ss| ==> Widens(rs[i], ss[i])
  }

  // ---------- reference definitions ----------

  /** Index of the first section with the greatest end before `p`, or -1. */
  function LastBefore(ss: seq<Section>, p: int): (k: int)
    ensures -1 <= k < |ss|
    ensures k < 0 ==> forall j :: 0 <= j < |ss| ==> p <= ss[j].end
    ensures k >= 0 ==> ss[k].end < p
    ensures k >= 0 ==> forall j :: 0 <= j < |ss| && ss[j].end < p ==>
              ss[j].end <= ss[k].end && (j < k ==> ss[j].end < ss[k].end)
  {
    if ss == [] then -1
    else
      var n := |ss| - 1;
      var k := LastBefore(ss[..n], p);
      if ss[n].end < p && (k < 0 || ss[k].end < ss[n].end) then n else k
  }

  /** Index of the first section with the least start after `p`, or -1. */
  function FirstAfter(ss: seq<Section>, p: int): (k: int)
    ensures -1 <= k < |ss|
    ensures k < 0 ==> forall j :: 0 <= j < |ss| ==> ss[j].start <= p
    ensures k >= 0 ==> p < ss[k].start
    ensures k >= 0 ==> forall j :: 0 <= j < |ss| && p < ss[j].start ==>
              ss[k].start <= ss[j].start && (j < k ==> ss[k].start < ss[j].start)
  {
    if ss == [] then -1
    else
      var n := |ss| - 1;
      var k := FirstAfter(ss[..n], p);
      if p < ss[n].start && (k < 0 || ss[n].start < ss[k].start) then n else k
  }

  function FillGap(ss: seq<Section>, p: int): (r: seq<Section>)
    ensures |r| == |ss|
  {
    var k, n := LastBefore(ss, p), FirstAfter(ss, p);
    if k >= 0 && (n < 0 || p - ss[k].end <= ss[n].start - p) then ss[k := ss[k].(end := p)]
    else if n >= 0 then ss[n := ss[n].(start := p)]
    else ss
  }

  /** The pages of [1, m] no section covers, in order. */
  function GapsUpTo(ss: seq<Section>, m: int): seq<int>
    decreases m
  {
    if m < 1 then []
    else if Covered(ss, m) then GapsUpTo(ss, m - 1)
    else GapsUpTo(ss, m - 1) + [m]
  }

  function FillAll(ss: seq<Section>, gaps: seq<int>): (r: seq<Section>)
    ensures |r| == |ss|
    decreases |gaps|
  {
    if gaps == [] then ss else FillGap(FillAll(ss, gaps[..|gaps| - 1]), gaps[|gaps| - 1])
  }

  function InsertByStart(s: Section, sorted: seq<Section>): seq<Section>
  {
    if sorted == [] || s.start <= sorted[0].start then [s] + sorted
    else [sorted[0]] + InsertByStart(s, sorted[1..])
  }

  /** Stable ascending sort on the start page. */
  function SortByStart(ss: seq<Section>): seq<Section>
  {
    if ss == [] then [] else InsertByStart(ss[0], SortByStart(ss[1..]))
  }

  /** The sections after filling the gaps among pages 1..m, still in their original order. */
  function Filled(ss: seq<Section>, m: int): (r: seq<Section>)
    ensures |r| == |ss|
    decreases m
  {
    if m < 1 then ss
    else if Covered(ss, m) then Filled(ss, m - 1)
    else FillGap(Filled(ss, m - 1), m)
  }

  function Coverage(merged: seq<Section>, maxPage: int): seq<Section>
  {
    if maxPage < 1 then merged
    else if merged == [] then [Section(BODY_PATH, 1, maxPage, 1, DOCUMENT_BODY, BODY_PATH)]
    else SortByStart(Filled(merged, maxPage))
  }

  // ---------- the program ----------

  method CoveredPages(sections: seq<Section>) returns (covered: set<int>)
    ensures forall p :: p in covered <==> 1 <= p && Covered(sections, p)
  {
    covered := {};
    for i := 0 to |sections|
      invariant forall p :: p in covered <==> 1 <= p && Covered(sections[..i], p)
    {
      var s := sections[i];
      var first := if s.start < 1 then 1 else s.start;
      var p := first;
      while p < s.end + 1
        invariant first <= p && (first <= s.end + 1 ==> p <= s.end + 1) && (s.end + 1 < first ==> p == first)
        invariant forall q :: q in covered <==>
          1 <= q && (Covered(sections[..i], q) || (s.start <= q < p && q <= s.end))
      {
        covered := covered + {p};
        p := p + 1;
      }
      forall q ensures Covered(sections[..i + 1], q) <==> Covered(sections[..i], q) || s.start <= q <= s.end {
      }
    }
    assert sections[..|sections|] == sections;
  }

  lemma {:induction false} FillAllGaps(ss: seq<Section>, m: int)
    ensures FillAll(ss, GapsUpTo(ss, m)) == Filled(ss, m)
    decreases m
  {
    if m >= 1 {
      FillAllGaps(ss, m - 1);
      if !Covered(ss, m) {
        assert GapsUpTo(ss, m)[..|GapsUpTo(ss, m)| - 1] == GapsUpTo(ss, m - 1);
      }
    }
  }

  method EnsurePageCoverage(merged: seq<Section>, maxPage: int) returns (r: seq<Section>)
    ensures r == Coverage(merged, maxPage)
    ensures maxPage < 1 ==> r == merged
    ensures maxPage >= 1 && merged == [] ==> r == [Section("_body", 1, maxPage, 1, "Document Body", "_body")]
  {
    if maxPage < 1 {
      return merged;
    }
    if merged == [] {
      return [Section(BODY_PATH, 1, maxPage, 1, DOCUMENT_BODY, BODY_PATH)];
    }
    var sections := merged;
    var covered := CoveredPages(sections);
    var gaps := [];
    for p := 1 to maxPage + 1
      invariant gaps == GapsUpTo(merged, p - 1)
    {
      if p !in covered {
        gaps := gaps + [p];
      }
    }
    for g := 0 to |gaps|
      invariant sections == FillAll(merged, gaps[..g])
    {
      assert gaps[..g + 1][..g] == gaps[..g];
      var p := gaps[g];
      var prev := LastBefore(sections, p);
      var next := FirstAfter(sections, p);
      if prev >= 0 && next >= 0 {
        if p - sections[prev].end <= sections[next].start - p {
          sections := sections[prev := sections[prev].(end := p)];
        } else {
          sections := sections[next := sections[next].(start := p)];
        }
      } else if prev >= 0 {
        sections := sections[prev := sections[prev].(end := p)];
      } else if next >= 0 {
        sections := sections[next := sections[next].(start := p)];
      }
    }
    assert gaps[..|gaps|] == gaps;
    FillAllGaps(merged, maxPage);
    r := SortByStart(sections);
  }

  method CoverageInvariantHolds(merged: seq<Section>, maxPage: int) returns (ok: bool)
    ensures ok <==> forall p :: 1 <= p <= maxPage ==> Covered(merged, p)
  {
    if maxPage < 1 {
      return true;
    }
    var covered := CoveredPages(merged);
    ok := true;
    for p := 1 to maxPage + 1
      invariant ok <==> forall q :: 1 <= q < p ==> Covered(merged, q)
    {
      if p !in covered {
        ok := false;
      }
    }
  }

  // ---------- every page is covered, no section shrinks ----------

  lemma GapFilled(ss: seq<Section>, p: int)
    requires Valid(ss) && ss != []
    ensures var r := FillGap(ss, p);
      Valid(r) && WidensAll(r, ss) && Covered(r, p)
  {
    var r := FillGap(ss, p);
    var k, n := LastBefore(ss, p), FirstAfter(ss, p);
    if k >= 0 && r[k].end == p {
      assert r[k].start <= p <= r[k].end;
    } else if n >= 0 {
      assert r[n].start <= p <= r[n].end;
    } else {
      assert r[0].start <= p <= r[0].end;
    }
  }

  lemma {:induction false} FilledWidens(ss: seq<Section>, m: int)
    requires Valid(ss) && ss != []
    ensures Valid(Filled(ss, m)) && WidensAll(Filled(ss, m), ss)
    decreases m
  {
    if m >= 1 {
      FilledWidens(ss, m - 1);
      if !Covered(ss, m) {
        GapFilled(Filled(ss, m - 1), m);
      }
    }
  }

  lemma {:induction false} FilledCovers(ss: seq<Section>, m: int, p: int)
    requires Valid(ss) && ss != [] && 1 <= p <= m
    ensures Covered(Filled(ss, m), p)
    decreases m
  {
    FilledWidens(ss, m - 1);
    var before := Filled(ss, m - 1);
    if Covered(ss, m) {
      if p < m {
        FilledCovers(ss, m - 1, p);
      }
    } else {
      GapFilled(before, m);
      if p < m {
        FilledCovers(ss, m - 1, p);
      }
    }
  }

  // ---------- sorting ----------

  predicate SortedByStart(ss: seq<Section>)
  {
    forall i, j :: 0 <= i < j < |ss| ==> ss[i].start <= ss[j].start
  }

  /** The sections starting on one page, in sequence order. */
  function StartingAt(ss: seq<Section>, v: int): seq<Section>
  {
    if ss == [] then []
    else (if ss[0].start == v then [ss[0]] else []) + StartingAt(ss[1..], v)
  }

  lemma {:induction false} InsertPermutes(s: Section, ss: seq<Section>)
    ensures multiset(InsertByStart(s, ss)) == multiset{s} + multiset(ss)
    decreases |ss|
  {
    if ss != [] && ss[0].start < s.start {
      InsertPermutes(s, ss[1..]);
      assert ss == [ss[0]] + ss[1..];
    }
  }

  lemma {:induction false} InsertSorts(s: Section, ss: seq<Section>)
    requires SortedByStart(ss)
    ensures SortedByStart(InsertByStart(s, ss))
    decreases |ss|
  {
    if ss != [] && ss[0].start < s.start {
      InsertSorts(s, ss[1..]);
      InsertPermutes(s, ss[1..]);
      var r := InsertByStart(s, ss[1..]);
      forall j | 0 <= j < |r| ensures ss[0].start <= r[j].start {
        assert r[j] in multiset(r);
        assert r[j] == s || r[j] in ss[1..];
      }
    }
  }

  lemma {:induction false} InsertStable(s: Section, ss: seq<Section>, v: int)
    ensures StartingAt(InsertByStart(s, ss), v) == StartingAt([s] + ss, v)
    decreases |ss|
  {
    assert ([s] + ss)[1..] == ss;
    if ss != [] && ss[0].start < s.start {
      InsertStable(s, ss[1..], v);
      assert ([s] + ss[1..])[1..] == ss[1..];
      var r := InsertByStart(s, ss[1..]);
      assert ([ss[0]] + r)[1..] == r;
    }
  }

  /** A stable sort: a permutation, ascending, and sections with one start keep their order. */
  lemma {:induction false} SortCorrect(ss: seq<Section>, v: int)
    ensures SortedByStart(SortByStart(ss))
    ensures multiset(SortByStart(ss)) == multiset(ss)
    ensures StartingAt(SortByStart(ss), v) == StartingAt(ss, v)
    decreases |ss|
  {
    if ss != [] {
      SortCorrect(ss[1..], v);
      var tail := SortByStart(ss[1..]);
      InsertSorts(ss[0], tail);
      InsertPermutes(ss[0], tail);
      InsertStable(ss[0], tail, v);
      assert ss == [ss[0]] + ss[1..];
      assert ([ss[0]] + tail)[1..] == tail;
    }
  }

  lemma {:induction false} SortKeepsSorted(ss: seq<Section>)
    requires SortedByStart(ss)
    ensures SortByStart(ss) == ss
    decreases |ss|
  {
    if ss != [] {
      SortKeepsSorted(ss[1..]);
      if |ss| > 1 {
        assert ss[0].start <= ss[1].start;
      }
      assert ss == [ss[0]] + ss[1..];
    }
  }

  lemma CoveredByPermutation(rs: seq<Section>, ss: seq<Section>, p: int)
    requires multiset(rs) == multiset(ss) && Covered(ss, p)
    ensures Covered(rs, p)
  {
    var i :| 0 <= i < |ss| && ss[i].start <= p <= ss[i].end;
    assert ss[i] in multiset(rs);
    var j :| 0 <= j < |rs| && rs[j] == ss[i];
  }

  /** The coverage invariant. For any non-empty list of intervals the result is sorted,
      covers every page, and is a rearrangement of the input sections each of which kept
      its labels and at least its own pages. */
  lemma CoverageInvariant(merged: seq<Section>, maxPage: int)
    requires Valid(merged) && 1 <= maxPage
    ensures forall p :: 1 <= p <= maxPage ==> Covered(Coverage(merged, maxPage), p)
    ensures SortedByStart(Coverage(merged, maxPage))
    ensures merged != [] ==>
      && multiset(Coverage(merged, maxPage)) == multiset(Filled(merged, maxPage))
      && WidensAll(Filled(merged, maxPage), merged)
    ensures |Coverage(merged, maxPage)| == if merged == [] then 1 else |merged|
  {
    if merged == [] {
      assert Coverage(merged, maxPage)[0].start == 1;
    } else {
      FilledWidens(merged, maxPage);
      SortCorrect(Filled(merged, maxPage), 0);
      assert |multiset(Coverage(merged, maxPage))| == |merged|;
      forall p | 1 <= p <= maxPage ensures Covered(Coverage(merged, maxPage), p) {
        FilledCovers(merged, maxPage, p);
        CoveredByPermutation(Coverage(merged, maxPage), Filled(merged, maxPage), p);
      }
    }
  }

  // ---------- the "following section is closer" branch ----------

  lemma FillGapEnd(ss: seq<Section>, p: int, i: int)
    requires 0 <= i < |ss|
    ensures FillGap(ss, p)[i].end == ss[i].end || ss[i].end < FillGap(ss, p)[i].end == p
  {
  }

  lemma {:induction false} EndGrowsToFilledPage(ss: seq<Section>, m: int, i: int)
    requires 0 <= m && 0 <= i < |ss|
    ensures ss[i].end == Filled(ss, m)[i].end || ss[i].end < Filled(ss, m)[i].end <= m
    decreases m
  {
    if m >= 1 {
      EndGrowsToFilledPage(ss, m - 1, i);
      FillGapEnd(Filled(ss, m - 1), m, i);
    }
  }

  lemma {:induction false} PrecedingSectionAdjacent(ss: seq<Section>, p: int, i: int) returns (j: int)
    requires Valid(ss) && forall j :: 0 <= j < |ss| ==> 1 <= ss[j].start
    requires 1 <= p && !Covered(ss, p)
    requires 0 <= i < |ss| && Filled(ss, p - 1)[i].end < p
    ensures 0 <= j < |ss| && Filled(ss, p - 1)[j].end == p - 1
    decreases p
  {
    EndGrowsToFilledPage(ss, p - 1, i);
    assert 1 <= ss[i].start <= ss[i].end < p;
    if Covered(ss, p - 1) {
      j :| 0 <= j < |ss| && ss[j].start <= p - 1 <= ss[j].end;
      assert ss[j].end == p - 1;
      EndGrowsToFilledPage(ss, p - 1, j);
    } else {
      j := AdjacentAfterGap(ss, p, i);
    }
  }

  lemma {:induction false} AdjacentAfterGap(ss: seq<Section>, p: int, i: int) returns (j: int)
    requires Valid(ss) && forall j :: 0 <= j < |ss| ==> 1 <= ss[j].start
    requires 2 <= p && !Covered(ss, p - 1)
    requires 0 <= i < |ss| && ss[i].end < p
    ensures 0 <= j < |ss| && Filled(ss, p - 1)[j].end == p - 1
    decreases p, 0
  {
    StillBefore(ss, p - 1, i);
    var a := PrecedingSectionAdjacent(ss, p - 1, i);
    j := GapJoins(ss, p - 1, a);
  }

  lemma StillBefore(ss: seq<Section>, p: int, i: int)
    requires Valid(ss) && 1 <= p && !Covered(ss, p) && 0 <= i < |ss| && ss[i].end <= p
    ensures Filled(ss, p - 1)[i].end < p
  {
    EndGrowsToFilledPage(ss, p - 1, i);
  }

  lemma GapJoins(ss: seq<Section>, p: int, a: int) returns (j: int)
    requires 1 <= p && !Covered(ss, p) && 0 <= a < |ss| && Filled(ss, p - 1)[a].end == p - 1
    ensures 0 <= j < |ss| && Filled(ss, p)[j].end == p
  {
    j := AdjacentJoins(Filled(ss, p - 1), p, a);
  }

  lemma AdjacentJoins(before: seq<Section>, p: int, a: int) returns (j: int)
    requires 0 <= a < |before| && before[a].end == p - 1
    ensures 0 <= j < |before| && FillGap(before, p)[j].end == p
  {
    j := LastBefore(before, p);
  }

  /** Whenever a gap page has a preceding section, that section ends on the page just
      before it, so the page always joins the preceding section. */
  lemma FollowingNeverCloser(ss: seq<Section>, p: int)
    requires Valid(ss) && forall j :: 0 <= j < |ss| ==> 1 <= ss[j].start
    requires 1 <= p && !Covered(ss, p)
    requires LastBefore(Filled(ss, p - 1), p) >= 0
    ensures var cur := Filled(ss, p - 1);
      var k := LastBefore(cur, p);
      && cur[k].end == p - 1
      && Filled(ss, p) == cur[k := cur[k].(end := p)]
  {
    var cur := Filled(ss, p - 1);
    var k := LastBefore(cur, p);
    var j := PrecedingSectionAdjacent(ss, p, k);
    assert cur[j].end == p - 1;
  }

  // ---------- closed form for disjoint sections ----------

  /** Sections as run merging produces them: in page order, without overlap. */
  predicate Ordered(ss: seq<Section>)
  {
    && (forall i :: 0 <= i < |ss| ==> 1 <= ss[i].start <= ss[i].end)
    && (forall i, j :: 0 <= i < j < |ss| ==> ss[i].end < ss[j].start)
  }

  /** What section `i` becomes once the gaps among pages 1..m are filled: it extends up to
      the next section's start, and while page i + 1 lies before every section, section i
      is pulled down to it. */
  function Extended(ss: seq<Section>, m: int, i: int): Section
    requires 0 <= i < |ss|
  {
    var last := if i + 1 < |ss| then Min(ss[i + 1].start - 1, m) else m;
    ss[i].(start := if i + 1 < ss[0].start && i + 1 <= m then i + 1 else ss[i].start,
           end := Max(ss[i].end, last))
  }

  function ExtendedAll(ss: seq<Section>, m: int): seq<Section>
  {
    seq(|ss|, i requires 0 <= i < |ss| => Extended(ss, m, i))
  }

  lemma CoveredPageStep(ss: seq<Section>, p: int)
    requires Ordered(ss) && 1 <= p && Covered(ss, p)
    ensures ExtendedAll(ss, p) == ExtendedAll(ss, p - 1)
  {
    var k :| 0 <= k < |ss| && ss[k].start <= p <= ss[k].end;
    assert ss[0].start <= p;
    forall i | 0 <= i < |ss| ensures Extended(ss, p, i) == Extended(ss, p - 1, i) {
      if k < i {
        assert ss[k].end < ss[i].start;
      } else if i < k {
        assert i + 1 < k ==> ss[i + 1].end < ss[k].start;
        assert ss[i + 1].start <= ss[k].start;
      }
    }
  }

  lemma LeadingGapStep(ss: seq<Section>, p: int)
    requires Ordered(ss) && ss != [] && 1 <= p < ss[0].start
    ensures FillGap(ExtendedAll(ss, p - 1), p) == ExtendedAll(ss, p)
  {
    var cur, next := ExtendedAll(ss, p - 1), ExtendedAll(ss, p);
    forall i | 0 <= i < |ss|
      ensures p < cur[i].end && p < ss[i].start
      ensures cur[i].start == if i < p - 1 then i + 1 else ss[i].start
      ensures next[i] == if i == p - 1 then cur[i].(start := p) else cur[i]
    {
    }
    LeadingGapPull(ss, cur, next, p);
  }

  lemma LeadingGapPull(ss: seq<Section>, cur: seq<Section>, next: seq<Section>, p: int)
    requires Ordered(ss) && |cur| == |next| == |ss| && 1 <= p
    requires forall i :: 0 <= i < |ss| ==> p < cur[i].end && p < ss[i].start
    requires forall i :: 0 <= i < |ss| ==> cur[i].start == if i < p - 1 then i + 1 else ss[i].start
    requires forall i :: 0 <= i < |ss| ==> next[i] == if i == p - 1 then cur[i].(start := p) else cur[i]
    ensures FillGap(cur, p) == next
  {
    assert LastBefore(cur, p) < 0;
    if p - 1 < |ss| {
      forall i | 0 <= i < |ss| && i != p - 1 ensures cur[i].start <= p || cur[p - 1].start < cur[i].start {
        assert p - 1 < i ==> ss[p - 1].end < ss[i].start;
      }
      assert next == cur[p - 1 := cur[p - 1].(start := p)];
    } else {
      assert FirstAfter(cur, p) < 0;
      assert next == cur;
    }
  }

  lemma InnerGapStep(ss: seq<Section>, p: int, j: int)
    requires Ordered(ss) && 0 <= j < |ss| && 1 <= p
    requires ss[j].end < p && (j + 1 < |ss| ==> p < ss[j + 1].start)
    ensures FillGap(ExtendedAll(ss, p - 1), p) == ExtendedAll(ss, p)
  {
    var cur, next := ExtendedAll(ss, p - 1), ExtendedAll(ss, p);
    forall i | 0 <= i < |ss|
      ensures i < j ==> cur[i].end < p - 1 && next[i] == cur[i]
      ensures i > j ==> p < cur[i].end && next[i] == cur[i]
      ensures i == j ==> cur[i].end == p - 1 && next[i] == cur[i].(end := p)
    {
    }
    assert next == cur[j := cur[j].(end := p)];
  }

  lemma {:induction false} LocateGap(ss: seq<Section>, p: int, n: nat) returns (j: int)
    requires Ordered(ss) && !Covered(ss, p) && 0 < n <= |ss| && ss[0].start <= p
    ensures 0 <= j < n && ss[j].end < p && (j + 1 < n ==> p < ss[j + 1].start)
    decreases n
  {
    if ss[n - 1].start <= p {
      j := n - 1;
    } else {
      j := LocateGap(ss, p, n - 1);
    }
  }

  /** The page-by-page greedy loop computes a forward fill that can be written down
      directly, for any ordered disjoint sections. */
  lemma {:induction false} ForwardFill(ss: seq<Section>, m: int)
    requires Ordered(ss) && ss != [] && 0 <= m
    ensures Filled(ss, m) == ExtendedAll(ss, m)
    decreases m
  {
    if m == 0 {
      assert ExtendedAll(ss, 0) == ss;
    } else {
      ForwardFill(ss, m - 1);
      if Covered(ss, m) {
        CoveredPageStep(ss, m);
      } else if m < ss[0].start {
        LeadingGapStep(ss, m);
      } else {
        var j := LocateGap(ss, m, |ss|);
        InnerGapStep(ss, m, j);
      }
    }
  }

  lemma ExtendedSorted(ss: seq<Section>, m: int)
    requires Ordered(ss)
    ensures SortedByStart(ExtendedAll(ss, m))
  {
    forall i, j | 0 <= i < j < |ss| ensures Extended(ss, m, i).start <= Extended(ss, m, j).start {
      assert ss[i].end < ss[j].start;
      assert ss[0].start <= ss[i].start;
    }
  }

  /** For ordered disjoint sections the whole operation is the forward fill; the final sort
      changes nothing. */
  lemma CoverageClosedForm(ss: seq<Section>, maxPage: int)
    requires Ordered(ss) && ss != [] && 1 <= maxPage
    ensures Coverage(ss, maxPage) == ExtendedAll(ss, maxPage)
  {
    ForwardFill(ss, maxPage);
    ExtendedSorted(ss, maxPage);
    SortKeepsSorted(ExtendedAll(ss, maxPage));
  }

  predicate Disjoint(ss: seq<Section>)
  {
    forall i, j :: 0 <= i < j < |ss| ==> ss[i].end < ss[j].start
  }

  lemma ExtendedApart(ss: seq<Section>, m: int, i: int, j: int)
    requires Ordered(ss) && 0 <= i < j < |ss| && 1 <= m
    requires ss[0].start <= 2 || m == 1
    ensures Extended(ss, m, i).end < Extended(ss, m, j).start
  {
    assert ss[i].end < ss[i + 1].start;
    if i + 1 < j {
      assert ss[i + 1].end < ss[j].start;
    }
  }

  /** Filling keeps ordered sections disjoint, hence a partition of the pages, exactly when
      at most one page precedes the first section, or there is nothing to pull down. */
  lemma PartitionIff(ss: seq<Section>, maxPage: int)
    requires Ordered(ss) && ss != [] && 1 <= maxPage
    ensures Disjoint(Coverage(ss, maxPage)) <==> ss[0].start <= 2 || |ss| == 1 || maxPage == 1
  {
    CoverageClosedForm(ss, maxPage);
    var r := ExtendedAll(ss, maxPage);
    if ss[0].start <= 2 || |ss| == 1 || maxPage == 1 {
      forall i, j | 0 <= i < j < |ss| ensures r[i].end < r[j].start {
        ExtendedApart(ss, maxPage, i, j);
      }
    } else {
      assert r[1].start <= r[0].end;
    }
  }
}
