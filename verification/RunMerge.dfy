/** From page labels to section intervals: adjacent pages with one path become one
    interval, and the intervals are then widened to cover the whole document. */
module RunMerge {
  import opened Text
  import opened PageCoverage

  /** The structure entry of one page. Builds from bookmarks carry a short path; builds from
      text rules only the full one. */
  datatype Label = Label(page: int, shortPath: string, path: string, level: int, title: string)

  function Key(l: Label): string
  {
    if l.shortPath != "" then l.shortPath else l.path
  }

  predicate PagesAscend(labels: seq<Label>)
  {
    && (forall i :: 0 <= i < |labels| ==> 1 <= labels[i].page)
    && (forall i, j :: 0 <= i < j < |labels| ==> labels[i].page < labels[j].page)
  }

  function Opened(l: Label): Section
  {
    Section(Key(l), l.page, l.page, l.level, l.title, l.path)
  }

  /** A page extends the last section when it has its path, and opens a new one when it has
      another; pages without a path are passed over. */
  function AddLabel(before: seq<Section>, l: Label): seq<Section>
  {
    var k := |before| - 1;
    if Key(l) == "" then before
    else if k >= 0 && before[k].path == Key(l) then before[k := before[k].(end := l.page)]
    else before + [Opened(l)]
  }

  function Merged(labels: seq<Label>): seq<Section>
  {
    if labels == [] then []
    else AddLabel(Merged(labels[..|labels| - 1]), labels[|labels| - 1])
  }

  method MergePageRuns(labels: seq<Label>) returns (merged: seq<Section>)
    ensures merged == Merged(labels)
  {
    merged := [];
    var currentPath := "";
    var start, end, level := 0, 0, 0;
    var title, fullPath := "", "";
    for i := 0 to |labels|
      invariant currentPath == "" ==> merged == [] == Merged(labels[..i])
      invariant currentPath != "" ==>
        merged + [Section(currentPath, start, end, level, title, fullPath)] == Merged(labels[..i])
    {
      assert labels[..i + 1][..i] == labels[..i];
      var l := labels[i];
      var shortPath := if l.shortPath != "" then l.shortPath else l.path;
      if shortPath == "" {
        continue;
      }
      if shortPath == currentPath {
        end := l.page;
      } else {
        if currentPath != "" {
          merged := merged + [Section(currentPath, start, end, level, title, fullPath)];
        }
        currentPath := shortPath;
        start, end, level, title, fullPath := l.page, l.page, l.level, l.title, l.path;
      }
    }
    assert labels[..|labels|] == labels;
    if currentPath != "" {
      merged := merged + [Section(currentPath, start, end, level, title, fullPath)];
    }
  }

  predicate Alternating(ss: seq<Section>)
  {
    && (forall k :: 0 <= k < |ss| ==> ss[k].path != "")
    && (forall k :: 0 < k < |ss| ==> ss[k - 1].path != ss[k].path)
  }

  /** Ordered, alternating, and ending by page `m`. */
  predicate RunsUpTo(ss: seq<Section>, m: int)
  {
    Ordered(ss) && Alternating(ss) && (ss != [] ==> ss[|ss| - 1].end <= m)
  }

  lemma AddLabelKeepsRuns(before: seq<Section>, l: Label, m: int)
    requires RunsUpTo(before, m) && 1 <= l.page && m < l.page
    ensures RunsUpTo(AddLabel(before, l), l.page)
  {
    var after := AddLabel(before, l);
    forall i | 0 <= i < |before| ensures before[i].end < l.page {
      if i < |before| - 1 {
        assert before[i].end < before[|before| - 1].start;
      }
    }
    assert Ordered(after);
    assert Alternating(after);
  }

  /** The intervals are in page order and disjoint, neighbours carry different paths, and
      they end no later than the last page. */
  lemma {:induction false} MergedOrdered(labels: seq<Label>)
    requires PagesAscend(labels)
    ensures RunsUpTo(Merged(labels), if labels == [] then 0 else labels[|labels| - 1].page)
    decreases |labels|
  {
    if labels != [] {
      var init, l := labels[..|labels| - 1], labels[|labels| - 1];
      MergedOrdered(init);
      AddLabelKeepsRuns(Merged(init), l, if init == [] then 0 else init[|init| - 1].page);
    }
  }

  /** Pages without any path are in no run. */
  function Named(l: Label): seq<Label>
  {
    if l.shortPath == "" && l.path == "" then [] else [l]
  }

  function Same(run: seq<Label>): seq<Label> { run }

  /** The section of a run of labels of one path, the short one where there is one: from the
      first page to the last, described by the first. */
  predicate SectionOfRun(run: seq<Label>, s: Section)
  {
    && run != []
    && (forall k :: 0 <= k < |run| ==> s.path == if run[k].shortPath == "" then run[k].path else run[k].shortPath)
    && s == Section(s.path, run[0].page, run[|run| - 1].page, run[0].level, run[0].title, run[0].path)
  }

  predicate SectionsOfRuns(runs: seq<seq<Label>>, ss: seq<Section>)
  {
    |runs| == |ss| && forall k :: 0 <= k < |ss| ==> SectionOfRun(runs[k], ss[k])
  }

  lemma GrowRun(runs: seq<seq<Label>>, before: seq<Section>, l: Label)
    requires SectionsOfRuns(runs, before) && before != [] && before[|before| - 1].path == Key(l)
    ensures var k := |before| - 1;
      SectionsOfRuns(runs[k := runs[k] + [l]], before[k := before[k].(end := l.page)])
  {
    var k := |before| - 1;
    assert SectionOfRun(runs[k], before[k]);
    assert SectionOfRun(runs[k] + [l], before[k].(end := l.page));
  }

  lemma GrownRuns(runs: seq<seq<Label>>, l: Label)
    requires runs != []
    ensures var k := |runs| - 1; FlatMap(Same, runs[k := runs[k] + [l]]) == FlatMap(Same, runs) + [l]
  {
    var k := |runs| - 1;
    assert runs == runs[..k] + [runs[k]] && runs[k := runs[k] + [l]] == runs[..k] + [runs[k] + [l]];
    FlatMapSnoc(Same, runs[..k], runs[k]);
    FlatMapSnoc(Same, runs[..k], runs[k] + [l]);
    Assoc(FlatMap(Same, runs[..k]), runs[k], [l]);
  }

  lemma OpenRun(runs: seq<seq<Label>>, before: seq<Section>, l: Label)
    requires SectionsOfRuns(runs, before)
    ensures SectionsOfRuns(runs + [[l]], before + [Opened(l)])
  {
    assert SectionOfRun([l], Opened(l));
  }

  lemma AddLabelRuns(runs: seq<seq<Label>>, before: seq<Section>, l: Label) returns (runs': seq<seq<Label>>)
    requires SectionsOfRuns(runs, before)
    ensures FlatMap(Same, runs') == FlatMap(Same, runs) + Named(l) && SectionsOfRuns(runs', AddLabel(before, l))
  {
    var k := |before| - 1;
    if Key(l) == "" {
      runs' := runs;
      assert FlatMap(Same, runs) + [] == FlatMap(Same, runs);
    } else if k >= 0 && before[k].path == Key(l) {
      runs' := runs[k := runs[k] + [l]];
      GrownRuns(runs, l);
      GrowRun(runs, before, l);
    } else {
      runs' := runs + [[l]];
      FlatMapSnoc(Same, runs, [l]);
      OpenRun(runs, before, l);
    }
  }

  lemma AddLabelAlternates(before: seq<Section>, l: Label)
    requires Alternating(before)
    ensures Alternating(AddLabel(before, l))
  {
  }

  /** The labelled pages fall into consecutive runs of one path, one for each section; the
      section has the path of its run, ranges from the run's first page to its last, and takes
      level, title and full path from the first. Neighbours have different paths. */
  lemma {:induction false} MergedRuns(labels: seq<Label>) returns (runs: seq<seq<Label>>)
    ensures FlatMap(Same, runs) == FlatMap(Named, labels) && SectionsOfRuns(runs, Merged(labels))
    ensures Alternating(Merged(labels))
    decreases |labels|
  {
    if labels == [] {
      runs := [];
    } else {
      var k := |labels| - 1;
      runs := MergedRuns(labels[..k]);
      assert labels == labels[..k] + [labels[k]];
      FlatMapSnoc(Named, labels[..k], labels[k]);
      AddLabelAlternates(Merged(labels[..k]), labels[k]);
      runs := AddLabelRuns(runs, Merged(labels[..k]), labels[k]);
    }
  }

  predicate Carries(s: Section, l: Label)
  {
    s.path == Key(l) && s.start <= l.page <= s.end
  }

  lemma AddLabelCarriesNew(before: seq<Section>, l: Label, m: int) returns (k: int)
    requires RunsUpTo(before, m) && m < l.page && Key(l) != ""
    ensures 0 <= k < |AddLabel(before, l)| && Carries(AddLabel(before, l)[k], l)
  {
    k := |AddLabel(before, l)| - 1;
    if k == |before| - 1 {
      assert before[k].start <= before[k].end;
    }
  }

  lemma AddLabelKeepsCarried(before: seq<Section>, l: Label, k: int, q: Label)
    requires 0 <= k < |before| && Carries(before[k], q) && before[|before| - 1].end <= l.page
    ensures k < |AddLabel(before, l)| && Carries(AddLabel(before, l)[k], q)
  {
  }

  /** A labelled page lies in an interval with its path. */
  lemma {:induction false} LabelledPageInRun(labels: seq<Label>, i: int) returns (k: int)
    requires PagesAscend(labels) && 0 <= i < |labels| && Key(labels[i]) != ""
    ensures 0 <= k < |Merged(labels)| && Carries(Merged(labels)[k], labels[i])
    decreases |labels|
  {
    var init, l := labels[..|labels| - 1], labels[|labels| - 1];
    var m := if init == [] then 0 else init[|init| - 1].page;
    MergedOrdered(init);
    if i == |labels| - 1 {
      k := AddLabelCarriesNew(Merged(init), l, m);
    } else {
      k := LabelledPageInRun(init, i);
      AddLabelKeepsCarried(Merged(init), l, k, labels[i]);
    }
  }

  lemma OrderedApart(ss: seq<Section>, j: int, k: int)
    requires Ordered(ss) && 0 <= j < |ss| && 0 <= k < |ss|
    ensures j == k || ss[j].end < ss[k].start || ss[k].end < ss[j].start
  {
  }

  /** A labelled page lies in no interval with another path. */
  lemma LabelledPageInNoOtherRun(labels: seq<Label>, i: int, j: int)
    requires PagesAscend(labels) && 0 <= i < |labels| && Key(labels[i]) != ""
    requires 0 <= j < |Merged(labels)|
    requires Merged(labels)[j].start <= labels[i].page <= Merged(labels)[j].end
    ensures Merged(labels)[j].path == Key(labels[i])
  {
    MergedOrdered(labels);
    var ss := Merged(labels);
    var k := LabelledPageInRun(labels, i);
    OrderedApart(ss, j, k);
  }

  /** The two stages as the structure index is saved from page labels. */
  method SectionsOfPages(labels: seq<Label>, maxPage: int) returns (sections: seq<Section>)
    ensures sections == Coverage(Merged(labels), maxPage)
  {
    var merged := MergePageRuns(labels);
    sections := EnsurePageCoverage(merged, maxPage);
  }

  /** End to end: every page of the document is reachable through some section ... */
  lemma EveryPageReachable(labels: seq<Label>, maxPage: int)
    requires PagesAscend(labels) && 1 <= maxPage
    ensures forall p :: 1 <= p <= maxPage ==> Covered(Coverage(Merged(labels), maxPage), p)
  {
    MergedOrdered(labels);
    CoverageInvariant(Merged(labels), maxPage);
  }

  ghost predicate ReachableAs(sections: seq<Section>, l: Label)
  {
    exists j :: 0 <= j < |sections| && Carries(sections[j], l)
  }

  /** ... and every labelled page through a section carrying its own path. */
  lemma LabelledPageReachable(labels: seq<Label>, maxPage: int, i: int)
    requires PagesAscend(labels) && 1 <= maxPage
    requires 0 <= i < |labels| && Key(labels[i]) != ""
    ensures ReachableAs(Coverage(Merged(labels), maxPage), labels[i])
  {
    var merged := Merged(labels);
    var k := LabelledPageInRun(labels, i);
    MergedOrdered(labels);
    CoverageInvariant(merged, maxPage);
    var wide := Filled(merged, maxPage);
    assert Widens(wide[k], merged[k]);
    var r := Coverage(merged, maxPage);
    assert wide[k] in multiset(r);
    var j :| 0 <= j < |r| && r[j] == wide[k];
    assert Carries(r[j], labels[i]);
  }

  /** Merged page runs stay a partition after filling exactly when the first labelled page
      is page 1 or 2, or nothing else can be pulled down. */
  lemma PageRunsPartitionIff(labels: seq<Label>, maxPage: int)
    requires PagesAscend(labels) && 1 <= maxPage && Merged(labels) != []
    ensures Disjoint(Coverage(Merged(labels), maxPage)) <==>
            Merged(labels)[0].start <= 2 || |Merged(labels)| == 1 || maxPage == 1
  {
    MergedOrdered(labels);
    PartitionIff(Merged(labels), maxPage);
  }
}
