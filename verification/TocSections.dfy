/** Section ranges built from a document's table of contents. Entries arrive cleaned: each
    has its page inside the document, a level of at least 1, a path and a title. A section
    reaches from its entry's page to the page of the next entry at its level or above, and
    shares that page with it. */
module TocSections {
  import opened Numbers
  import opened PageCoverage

  datatype Entry = Entry(page: int, level: int, path: string, title: string)

  predicate WellPlaced(entries: seq<Entry>, maxPage: int)
  {
    forall i :: 0 <= i < |entries| ==> 1 <= entries[i].page <= maxPage
  }

  predicate PagesNonDecreasing(entries: seq<Entry>)
  {
    forall i, j :: 0 <= i < j < |entries| ==> entries[i].page <= entries[j].page
  }

  // ---------- full display paths ----------

  /** The path without its last dotted component; empty when there is no dot. */
  function ParentPath(path: string): (p: string)
    ensures path != "" ==> |p| < |path|
    ensures p <= path
  {
    if path == "" then ""
    else if path[|path| - 1] == '.' then path[..|path| - 1]
    else ParentPath(path[..|path| - 1])
  }

  /** A dotted path is its parent's path, a dot and one component without dots. A path without
      a dot has no parent. */
  lemma {:induction false} ParentPathIff(path: string)
    ensures '.' !in path ==> ParentPath(path) == ""
    ensures '.' in path ==>
      |ParentPath(path)| < |path| && path[|ParentPath(path)|] == '.' && '.' !in path[|ParentPath(path)| + 1..]
    decreases |path|
  {
    if path != "" && path[|path| - 1] != '.' {
      var n := |path| - 1;
      ParentPathIff(path[..n]);
      assert path == path[..n] + [path[n]];
      if '.' in path {
        var m := |ParentPath(path)|;
        assert path[m + 1..] == path[..n][m + 1..] + [path[n]];
      }
    }
  }

  ghost predicate KeyedByPath(pm: map<string, Entry>)
  {
    forall k :: k in pm ==> pm[k].path == k
  }

  /** Later entries replace earlier ones with the same path. */
  function PathMap(entries: seq<Entry>): (pm: map<string, Entry>)
    ensures KeyedByPath(pm)
  {
    if entries == [] then map[]
    else
      var e := entries[|entries| - 1];
      PathMap(entries[..|entries| - 1])[e.path := e]
  }

  /** Under each path the last entry that has it. */
  lemma {:induction false} PathMapLast(entries: seq<Entry>, path: string)
    ensures path in PathMap(entries) <==> exists i :: 0 <= i < |entries| && entries[i].path == path
    ensures forall i :: 0 <= i < |entries| && entries[i].path == path
                        && (forall j :: i < j < |entries| ==> entries[j].path != path) ==>
      path in PathMap(entries) && PathMap(entries)[path] == entries[i]
    decreases |entries|
  {
    if entries != [] {
      var n := |entries| - 1;
      PathMapLast(entries[..n], path);
      assert forall i :: 0 <= i < n ==> entries[..n][i] == entries[i];
    }
  }

  function Parent(e: Entry, pm: map<string, Entry>): (p: seq<Entry>)
    requires KeyedByPath(pm)
    ensures |p| <= 1
    ensures p != [] ==> |p[0].path| < |e.path|
  {
    var parent := ParentPath(e.path);
    if parent != "" && parent in pm then [pm[parent]] else []
  }

  /** The listed ancestors of an entry, outermost first, then the entry. */
  function Lineage(e: Entry, pm: map<string, Entry>): seq<Entry>
    requires KeyedByPath(pm)
    decreases |e.path|
  {
    var p := Parent(e, pm);
    (if p == [] then [] else Lineage(p[0], pm)) + [e]
  }

  function Display(e: Entry): string { e.path + " " + e.title }

  function JoinArrows(es: seq<Entry>): string
  {
    if es == [] then ""
    else if |es| == 1 then Display(es[0])
    else Display(es[0]) + " > " + JoinArrows(es[1..])
  }

  method BuildPathMap(entries: seq<Entry>) returns (pm: map<string, Entry>)
    ensures pm == PathMap(entries)
  {
    pm := map[];
    for i := 0 to |entries|
      invariant pm == PathMap(entries[..i])
    {
      assert entries[..i + 1][..i] == entries[..i];
      pm := pm[entries[i].path := entries[i]];
    }
    assert entries[..|entries|] == entries;
  }

  /** The walk to the root terminates because every parent path is strictly shorter. */
  method BuildFullPath(entry: Entry, pm: map<string, Entry>) returns (full: string)
    requires KeyedByPath(pm)
    ensures full == FullPath(entry, pm)
  {
    var parts: seq<Entry> := [];
    var current := entry;
    while true
      invariant Lineage(entry, pm) == Lineage(current, pm) + parts
      decreases |current.path|
    {
      parts := [current] + parts;
      var parentPath := ParentPath(current.path);
      if parentPath != "" && parentPath in pm {
        current := pm[parentPath];
      } else {
        break;
      }
    }
    assert parts == Lineage(entry, pm);
    full := if |parts| > 1 then JoinArrows(parts) else entry.path + " " + entry.title;
  }

  /** A lineage starts at an entry without a listed parent, steps from parent to child, and
      ends at the entry. */
  lemma {:induction false} LineageIsChain(e: Entry, pm: map<string, Entry>)
    requires KeyedByPath(pm)
    ensures var l := Lineage(e, pm);
      && l != [] && l[|l| - 1] == e
      && Parent(l[0], pm) == []
      && (forall i :: 0 < i < |l| ==> Parent(l[i], pm) == [l[i - 1]])
    decreases |e.path|
  {
    var p := Parent(e, pm);
    if p != [] {
      LineageIsChain(p[0], pm);
    }
  }

  lemma {:induction false} JoinArrowsSnoc(es: seq<Entry>, e: Entry)
    requires es != []
    ensures JoinArrows(es + [e]) == JoinArrows(es) + " > " + Display(e)
    decreases |es|
  {
    assert (es + [e])[1..] == es[1..] + [e];
    if |es| == 1 {
      assert es[1..] + [e] == [e];
    } else {
      JoinArrowsSnoc(es[1..], e);
    }
  }

  function FullPath(e: Entry, pm: map<string, Entry>): string
    requires KeyedByPath(pm)
  {
    JoinArrows(Lineage(e, pm))
  }

  /** The displayed path is that of the listed parent, if any, an arrow, and the entry's own
      path and title. */
  lemma FullPathExtends(e: Entry, pm: map<string, Entry>)
    requires KeyedByPath(pm)
    ensures var parent := ParentPath(e.path);
      FullPath(e, pm) ==
        if parent != "" && parent in pm then FullPath(pm[parent], pm) + " > " + e.path + " " + e.title
        else e.path + " " + e.title
  {
    var p := Parent(e, pm);
    if p == [] {
      assert Lineage(e, pm) == [e];
    } else {
      LineageIsChain(p[0], pm);
      JoinArrowsSnoc(Lineage(p[0], pm), e);
      assert FullPath(p[0], pm) + " > " + (e.path + " " + e.title) ==
        FullPath(p[0], pm) + " > " + e.path + " " + e.title;
    }
  }

  // ---------- section ranges ----------

  /** Index of the next entry at this level or above, or the number of entries. */
  function NextAtLevel(entries: seq<Entry>, from: int, level: int): (j: int)
    requires 0 <= from <= |entries|
    ensures from <= j <= |entries|
    ensures forall k :: from <= k < j ==> level < entries[k].level
    ensures j < |entries| ==> entries[j].level <= level
    decreases |entries| - from
  {
    if from == |entries| || entries[from].level <= level then from
    else NextAtLevel(entries, from + 1, level)
  }

  function EndPage(entries: seq<Entry>, i: int, maxPage: int): int
    requires 0 <= i < |entries|
  {
    var start := entries[i].page;
    var j := NextAtLevel(entries, i + 1, entries[i].level);
    var end := if j == |entries| then maxPage else if entries[j].page > start then entries[j].page else start;
    Max(start, Min(end, maxPage))
  }

  function SectionOf(entries: seq<Entry>, i: int, maxPage: int): Section
    requires 0 <= i < |entries|
  {
    var e := entries[i];
    Section(e.path, e.page, EndPage(entries, i, maxPage), e.level, e.title,
            FullPath(e, PathMap(entries)))
  }

  function Sections(entries: seq<Entry>, maxPage: int): (sections: seq<Section>)
    ensures |sections| == |entries|
  {
    seq(|entries|, i requires 0 <= i < |entries| => SectionOf(entries, i, maxPage))
  }

  method BuildExplicitSections(entries: seq<Entry>, maxPage: int) returns (sections: seq<Section>)
    ensures sections == Sections(entries, maxPage)
  {
    var pm := BuildPathMap(entries);
    sections := [];
    for i := 0 to |entries|
      invariant |sections| == i
      invariant forall k :: 0 <= k < i ==> sections[k] == SectionOf(entries, k, maxPage)
    {
      var entry := entries[i];
      var end := maxPage;
      var j := i + 1;
      while j < |entries|
        invariant i + 1 <= j <= |entries| && end == maxPage
        invariant NextAtLevel(entries, i + 1, entry.level) == NextAtLevel(entries, j, entry.level)
      {
        if entries[j].level <= entry.level {
          end := if entries[j].page > entry.page then entries[j].page else entry.page;
          break;
        }
        j := j + 1;
      }
      end := Max(entry.page, Min(end, maxPage));
      var full := BuildFullPath(entry, pm);
      sections := sections + [Section(entry.path, entry.page, end, entry.level, entry.title, full)];
    }
  }

  /** The entry that labels a page: the last one before the first entry that starts later. */
  function BestIndex(entries: seq<Entry>, page: int): (k: int)
    ensures -1 <= k < |entries|
    ensures forall i :: 0 <= i <= k ==> entries[i].page <= page
    ensures k + 1 < |entries| ==> page < entries[k + 1].page
  {
    if entries == [] || page < entries[0].page then -1
    else 1 + BestIndex(entries[1..], page)
  }

  method BestEntry(entries: seq<Entry>, page: int) returns (best: int)
    ensures best == BestIndex(entries, page)
  {
    best := -1;
    for i := 0 to |entries|
      invariant best == i - 1
      invariant BestIndex(entries, page) == i + BestIndex(entries[i..], page)
    {
      if entries[i].page <= page {
        best := i;
      } else {
        break;
      }
      assert entries[i..][1..] == entries[i + 1..];
    }
  }

  // ---------- what the ranges promise ----------

  /** The first entry after `i` at the level of `i` or above, or the number of entries. */
  predicate EndsAt(entries: seq<Entry>, i: int, n: int)
    requires 0 <= i < |entries|
  {
    && i < n <= |entries| && (forall k :: i < k < n ==> entries[i].level < entries[k].level)
    && (n < |entries| ==> entries[n].level <= entries[i].level)
  }

  lemma EndsAtIff(entries: seq<Entry>, i: int, n: int)
    requires 0 <= i < |entries|
    ensures EndsAt(entries, i, n) <==> n == NextAtLevel(entries, i + 1, entries[i].level)
  {
  }

  /** A section is its entry's: it starts on the entry's page, lies inside the document, and
      reaches to the page of the next entry at its level or above, if that is not before its
      start, or to the end of the document. */
  lemma {:induction false} SectionFields(entries: seq<Entry>, i: int, n: int, maxPage: int)
    requires WellPlaced(entries, maxPage) && 0 <= i < |entries| && EndsAt(entries, i, n)
    ensures var s, e := Sections(entries, maxPage)[i], entries[i];
      && s.path == e.path && s.level == e.level && s.title == e.title
      && s.fullPath == FullPath(e, PathMap(entries))
      && s.start == e.page && 1 <= s.start <= s.end <= maxPage
      && s.end == if n == |entries| then maxPage else Max(s.start, entries[n].page)
  {
    EndsAtIff(entries, i, n);
  }

  /** `j` lies below `i`: everything after `i` up to `j` is at a deeper level than `i`. */
  predicate Below(entries: seq<Entry>, i: int, j: int)
    requires 0 <= i < |entries|
  {
    i < j < |entries| && forall k :: i < k <= j ==> entries[i].level < entries[k].level
  }

  lemma BelowIff(entries: seq<Entry>, i: int, j: int)
    requires 0 <= i < |entries| && i < j < |entries|
    ensures Below(entries, i, j) <==> j < NextAtLevel(entries, i + 1, entries[i].level)
  {
    var n := NextAtLevel(entries, i + 1, entries[i].level);
    if n <= j {
      assert entries[n].level <= entries[i].level;
    }
  }

  predicate Inside(s: Section, t: Section) { t.start <= s.start && s.end <= t.end }

  /** A section's range lies inside the range of every section above it. */
  lemma RangesNest(entries: seq<Entry>, i: int, j: int, maxPage: int)
    requires WellPlaced(entries, maxPage) && PagesNonDecreasing(entries)
    requires 0 <= i < |entries| && Below(entries, i, j)
    ensures var sections := Sections(entries, maxPage); Inside(sections[j], sections[i])
  {
    var ni := NextAtLevel(entries, i + 1, entries[i].level);
    var nj := NextAtLevel(entries, j + 1, entries[j].level);
    BelowIff(entries, i, j);
    assert entries[i].level < entries[j].level;
    if ni < |entries| {
      assert entries[ni].level < entries[j].level;
      assert nj <= ni;
    }
  }

  /** Any other later section starts no earlier than the last page of this one, so the two
      share at most that boundary page. Siblings are such a pair. */
  lemma RangesApart(entries: seq<Entry>, i: int, j: int, maxPage: int)
    requires WellPlaced(entries, maxPage) && PagesNonDecreasing(entries)
    requires 0 <= i < j < |entries| && !Below(entries, i, j)
    ensures var sections := Sections(entries, maxPage); sections[i].end <= sections[j].start
  {
    var ni := NextAtLevel(entries, i + 1, entries[i].level);
    BelowIff(entries, i, j);
    assert entries[i].page <= entries[ni].page;
  }

  predicate Contains(s: Section, page: int) { s.start <= page <= s.end }

  /** The entry that labels a page: the last one, such that it and all before it start no
      later. */
  predicate Labels(entries: seq<Entry>, k: int, page: int)
  {
    && 0 <= k < |entries| && (forall i :: 0 <= i <= k ==> entries[i].page <= page)
    && (k + 1 < |entries| ==> page < entries[k + 1].page)
  }

  lemma LabelsIff(entries: seq<Entry>, k: int, page: int)
    ensures Labels(entries, k, page) <==> 0 <= k && k == BestIndex(entries, page)
  {
  }

  /** The section whose title labels a page also contains it, and so does every section
      above that one. */
  lemma LabelAgreesWithRange(entries: seq<Entry>, page: int, maxPage: int, k: int, i: int)
    requires WellPlaced(entries, maxPage) && PagesNonDecreasing(entries) && page <= maxPage
    requires Labels(entries, k, page) && 0 <= i <= k && (i == k || Below(entries, i, k))
    ensures Contains(Sections(entries, maxPage)[i], page)
  {
    var n := NextAtLevel(entries, k + 1, entries[k].level);
    if n < |entries| {
      assert page < entries[k + 1].page <= entries[n].page;
    }
    if i != k {
      RangesNest(entries, i, k, maxPage);
    }
  }

  lemma LastStarting(entries: seq<Entry>, page: int, i: int) returns (k: int)
    requires 0 <= i < |entries| && entries[i].page <= page
    ensures 0 <= k < |entries| && entries[k].page <= page
    ensures forall j :: k < j < |entries| ==> page < entries[j].page
    decreases |entries| - i
  {
    k := i;
    if j :| i < j < |entries| && entries[j].page <= page {
      k := LastStarting(entries, page, j);
    }
  }

  predicate InSection(sections: seq<Section>, page: int)
  {
    exists k :: 0 <= k < |sections| && Contains(sections[k], page)
  }

  /** In whatever order entries come, a page of the document lies in a section exactly when
      some entry starts on it or before. So the pages before the first bookmark are in none. */
  lemma PageInSectionIff(entries: seq<Entry>, page: int, maxPage: int)
    requires WellPlaced(entries, maxPage) && page <= maxPage
    ensures InSection(Sections(entries, maxPage), page) <==> exists i :: 0 <= i < |entries| && entries[i].page <= page
  {
    if i :| 0 <= i < |entries| && entries[i].page <= page {
      var k := LastStarting(entries, page, i);
      var n := NextAtLevel(entries, k + 1, entries[k].level);
      assert n < |entries| ==> page < entries[n].page;
      assert Contains(Sections(entries, maxPage)[k], page);
    }
    if k :| 0 <= k < |entries| && Contains(Sections(entries, maxPage)[k], page) {
      assert entries[k].page <= page;
    }
  }

  /** Bookmarks that leave the first two pages in no section. */
  lemma FirstPagesUncovered()
    ensures var entries := [Entry(3, 1, "1", "a"), Entry(5, 1, "2", "b")];
      var sections := Sections(entries, 9);
      WellPlaced(entries, 9) && !InSection(sections, 1) && !InSection(sections, 2) && InSection(sections, 3)
  {
    var entries := [Entry(3, 1, "1", "a"), Entry(5, 1, "2", "b")];
    PageInSectionIff(entries, 1, 9);
    PageInSectionIff(entries, 2, 9);
    PageInSectionIff(entries, 3, 9);
    assert entries[0].page <= 3;
  }

  /** The pages a section and one below it start on, and those their ends are taken from. */
  predicate NestedPages(entries: seq<Entry>, i: int, ni: int, j: int, nj: int)
    requires 0 <= i < j < |entries| && 0 <= ni <= |entries| && 0 <= nj <= |entries|
  {
    entries[i].page <= entries[j].page &&
    (ni == |entries| ||
     var last := Max(entries[i].page, entries[ni].page);
     entries[j].page <= last && nj < |entries| && entries[nj].page <= last)
  }

  /** In whatever order entries come: a range lies inside the range of a section above it
      exactly when that section starts no later and, unless it runs to the end of the
      document, neither page the inner range is made of lies behind it. */
  lemma NestIff(entries: seq<Entry>, i: int, ni: int, j: int, nj: int, maxPage: int)
    requires WellPlaced(entries, maxPage) && 0 <= i < |entries| && Below(entries, i, j)
    requires EndsAt(entries, i, ni) && EndsAt(entries, j, nj)
    ensures var sections := Sections(entries, maxPage);
      Inside(sections[j], sections[i]) <==> NestedPages(entries, i, ni, j, nj)
  {
    SectionFields(entries, i, ni, maxPage);
    SectionFields(entries, j, nj, maxPage);
    assert entries[i].level < entries[j].level;
    if ni < |entries| {
      assert entries[ni].level < entries[j].level;
      assert nj <= ni;
    }
  }

  /** And it starts no later than any other later section exactly when neither page it is
      made of lies behind that one's start. */
  lemma ApartIff(entries: seq<Entry>, i: int, ni: int, j: int, maxPage: int)
    requires WellPlaced(entries, maxPage) && 0 <= i < j < |entries| && !Below(entries, i, j) && EndsAt(entries, i, ni)
    ensures var sections := Sections(entries, maxPage);
      ni < |entries| &&
      (sections[i].end <= sections[j].start
       <==> entries[i].page <= entries[j].page && entries[ni].page <= entries[j].page)
  {
    SectionFields(entries, i, ni, maxPage);
  }

  /** Bookmarks out of page order can break the nesting: here a child starts before its
      parent. */
  lemma UnorderedEntriesDoNotNest()
    ensures var entries := [Entry(5, 1, "1", "a"), Entry(2, 2, "1.1", "b"), Entry(9, 1, "2", "c")];
      var sections := Sections(entries, 9);
      WellPlaced(entries, 9) && Below(entries, 0, 1) && !Inside(sections[1], sections[0])
  {
    var entries := [Entry(5, 1, "1", "a"), Entry(2, 2, "1.1", "b"), Entry(9, 1, "2", "c")];
    SectionFields(entries, 0, 2, 9);
    SectionFields(entries, 1, 2, 9);
  }
}
