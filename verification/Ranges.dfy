/** Runs of consecutive numbers: the instance inventory of a section is printed as
    "0-2, 4-5, 9", and pages to render are batched into one call per run. */
module Ranges {

  datatype Run = Run(lo: int, hi: int)

  // ---------- sorted distinct numbers ----------

  predicate Ascending(s: seq<int>)
  {
    forall i, j :: 0 <= i < j < |s| ==> s[i] < s[j]
  }

  function Insert(x: int, s: seq<int>): seq<int>
  {
    if s == [] then [x]
    else if x < s[0] then [x] + s
    else if x == s[0] then s
    else [s[0]] + Insert(x, s[1..])
  }

  function SortedDistinct(nums: seq<int>): seq<int>
  {
    if nums == [] then [] else Insert(nums[0], SortedDistinct(nums[1..]))
  }

  lemma {:induction false} InsertAscending(x: int, s: seq<int>)
    requires Ascending(s)
    ensures Ascending(Insert(x, s))
    ensures forall y :: y in Insert(x, s) <==> y == x || y in s
    decreases |s|
  {
    if s != [] {
      assert s == [s[0]] + s[1..];
      if x > s[0] {
        InsertAscending(x, s[1..]);
        var r := Insert(x, s[1..]);
        forall j | 0 <= j < |r| ensures s[0] < r[j] { assert r[j] in r; }
      }
    }
  }

  lemma {:induction false} SortedDistinctMembers(nums: seq<int>)
    ensures Ascending(SortedDistinct(nums))
    ensures forall y :: y in SortedDistinct(nums) <==> y in nums
    decreases |nums|
  {
    if nums != [] {
      SortedDistinctMembers(nums[1..]);
      InsertAscending(nums[0], SortedDistinct(nums[1..]));
    }
  }

  // ---------- the decomposition into runs ----------

  function RunsFrom(start: int, prev: int, rest: seq<int>): seq<Run>
    decreases |rest|
  {
    if rest == [] then [Run(start, prev)]
    else if rest[0] == prev + 1 then RunsFrom(start, rest[0], rest[1..])
    else [Run(start, prev)] + RunsFrom(rest[0], rest[0], rest[1..])
  }

  function Runs(s: seq<int>): seq<Run>
  {
    if s == [] then [] else RunsFrom(s[0], s[0], s[1..])
  }

  function Interval(lo: int, hi: int): seq<int>
    decreases hi - lo
  {
    if hi < lo then [] else [lo] + Interval(lo + 1, hi)
  }

  function Expand(runs: seq<Run>): seq<int>
  {
    if runs == [] then [] else Interval(runs[0].lo, runs[0].hi) + Expand(runs[1..])
  }

  /** Ordered, disjoint and maximal: no run could absorb the start of the next one. */
  predicate Separated(runs: seq<Run>)
  {
    && (forall i :: 0 <= i < |runs| ==> runs[i].lo <= runs[i].hi)
    && (forall i :: 0 < i < |runs| ==> runs[i - 1].hi + 1 < runs[i].lo)
  }

  lemma {:induction false} IntervalSnoc(lo: int, hi: int)
    requires lo <= hi + 1
    ensures Interval(lo, hi + 1) == Interval(lo, hi) + [hi + 1]
    decreases hi - lo
  {
    if lo <= hi {
      IntervalSnoc(lo + 1, hi);
    } else {
      assert Interval(lo + 1, hi + 1) == [];
    }
  }

  lemma AscendingTail(prev: int, rest: seq<int>)
    requires Ascending([prev] + rest) && rest != []
    ensures prev < rest[0] && Ascending([rest[0]] + rest[1..])
  {
    var line := [prev] + rest;
    assert line[0] < line[1];
    assert [rest[0]] + rest[1..] == rest;
    forall i, j | 0 <= i < j < |rest| ensures rest[i] < rest[j] {
      assert line[i + 1] < line[j + 1];
    }
  }

  lemma {:induction false} RunsFromExpand(start: int, prev: int, rest: seq<int>)
    requires start <= prev
    ensures Expand(RunsFrom(start, prev, rest)) == Interval(start, prev) + rest
    decreases |rest|
  {
    if rest == [] {
      assert [Run(start, prev)][1..] == [];
    } else if rest[0] == prev + 1 {
      RunsFromExpand(start, rest[0], rest[1..]);
      IntervalSnoc(start, prev);
      assert Interval(start, prev) + rest == Interval(start, prev + 1) + rest[1..];
    } else {
      RunsFromExpand(rest[0], rest[0], rest[1..]);
      var tail := RunsFrom(rest[0], rest[0], rest[1..]);
      assert ([Run(start, prev)] + tail)[1..] == tail;
      assert Interval(rest[0], rest[0]) + rest[1..] == rest;
    }
  }

  lemma {:induction false} RunsFromSeparated(start: int, prev: int, rest: seq<int>)
    requires start <= prev && Ascending([prev] + rest)
    ensures Separated(RunsFrom(start, prev, rest))
    ensures RunsFrom(start, prev, rest) != [] && RunsFrom(start, prev, rest)[0].lo == start
    decreases |rest|
  {
    if rest != [] {
      AscendingTail(prev, rest);
      if rest[0] == prev + 1 {
        RunsFromSeparated(start, rest[0], rest[1..]);
      } else {
        RunsFromSeparated(rest[0], rest[0], rest[1..]);
      }
    }
  }

  /** The runs list exactly the given numbers, in order, and are as long as possible. */
  lemma RunsDecompose(s: seq<int>)
    requires Ascending(s)
    ensures Expand(Runs(s)) == s && Separated(Runs(s))
  {
    if s != [] {
      assert s == [s[0]] + s[1..];
      RunsFromExpand(s[0], s[0], s[1..]);
      RunsFromSeparated(s[0], s[0], s[1..]);
      assert Interval(s[0], s[0]) == [s[0]];
    }
  }

  lemma {:induction false} IntervalMembers(lo: int, hi: int)
    ensures |Interval(lo, hi)| == if lo <= hi then hi - lo + 1 else 0
    ensures forall k :: 0 <= k < |Interval(lo, hi)| ==> Interval(lo, hi)[k] == lo + k
    decreases hi - lo
  {
    if lo <= hi {
      IntervalMembers(lo + 1, hi);
    }
  }

  lemma {:induction false} ExpandHead(runs: seq<Run>)
    requires Separated(runs) && runs != []
    ensures Expand(runs) != [] && Expand(runs)[0] == runs[0].lo
  {
  }

  /** There is only one such decomposition, so every consumer sees the same runs. */
  lemma {:induction false} DecompositionUnique(xs: seq<Run>, ys: seq<Run>)
    requires Separated(xs) && Separated(ys) && Expand(xs) == Expand(ys)
    ensures xs == ys
    decreases |xs|
  {
    if xs == [] || ys == [] {
      if xs != [] { ExpandHead(xs); }
      if ys != [] { ExpandHead(ys); }
    } else {
      ExpandHead(xs);
      ExpandHead(ys);
      FirstRunLongest(xs, ys);
      FirstRunLongest(ys, xs);
      var n := |Interval(xs[0].lo, xs[0].hi)|;
      assert Expand(xs)[n..] == Expand(xs[1..]);
      assert Expand(ys)[n..] == Expand(ys[1..]);
      DecompositionUnique(xs[1..], ys[1..]);
      assert xs == [xs[0]] + xs[1..] && ys == [ys[0]] + ys[1..];
    }
  }

  lemma FirstRunLongest(xs: seq<Run>, ys: seq<Run>)
    requires Separated(xs) && Separated(ys) && Expand(xs) == Expand(ys) && xs != [] && ys != []
    requires xs[0].lo == ys[0].lo
    ensures ys[0].hi <= xs[0].hi
  {
    var k := xs[0].hi + 1 - xs[0].lo;
    InFirstRun(ys, k);
    AfterFirstRun(xs);
  }

  lemma InFirstRun(runs: seq<Run>, k: nat)
    requires Separated(runs) && runs != []
    ensures k <= runs[0].hi - runs[0].lo ==> k < |Expand(runs)| && Expand(runs)[k] == runs[0].lo + k
  {
    IntervalMembers(runs[0].lo, runs[0].hi);
  }

  lemma AfterFirstRun(runs: seq<Run>)
    requires Separated(runs) && runs != []
    ensures var n := runs[0].hi + 1 - runs[0].lo;
      n < |Expand(runs)| ==> runs[0].hi + 1 < Expand(runs)[n]
  {
    IntervalMembers(runs[0].lo, runs[0].hi);
    if |runs| > 1 {
      assert Separated(runs[1..]);
      ExpandHead(runs[1..]);
    }
  }

  /** Contiguous page runs, one rendering call each. No pages requested, no runs. */
  method PageRuns(pages: seq<int>) returns (runs: seq<Run>)
    ensures runs == Runs(SortedDistinct(pages))
  {
    var wanted := SortedDistinct(pages);
    if wanted == [] {
      return [];
    }
    runs := [];
    var start, prev := wanted[0], wanted[0];
    for i := 1 to |wanted|
      invariant runs + RunsFrom(start, prev, wanted[i..]) == Runs(wanted)
    {
      assert wanted[i..] == [wanted[i]] + wanted[i + 1..];
      if wanted[i] == prev + 1 {
        prev := wanted[i];
      } else {
        runs := runs + [Run(start, prev)];
        start, prev := wanted[i], wanted[i];
      }
    }
    runs := runs + [Run(start, prev)];
  }

  /** Rendering the runs one after the other visits each requested page once, in order. */
  lemma PageRunsCoverRequest(pages: seq<int>)
    ensures Ascending(Expand(Runs(SortedDistinct(pages))))
    ensures forall p :: p in Expand(Runs(SortedDistinct(pages))) <==> p in pages
    ensures Separated(Runs(SortedDistinct(pages)))
  {
    SortedDistinctMembers(pages);
    RunsDecompose(SortedDistinct(pages));
  }

  // ---------- printing ----------

  function Digit(d: nat): char
    requires d < 10
  {
    '0' + (d as char)
  }

  function Decimal(n: nat): string
  {
    if n < 10 then [Digit(n)] else Decimal(n / 10) + [Digit(n % 10)]
  }

  function Show(n: int): string
  {
    if n < 0 then "-" + Decimal(-n) else Decimal(n)
  }

  function PrintRun(r: Run): string
  {
    if r.hi > r.lo then Show(r.lo) + "-" + Show(r.hi) else Show(r.lo)
  }

  function PrintRuns(runs: seq<Run>): string
  {
    if runs == [] then ""
    else if |runs| == 1 then PrintRun(runs[0])
    else PrintRun(runs[0]) + ", " + PrintRuns(runs[1..])
  }

  function JoinComma(parts: seq<string>): string
  {
    if parts == [] then ""
    else if |parts| == 1 then parts[0]
    else parts[0] + ", " + JoinComma(parts[1..])
  }

  function PrintEach(runs: seq<Run>): seq<string>
  {
    if runs == [] then [] else [PrintRun(runs[0])] + PrintEach(runs[1..])
  }

  lemma {:induction false} JoinPrinted(runs: seq<Run>)
    ensures JoinComma(PrintEach(runs)) == PrintRuns(runs)
    ensures |PrintEach(runs)| == |runs|
    decreases |runs|
  {
    if runs != [] {
      JoinPrinted(runs[1..]);
      assert PrintEach(runs)[1..] == PrintEach(runs[1..]);
    }
  }

  lemma {:induction false} PrintEachSnoc(runs: seq<Run>, r: Run)
    ensures PrintEach(runs + [r]) == PrintEach(runs) + [PrintRun(r)]
    decreases |runs|
  {
    if runs == [] {
      assert [r][1..] == [];
    } else {
      PrintEachSnoc(runs[1..], r);
      assert (runs + [r])[1..] == runs[1..] + [r];
    }
  }

  method CompressRanges(nums: seq<int>) returns (text: string)
    ensures text == PrintRuns(Runs(SortedDistinct(nums)))
  {
    var sorted := SortedDistinct(nums);
    if sorted == [] {
      return "";
    }
    var parts: seq<string> := [];
    var start, prev := sorted[0], sorted[0];
    ghost var done: seq<Run> := [];
    for i := 1 to |sorted|
      invariant done + RunsFrom(start, prev, sorted[i..]) == Runs(sorted)
      invariant parts == PrintEach(done)
    {
      var n := sorted[i];
      assert sorted[i..] == [n] + sorted[i + 1..];
      if n == prev + 1 {
        prev := n;
      } else {
        PrintEachSnoc(done, Run(start, prev));
        parts := parts + [if prev > start then Show(start) + "-" + Show(prev) else Show(start)];
        done := done + [Run(start, prev)];
        start, prev := n, n;
      }
    }
    parts := parts + [if prev > start then Show(start) + "-" + Show(prev) else Show(start)];
    assert RunsFrom(start, prev, sorted[|sorted|..]) == [Run(start, prev)];
    PrintEachSnoc(done, Run(start, prev));
    JoinPrinted(done + [Run(start, prev)]);
    text := JoinComma(parts);
  }

  // ---------- reading the text back ----------

  predicate IsDigit(c: char) { '0' <= c <= '9' }

  function DigitsLength(s: string): (n: nat)
    ensures n <= |s|
    ensures forall i :: 0 <= i < n ==> IsDigit(s[i])
  {
    if s == [] || !IsDigit(s[0]) then 0 else 1 + DigitsLength(s[1..])
  }

  function Number(digits: string): nat
    requires forall i :: 0 <= i < |digits| ==> IsDigit(digits[i])
  {
    if digits == "" then 0
    else
      var last := digits[|digits| - 1];
      assert IsDigit(last);
      10 * Number(digits[..|digits| - 1]) + (last as int - '0' as int)
  }

  /** Length of the number a text starts with: an optional sign and digits, or nothing. */
  function NumeralLength(s: string): (n: nat)
    ensures n <= |s|
  {
    if s != "" && s[0] == '-' then
      var n := DigitsLength(s[1..]);
      if n == 0 then 0 else n + 1
    else DigitsLength(s)
  }

  function LeadingNumber(s: string): int
  {
    if s != "" && s[0] == '-' then -(Number(s[1..][..DigitsLength(s[1..])]) as int)
    else Number(s[..DigitsLength(s)])
  }

  /** A reader for the printed form, written without reference to the printer: signed
      numbers, optionally joined in pairs by '-', in a list separated by ", ". */
  function ParseRuns(s: string): seq<Run>
    decreases |s|
  {
    var n := NumeralLength(s);
    if n == 0 then []
    else
      var lo, rest := LeadingNumber(s), s[n..];
      if rest != "" && rest[0] == '-' then
        [Run(lo, LeadingNumber(rest[1..]))] + ParseMore(rest[1..][NumeralLength(rest[1..])..])
      else [Run(lo, lo)] + ParseMore(rest)
  }

  function ParseMore(s: string): seq<Run>
    decreases |s|
  {
    if 2 < |s| && s[0] == ',' && s[1] == ' ' then ParseRuns(s[2..]) else []
  }

  lemma {:induction false} DecimalReads(n: nat)
    ensures Decimal(n) != ""
    ensures forall i :: 0 <= i < |Decimal(n)| ==> IsDigit(Decimal(n)[i])
    ensures Number(Decimal(n)) == n
    decreases n
  {
    if n >= 10 {
      DecimalReads(n / 10);
      var d := Decimal(n);
      assert d[..|d| - 1] == Decimal(n / 10);
    } else {
      assert [Digit(n)][..0] == "";
    }
  }

  lemma {:induction false} DigitsLengthPrefix(digits: string, rest: string)
    requires forall i :: 0 <= i < |digits| ==> IsDigit(digits[i])
    requires rest == "" || !IsDigit(rest[0])
    ensures DigitsLength(digits + rest) == |digits|
    decreases |digits|
  {
    if digits == "" {
      assert digits + rest == rest;
    } else {
      assert (digits + rest)[1..] == digits[1..] + rest;
      DigitsLengthPrefix(digits[1..], rest);
    }
  }

  lemma ShowReads(x: int, rest: string)
    requires rest == "" || !IsDigit(rest[0])
    ensures 0 < NumeralLength(Show(x) + rest) == |Show(x)|
    ensures LeadingNumber(Show(x) + rest) == x
  {
    var digits := Decimal(if x < 0 then -x else x);
    var s := Show(x) + rest;
    DecimalReads(if x < 0 then -x else x);
    DigitsLengthPrefix(digits, rest);
    if x < 0 {
      assert s[1..] == digits + rest;
      assert s[1..][..|digits|] == digits;
    } else {
      assert s[..|digits|] == digits;
    }
  }

  lemma ParseSingle(n: int, rest: string)
    requires rest == "" || rest[0] == ','
    ensures ParseRuns(Show(n) + rest) == [Run(n, n)] + ParseMore(rest)
  {
    ShowReads(n, rest);
    assert (Show(n) + rest)[|Show(n)|..] == rest;
  }

  lemma ParsePair(lo: int, hi: int, rest: string)
    requires rest == "" || rest[0] == ','
    ensures ParseRuns(Show(lo) + (['-'] + (Show(hi) + rest))) == [Run(lo, hi)] + ParseMore(rest)
  {
    var more := Show(hi) + rest;
    var tail := ['-'] + more;
    ShowReads(lo, tail);
    ShowReads(hi, rest);
    assert (Show(lo) + tail)[|Show(lo)|..] == tail;
    assert tail[1..] == more;
    assert more[|Show(hi)|..] == rest;
  }

  lemma JoinPair(a: string, b: string, c: string)
    ensures (a + "-" + b) + c == a + (['-'] + (b + c))
  {
  }

  lemma ParseRunsStep(r: Run, rest: string)
    requires r.lo <= r.hi
    requires rest == "" || rest[0] == ','
    ensures ParseRuns(PrintRun(r) + rest) == [r] + ParseMore(rest)
  {
    if r.hi > r.lo {
      ParsePair(r.lo, r.hi, rest);
      JoinPair(Show(r.lo), Show(r.hi), rest);
    } else {
      ParseSingle(r.lo, rest);
    }
  }

  lemma PrintedNonEmpty(runs: seq<Run>)
    requires runs != []
    ensures PrintRuns(runs) != ""
  {
    ShowReads(runs[0].lo, "");
  }

  lemma MoreRead(text: string)
    requires text != ""
    ensures ParseMore(", " + text) == ParseRuns(text)
  {
    assert (", " + text)[2..] == text;
  }

  lemma {:induction false} ParsePrinted(runs: seq<Run>)
    requires forall i :: 0 <= i < |runs| ==> runs[i].lo <= runs[i].hi
    ensures ParseRuns(PrintRuns(runs)) == runs
    decreases |runs|
  {
    if |runs| == 1 {
      ParseRunsStep(runs[0], "");
      assert PrintRun(runs[0]) + "" == PrintRun(runs[0]);
    } else if |runs| > 1 {
      var more := PrintRuns(runs[1..]);
      ParseRunsStep(runs[0], ", " + more);
      assert PrintRuns(runs) == PrintRun(runs[0]) + (", " + more);
      PrintedNonEmpty(runs[1..]);
      MoreRead(more);
      ParsePrinted(runs[1..]);
      assert runs == [runs[0]] + runs[1..];
    }
  }

  /** Reading a printed inventory back yields exactly the sorted set of its numbers,
      whatever their sign. */
  lemma CompressionRoundTrip(nums: seq<int>)
    ensures Expand(ParseRuns(PrintRuns(Runs(SortedDistinct(nums))))) == SortedDistinct(nums)
  {
    SortedDistinctMembers(nums);
    RunsDecompose(SortedDistinct(nums));
    ParsePrinted(Runs(SortedDistinct(nums)));
  }

  /** So the printed form says which numbers there are: two inventories print alike exactly
      when they hold the same numbers. */
  lemma CompressionFaithful(a: seq<int>, b: seq<int>)
    ensures PrintRuns(Runs(SortedDistinct(a))) == PrintRuns(Runs(SortedDistinct(b)))
            <==> forall x :: x in a <==> x in b
  {
    CompressionRoundTrip(a);
    CompressionRoundTrip(b);
    SortedDistinctMembers(a);
    SortedDistinctMembers(b);
    if forall x :: x in a <==> x in b {
      AscendingUnique(SortedDistinct(a), SortedDistinct(b));
    }
  }

  lemma {:induction false} AscendingUnique(s: seq<int>, t: seq<int>)
    requires Ascending(s) && Ascending(t) && forall x :: x in s <==> x in t
    ensures s == t
    decreases |s|
  {
    assert s != [] ==> s[0] in s && s[0] in t;
    assert t != [] ==> t[0] in t && t[0] in s;
    if s != [] && t != [] {
      LeastFirst(s, t);
      LeastFirst(t, s);
      forall x ensures x in s[1..] <==> x in t[1..] {
        TailMembers(s, x);
        TailMembers(t, x);
      }
      AscendingUnique(s[1..], t[1..]);
      assert s == [s[0]] + s[1..] && t == [t[0]] + t[1..];
    }
  }

  lemma LeastFirst(s: seq<int>, t: seq<int>)
    requires Ascending(s) && s != [] && t != [] && t[0] in s
    ensures s[0] <= t[0]
  {
  }

  lemma TailMembers(s: seq<int>, x: int)
    requires Ascending(s) && s != []
    ensures x in s[1..] <==> x in s && x != s[0]
  {
    assert s == [s[0]] + s[1..];
  }
}
