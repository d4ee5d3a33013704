/** Degeneration cleanup of an OCR transcription: the exact-period cut, then the cut of a
    tail of numbered lines that retype one sentence. */
module OcrCleanup {
  import opened Options
  import opened Text
  import PeriodTrim

  const MIN_REPEAT_LINES := 4
  const MIN_CONTENT_LEN := 40

  /** What the pass asks of outside code: the body of a numbered line (given stripped), and
      whether two bodies are similar. */
  datatype Rules = Rules(body: string -> Option<string>, similar: (string, string) -> bool)

  /** A numbered line of the tail: its index and its body. */
  datatype Numbered = Numbered(index: nat, body: string)

  predicate Blank(line: string) { Strip(line) == "" }

  predicate IsNumbered(rules: Rules, line: string) { rules.body(Strip(line)).Some? }

  predicate IsStub(line: string) { |Strip(line)| < MIN_CONTENT_LEN }

  predicate IsIntroducer(line: string)
  {
    var s := Strip(line);
    s != "" && (s[|s| - 1] == ':' || s[|s| - 1] == '\U{FF1A}')
  }

  // ---------- reference definitions ----------

  /** The numbered lines of the tail, collected upwards from line `i - 1`. */
  function Scan(rules: Rules, lines: seq<string>, i: nat, found: seq<Numbered>): seq<Numbered>
    requires i <= |lines|
  {
    if i == 0 then found
    else
      var line := lines[i - 1];
      if Blank(line) then Scan(rules, lines, i - 1, found)
      else if IsNumbered(rules, line) then
        Scan(rules, lines, i - 1, [Numbered(i - 1, rules.body(Strip(line)).value)] + found)
      else if found == [] && IsStub(line) then Scan(rules, lines, i - 1, found)
      else found
  }

  /** The first of the longest bodies. */
  function Dominant(found: seq<Numbered>): string
    requires found != []
  {
    if |found| == 1 then found[0].body
    else
      var best := Dominant(found[..|found| - 1]);
      var last := found[|found| - 1].body;
      if |best| < |last| then last else best
  }

  function Compatible(rules: Rules, dominant: string, found: seq<Numbered>): seq<Numbered>
  {
    if found == [] then []
    else
      var rest := Compatible(rules, dominant, found[..|found| - 1]);
      var last := found[|found| - 1];
      if rules.similar(dominant, last.body) then rest + [last] else rest
  }

  /** The line where the repeats start, if the tail is degenerate. */
  function RepeatStart(rules: Rules, found: seq<Numbered>): Option<nat>
  {
    if |found| < MIN_REPEAT_LINES then None
    else
      var dominant := Dominant(found);
      var compatible := Compatible(rules, dominant, found);
      if |dominant| < MIN_CONTENT_LEN || |compatible| < MIN_REPEAT_LINES then None
      else if 2 * |compatible| >= |found| then Some(found[0].index)
      else Some(compatible[0].index)
  }

  /** The nearest line at or above `k` that is not blank, or line 0. */
  function NonBlankAt(lines: seq<string>, k: nat): (r: nat)
    requires k < |lines|
    ensures r <= k
    ensures forall j :: r < j <= k ==> Blank(lines[j])
    ensures r == 0 || !Blank(lines[r])
  {
    if k == 0 || !Blank(lines[k]) then k else NonBlankAt(lines, k - 1)
  }

  /** The cut moves up past introducer lines. Each move goes strictly up. */
  function IntroducerStart(lines: seq<string>, first: nat): (r: nat)
    requires first <= |lines|
    ensures r <= first
  {
    if first == 0 then 0
    else
      var prev := NonBlankAt(lines, first - 1);
      if IsIntroducer(lines[prev]) then IntroducerStart(lines, prev) else first
  }

  function CutLine(rules: Rules, lines: seq<string>): Option<nat>
  {
    var start := RepeatStart(rules, Scan(rules, lines, |lines|, []));
    if start.Some? && start.value <= |lines| then Some(IntroducerStart(lines, start.value)) else None
  }

  function Trimmed(rules: Rules, text: string): string
  {
    var lines := Split(text);
    match CutLine(rules, lines)
    case None => text
    case Some(first) => if first <= |lines| then RStrip(Join(lines[..first])) + "\n" else text
  }

  datatype Pass = ExactPeriod | NumberedPseudo

  datatype Cleaned = Cleaned(text: string, trimmedChars: int, passes: seq<Pass>)

  function Cleanup(rules: Rules, text: string): Cleaned
  {
    if text == "" then Cleaned("", 0, [])
    else
      var exact := PeriodTrim.Trimmed(text, PeriodTrim.DEFAULT);
      var numbered := Trimmed(rules, exact);
      Cleaned(numbered, |text| - |numbered|,
              (if |exact| < |text| then [ExactPeriod] else []) +
              (if |numbered| < |exact| then [NumberedPseudo] else []))
  }

  // ---------- the program ----------

  method NumberedTail(rules: Rules, lines: seq<string>) returns (found: seq<Numbered>)
    ensures found == Scan(rules, lines, |lines|, [])
  {
    found := [];
    var i := |lines|;
    while i > 0
      invariant 0 <= i <= |lines|
      invariant Scan(rules, lines, |lines|, []) == Scan(rules, lines, i, found)
    {
      var line := Strip(lines[i - 1]);
      if line == "" {
        i := i - 1;
        continue;
      }
      var body := rules.body(line);
      if body.None? {
        if found == [] && |line| < MIN_CONTENT_LEN {
          i := i - 1;
          continue;
        }
        break;
      }
      found := [Numbered(i - 1, body.value)] + found;
      i := i - 1;
    }
  }

  method LongestBody(found: seq<Numbered>) returns (dominant: string)
    requires found != []
    ensures dominant == Dominant(found)
  {
    dominant := found[0].body;
    for i := 1 to |found|
      invariant dominant == Dominant(found[..i])
    {
      assert found[..i + 1][..i] == found[..i];
      if |dominant| < |found[i].body| {
        dominant := found[i].body;
      }
    }
    assert found[..|found|] == found;
  }

  method SimilarBodies(rules: Rules, dominant: string, found: seq<Numbered>) returns (compatible: seq<Numbered>)
    ensures compatible == Compatible(rules, dominant, found)
  {
    compatible := [];
    for i := 0 to |found|
      invariant compatible == Compatible(rules, dominant, found[..i])
    {
      assert found[..i + 1][..i] == found[..i];
      if rules.similar(dominant, found[i].body) {
        compatible := compatible + [found[i]];
      }
    }
    assert found[..|found|] == found;
  }

  method SkipIntroducers(lines: seq<string>, start: nat) returns (first: nat)
    requires start <= |lines|
    ensures first == IntroducerStart(lines, start)
  {
    first := start;
    while first > 0
      invariant first <= start && IntroducerStart(lines, start) == IntroducerStart(lines, first)
    {
      var prev := first - 1;
      while prev > 0 && Strip(lines[prev]) == ""
        invariant 0 <= prev < first && NonBlankAt(lines, first - 1) == NonBlankAt(lines, prev)
      {
        prev := prev - 1;
      }
      if IsIntroducer(lines[prev]) {
        first := prev;
      } else {
        break;
      }
    }
  }

  method TrimNumberedPseudoRepeats(rules: Rules, text: string) returns (r: string)
    ensures r == Trimmed(rules, text)
  {
    var lines := Split(text);
    var found := NumberedTail(rules, lines);
    if |found| < MIN_REPEAT_LINES {
      return text;
    }
    var dominant := LongestBody(found);
    if |dominant| < MIN_CONTENT_LEN {
      return text;
    }
    var compatible := SimilarBodies(rules, dominant, found);
    if |compatible| < MIN_REPEAT_LINES {
      return text;
    }
    var start := if 2 * |compatible| >= |found| then found[0].index else compatible[0].index;
    ScanShape(rules, lines);
    CompatibleSublist(rules, dominant, found);
    var first := SkipIntroducers(lines, start);
    r := RStrip(Join(lines[..first])) + "\n";
  }

  method CleanOcrTranscription(rules: Rules, text: string) returns (cleaned: Cleaned)
    ensures cleaned == Cleanup(rules, text)
  {
    if text == "" {
      return Cleaned(text, 0, []);
    }
    var passes: seq<Pass> := [];
    var afterExact := PeriodTrim.TrimExactPeriodRepeats(text, PeriodTrim.DEFAULT);
    if |afterExact| < |text| {
      passes := passes + [ExactPeriod];
    }
    var afterNumbered := TrimNumberedPseudoRepeats(rules, afterExact);
    if |afterNumbered| < |afterExact| {
      passes := passes + [NumberedPseudo];
    }
    cleaned := Cleaned(afterNumbered, |text| - |afterNumbered|, passes);
  }

  // ---------- what the scan finds ----------

  /** Indices ascend, lie inside the text, and belong to numbered lines. */
  predicate Ascends(rules: Rules, lines: seq<string>, found: seq<Numbered>)
  {
    && (forall k :: 0 <= k < |found| ==> found[k].index < |lines| && IsNumbered(rules, lines[found[k].index]))
    && (forall j, k :: 0 <= j < k < |found| ==> found[j].index < found[k].index)
  }

  /** From line `lo` on, a line is blank, a collected numbered line, or a short stub below
      all of those. */
  ghost predicate TailExplained(rules: Rules, lines: seq<string>, found: seq<Numbered>, lo: nat)
  {
    forall j :: lo <= j < |lines| ==>
      Blank(lines[j]) || IsNumbered(rules, lines[j])
      || (IsStub(lines[j]) && (found != [] ==> found[|found| - 1].index < j))
  }

  lemma AscendsCons(rules: Rules, lines: seq<string>, n: Numbered, found: seq<Numbered>)
    requires Ascends(rules, lines, found) && n.index < |lines| && IsNumbered(rules, lines[n.index])
    requires found != [] ==> n.index < found[0].index
    ensures Ascends(rules, lines, [n] + found)
    ensures found != [] ==> ([n] + found)[|found|] == found[|found| - 1]
  {
    forall k | 0 <= k < |found| ensures n.index < found[k].index {
      assert k > 0 ==> found[0].index < found[k].index;
    }
  }

  lemma NumberedExplained(rules: Rules, lines: seq<string>, n: Numbered, found: seq<Numbered>)
    requires n.index < |lines| && IsNumbered(rules, lines[n.index])
    requires TailExplained(rules, lines, found, n.index + 1)
    ensures TailExplained(rules, lines, [n] + found, n.index)
  {
    forall j | n.index <= j < |lines|
      ensures Blank(lines[j]) || IsNumbered(rules, lines[j])
              || (IsStub(lines[j]) && ([n] + found)[|found|].index < j)
    {
      if n.index < j && found != [] {
        assert ([n] + found)[|found|] == found[|found| - 1];
      }
    }
  }

  /** The scan has come up to line `i`. */
  ghost predicate Scanned(rules: Rules, lines: seq<string>, found: seq<Numbered>, i: nat)
  {
    && Ascends(rules, lines, found)
    && (found != [] ==> i <= found[0].index)
    && TailExplained(rules, lines, found, i)
  }

  ghost predicate Explained(rules: Rules, lines: seq<string>, found: seq<Numbered>)
  {
    Ascends(rules, lines, found) && (found != [] ==> TailExplained(rules, lines, found, found[0].index))
  }

  lemma ScanStops(rules: Rules, lines: seq<string>, found: seq<Numbered>, i: nat)
    requires Scanned(rules, lines, found, i)
    ensures Explained(rules, lines, found)
  {
  }

  lemma ScanSkips(rules: Rules, lines: seq<string>, found: seq<Numbered>, i: nat)
    requires 0 < i <= |lines| && Scanned(rules, lines, found, i)
    requires Blank(lines[i - 1]) || (found == [] && IsStub(lines[i - 1]))
    ensures Scanned(rules, lines, found, i - 1)
  {
  }

  lemma ScanCollects(rules: Rules, lines: seq<string>, n: Numbered, found: seq<Numbered>)
    requires Scanned(rules, lines, found, n.index + 1)
    requires n.index < |lines| && IsNumbered(rules, lines[n.index])
    ensures Scanned(rules, lines, [n] + found, n.index)
  {
    AscendsCons(rules, lines, n, found);
    NumberedExplained(rules, lines, n, found);
  }

  lemma {:induction false} ScanSound(rules: Rules, lines: seq<string>, i: nat, found: seq<Numbered>)
    requires i <= |lines| && Scanned(rules, lines, found, i)
    ensures Explained(rules, lines, Scan(rules, lines, i, found))
    decreases i
  {
    if i == 0 {
      ScanStops(rules, lines, found, i);
    } else {
      var line := lines[i - 1];
      if Blank(line) || (!IsNumbered(rules, line) && found == [] && IsStub(line)) {
        ScanSkips(rules, lines, found, i);
        ScanSound(rules, lines, i - 1, found);
      } else if IsNumbered(rules, line) {
        var n := Numbered(i - 1, rules.body(Strip(line)).value);
        ScanCollects(rules, lines, n, found);
        ScanSound(rules, lines, i - 1, [n] + found);
      } else {
        ScanStops(rules, lines, found, i);
      }
    }
  }

  /** What the scan collects, and what it passed over on the way. */
  lemma ScanShape(rules: Rules, lines: seq<string>)
    ensures Explained(rules, lines, Scan(rules, lines, |lines|, []))
  {
    ScanSound(rules, lines, |lines|, []);
  }

  lemma {:induction false} CompatibleSublist(rules: Rules, dominant: string, found: seq<Numbered>)
    ensures forall x :: x in Compatible(rules, dominant, found) ==> x in found && rules.similar(dominant, x.body)
    ensures |Compatible(rules, dominant, found)| <= |found|
    decreases |found|
  {
    if found != [] {
      CompatibleSublist(rules, dominant, found[..|found| - 1]);
    }
  }

  /** The repeats start at a numbered line, with at least three more lines below it. */
  lemma RepeatStartNumbered(rules: Rules, lines: seq<string>)
    ensures var found := Scan(rules, lines, |lines|, []);
      var start := RepeatStart(rules, found);
      start.Some? ==> found != [] && found[0].index <= start.value < |lines|
                      && IsNumbered(rules, lines[start.value])
  {
    ScanShape(rules, lines);
    var found := Scan(rules, lines, |lines|, []);
    if |found| >= MIN_REPEAT_LINES {
      var compatible := Compatible(rules, Dominant(found), found);
      CompatibleSublist(rules, Dominant(found), found);
      if compatible != [] {
        assert compatible[0] in found;
      }
    }
  }

  // ---------- introducers ----------

  /** Only blank lines stand between line `j` and line `k`. */
  predicate OnlyBlanksBetween(lines: seq<string>, j: nat, k: nat)
    requires k <= |lines|
  {
    forall i :: j < i < k ==> Blank(lines[i])
  }

  /** Exactly the block of introducers (and blank lines among them) directly above the
      repeats is passed: it starts at one, contains nothing else, and no further one is
      adjacent above it. */
  predicate IntroducerBlock(lines: seq<string>, start: nat, first: nat)
    requires start <= |lines|
  {
    && first <= start
    && (forall j :: first <= j < start ==> Blank(lines[j]) || IsIntroducer(lines[j]))
    && (first < start ==> IsIntroducer(lines[first]))
    && (forall j :: 0 <= j < first && OnlyBlanksBetween(lines, j, first) ==> !IsIntroducer(lines[j]))
  }

  lemma {:induction false} IntroducersPassed(lines: seq<string>, start: nat)
    requires start <= |lines|
    ensures IntroducerBlock(lines, start, IntroducerStart(lines, start))
    decreases start
  {
    if start > 0 {
      var prev := NonBlankAt(lines, start - 1);
      if IsIntroducer(lines[prev]) {
        IntroducersPassed(lines, prev);
      }
    }
  }

  /** Only one line satisfies that description. */
  lemma {:induction false} IntroducerBlockUnique(lines: seq<string>, start: nat, a: nat, b: nat)
    requires start <= |lines| && IntroducerBlock(lines, start, a) && IntroducerBlock(lines, start, b)
    ensures a == b
  {
    if a < b {
      BlockReachesTop(lines, start, a, b);
    } else if b < a {
      BlockReachesTop(lines, start, b, a);
    }
  }

  lemma BlockReachesTop(lines: seq<string>, start: nat, a: nat, b: nat)
    requires start <= |lines| && IntroducerBlock(lines, start, a) && a < b <= start
    ensures !IntroducerBlock(lines, start, b)
  {
    assert IsIntroducer(lines[a]);
    NonBlankHits(lines, b - 1, a);
    var j := NonBlankAt(lines, b - 1);
    assert OnlyBlanksBetween(lines, j, b) && IsIntroducer(lines[j]);
  }

  lemma {:induction false} NonBlankHits(lines: seq<string>, k: nat, a: nat)
    requires a <= k < |lines| && !Blank(lines[a])
    ensures a <= NonBlankAt(lines, k) && !Blank(lines[NonBlankAt(lines, k)])
    decreases k
  {
    if a < k {
      if Blank(lines[k]) {
        NonBlankHits(lines, k - 1, a);
      }
    }
  }

  /** A lead-in is a line whose last character that is not whitespace is a colon. */
  lemma IntroducerIff(line: string)
    ensures IsIntroducer(line) <==>
      exists k :: 0 <= k < |line| && (line[k] == ':' || line[k] == '\U{FF1A}') && BlankFrom(line, k + 1)
  {
    var left := LStrip(line);
    LStripSuffix(line);
    RStripSpace(left);
    RStripEnd(left);
    var k := |line| - |left| + |Strip(line)| - 1;
    assert forall j :: k < j < |line| ==> line[j] == left[j - (|line| - |left|)];
    assert BlankFrom(line, k + 1);
    if Strip(line) != "" {
      assert line[k] == Strip(line)[|Strip(line)| - 1];
    }
  }

  /** Only whitespace from position `k` on. */
  predicate BlankFrom(line: string, k: nat)
  {
    forall j :: k <= j < |line| ==> IsSpace(line[j])
  }

  lemma {:induction false} RStripSpace(s: string)
    ensures forall j :: |RStrip(s)| <= j < |s| ==> IsSpace(s[j])
    decreases |s|
  {
    if s != "" && IsSpace(s[|s| - 1]) {
      RStripSpace(s[..|s| - 1]);
    }
  }

  lemma {:induction false} LStripSuffix(s: string)
    ensures LStrip(s) == s[|s| - |LStrip(s)|..]
    ensures forall j :: 0 <= j < |s| - |LStrip(s)| ==> IsSpace(s[j])
    decreases |s|
  {
    if s != "" && IsSpace(s[0]) {
      LStripSuffix(s[1..]);
    }
  }

  // ---------- what is cut ----------

  /** Nothing but degeneration goes: every removed line is blank, numbered, a lead-in ending
      in a colon, or a stub shorter than any content line. */
  lemma OnlyDegenerationCut(rules: Rules, lines: seq<string>, j: nat)
    requires CutLine(rules, lines).Some? && CutLine(rules, lines).value <= j < |lines|
    ensures Blank(lines[j]) || IsNumbered(rules, lines[j]) || IsIntroducer(lines[j]) || IsStub(lines[j])
  {
    var found := Scan(rules, lines, |lines|, []);
    var start := RepeatStart(rules, found).value;
    ScanShape(rules, lines);
    RepeatStartNumbered(rules, lines);
    IntroducersPassed(lines, start);
    assert j < start || found[0].index <= j;
  }

  // ---------- when there is a cut, and where ----------

  function BodyOf(rules: Rules, line: string): string
    requires IsNumbered(rules, line)
  {
    rules.body(Strip(line)).value
  }

  predicate Item(rules: Rules, line: string) { !Blank(line) && IsNumbered(rules, line) }

  /** The line may stand in the tail: it is blank or numbered, or a stub with no numbered line
      below it. */
  predicate Passed(rules: Rules, lines: seq<string>, k: nat)
    requires k < |lines|
  {
    || Blank(lines[k]) || IsNumbered(rules, lines[k])
    || (|Strip(lines[k])| < 40 && forall m :: k < m < |lines| ==> !Item(rules, lines[m]))
  }

  /** A numbered line with nothing but such lines below it. */
  predicate InTail(rules: Rules, lines: seq<string>, j: nat)
  {
    j < |lines| && Item(rules, lines[j]) && forall k :: j < k < |lines| ==> Passed(rules, lines, k)
  }

  function Tail(rules: Rules, lines: seq<string>): set<nat>
  {
    set j: nat | j < |lines| && InTail(rules, lines, j)
  }

  /** The lines of the tail whose body is similar to that of line `d`. */
  function Similar(rules: Rules, lines: seq<string>, d: nat): set<nat>
    requires d in Tail(rules, lines)
  {
    set j | j in Tail(rules, lines) && rules.similar(BodyOf(rules, lines[d]), BodyOf(rules, lines[j]))
  }

  /** The first of the lines of the tail with the longest body. */
  predicate Longest(rules: Rules, lines: seq<string>, d: nat)
  {
    d in Tail(rules, lines) &&
    forall j :: j in Tail(rules, lines) ==>
      var own, other := |BodyOf(rules, lines[d])|, |BodyOf(rules, lines[j])|;
      other <= own && (other == own ==> d <= j)
  }

  predicate Least(s: set<nat>, x: nat)
  {
    x in s && forall y :: y in s ==> x <= y
  }

  /** The entries stand for the lines in the set, in order, each with its body. */
  ghost predicate Lists(rules: Rules, lines: seq<string>, found: seq<Numbered>, s: set<nat>)
  {
    && Ascends(rules, lines, found)
    && (forall k :: 0 <= k < |found| ==>
          found[k].index in s && found[k].body == BodyOf(rules, lines[found[k].index]))
    && (forall j :: j in s ==> exists k :: 0 <= k < |found| && found[k].index == j)
  }

  lemma {:induction false} ListsCount(rules: Rules, lines: seq<string>, found: seq<Numbered>, s: set<nat>)
    requires Lists(rules, lines, found, s)
    ensures |found| == |s|
    decreases |found|
  {
    if found == [] {
      assert s == {};
    } else {
      var n := |found| - 1;
      var last := found[n].index;
      forall j | j in s - {last} ensures exists k :: 0 <= k < n && found[..n][k].index == j {
        var k :| 0 <= k < |found| && found[k].index == j;
        assert found[..n][k].index == j;
      }
      ListsCount(rules, lines, found[..n], s - {last});
    }
  }

  function ItemsFrom(rules: Rules, lines: seq<string>, i: nat): set<nat>
  {
    set j: nat | i <= j < |lines| && Item(rules, lines[j])
  }

  /** The scan has come up to line `i`: all lines from there on may stand in the tail. */
  ghost predicate TailScanned(rules: Rules, lines: seq<string>, found: seq<Numbered>, i: nat)
  {
    && i <= |lines| && Lists(rules, lines, found, ItemsFrom(rules, lines, i))
    && forall k :: i <= k < |lines| ==> Passed(rules, lines, k)
  }

  lemma ScanEnds(rules: Rules, lines: seq<string>, found: seq<Numbered>, i: nat)
    requires TailScanned(rules, lines, found, i)
    requires i == 0 || (!Passed(rules, lines, i - 1) && !Item(rules, lines[i - 1]))
    ensures Lists(rules, lines, found, Tail(rules, lines))
  {
    forall j: nat ensures j in ItemsFrom(rules, lines, i) <==> j in Tail(rules, lines) {
      if i <= j < |lines| && Item(rules, lines[j]) {
        assert InTail(rules, lines, j);
      }
    }
    assert ItemsFrom(rules, lines, i) == Tail(rules, lines);
  }

  lemma TailStep(rules: Rules, lines: seq<string>, found: seq<Numbered>, i: nat)
    requires 0 < i && TailScanned(rules, lines, found, i) && Passed(rules, lines, i - 1)
    ensures TailScanned(rules, lines, Collected(rules, lines, i - 1, found), i - 1)
  {
    var line := lines[i - 1];
    var below, more := ItemsFrom(rules, lines, i), ItemsFrom(rules, lines, i - 1);
    if Item(rules, line) {
      assert more == below + {i - 1};
      ListsCons(rules, lines, Numbered(i - 1, BodyOf(rules, line)), found, below);
    } else {
      assert more == below;
    }
  }

  lemma ListsCons(rules: Rules, lines: seq<string>, n: Numbered, found: seq<Numbered>, s: set<nat>)
    requires Lists(rules, lines, found, s) && forall j :: j in s ==> n.index < j
    requires n.index < |lines| && IsNumbered(rules, lines[n.index]) && n.body == BodyOf(rules, lines[n.index])
    ensures Lists(rules, lines, [n] + found, s + {n.index})
  {
    var more := [n] + found;
    AscendsCons(rules, lines, n, found);
    forall j | j in s + {n.index} ensures exists k :: 0 <= k < |more| && more[k].index == j {
      if j == n.index {
        assert more[0].index == j;
      } else {
        var k :| 0 <= k < |found| && found[k].index == j;
        assert more[k + 1].index == j;
      }
    }
  }

  lemma NoneFound(rules: Rules, lines: seq<string>, found: seq<Numbered>, i: nat)
    requires TailScanned(rules, lines, found, i)
    ensures found == [] <==> forall m :: i <= m < |lines| ==> !Item(rules, lines[m])
  {
    if found == [] {
      forall m | i <= m < |lines| ensures !Item(rules, lines[m]) {
        assert m !in ItemsFrom(rules, lines, i);
      }
    } else {
      assert found[0].index in ItemsFrom(rules, lines, i);
    }
  }

  function Collected(rules: Rules, lines: seq<string>, k: nat, found: seq<Numbered>): seq<Numbered>
    requires k < |lines|
  {
    if Item(rules, lines[k]) then [Numbered(k, BodyOf(rules, lines[k]))] + found else found
  }

  /** The scan stops exactly at a line that may not stand in the tail. */
  lemma ScanUnfold(rules: Rules, lines: seq<string>, i: nat, found: seq<Numbered>)
    requires 0 < i && TailScanned(rules, lines, found, i)
    ensures Scan(rules, lines, i, found) ==
      if Passed(rules, lines, i - 1) then Scan(rules, lines, i - 1, Collected(rules, lines, i - 1, found)) else found
  {
    NoneFound(rules, lines, found, i);
  }

  lemma {:induction false} ScanLists(rules: Rules, lines: seq<string>, i: nat, found: seq<Numbered>)
    requires TailScanned(rules, lines, found, i)
    ensures Lists(rules, lines, Scan(rules, lines, i, found), Tail(rules, lines))
    decreases i
  {
    if i == 0 || !Passed(rules, lines, i - 1) {
      ScanEnds(rules, lines, found, i);
    } else {
      TailStep(rules, lines, found, i);
      ScanLists(rules, lines, i - 1, Collected(rules, lines, i - 1, found));
    }
    if i > 0 {
      ScanUnfold(rules, lines, i, found);
    }
  }

  lemma {:induction false} DominantFirst(found: seq<Numbered>) returns (k: nat)
    requires found != []
    ensures k < |found| && found[k].body == Dominant(found)
    ensures forall j :: 0 <= j < |found| ==> |found[j].body| <= |found[k].body|
    ensures forall j :: 0 <= j < k ==> |found[j].body| < |found[k].body|
    decreases |found|
  {
    var n := |found| - 1;
    if n == 0 {
      k := 0;
    } else {
      k := DominantFirst(found[..n]);
      assert forall j :: 0 <= j < n ==> found[..n][j] == found[j];
      if |found[k].body| < |found[n].body| {
        k := n;
      }
    }
  }

  /** Entry `k` has the first of the longest bodies, so its line has. */
  lemma LongestLine(rules: Rules, lines: seq<string>, found: seq<Numbered>) returns (d: nat)
    requires Lists(rules, lines, found, Tail(rules, lines)) && found != []
    ensures Longest(rules, lines, d) && BodyOf(rules, lines[d]) == Dominant(found)
  {
    var k := DominantFirst(found);
    d := found[k].index;
    forall j | j in Tail(rules, lines)
      ensures var own, other := |BodyOf(rules, lines[d])|, |BodyOf(rules, lines[j])|;
        other <= own && (other == own ==> d <= j)
    {
      var m :| 0 <= m < |found| && found[m].index == j;
      assert k < m ==> d < j;
    }
  }

  lemma {:induction false} CompatibleAll(rules: Rules, dominant: string, found: seq<Numbered>, k: nat)
    requires k < |found| && rules.similar(dominant, found[k].body)
    ensures found[k] in Compatible(rules, dominant, found)
    decreases |found|
  {
    if k < |found| - 1 {
      CompatibleAll(rules, dominant, found[..|found| - 1], k);
    }
  }

  lemma SimilarLists(rules: Rules, lines: seq<string>, found: seq<Numbered>, d: nat)
    requires Lists(rules, lines, found, Tail(rules, lines)) && d in Tail(rules, lines)
    ensures Lists(rules, lines, Compatible(rules, BodyOf(rules, lines[d]), found), Similar(rules, lines, d))
  {
    var body := BodyOf(rules, lines[d]);
    var some := Compatible(rules, body, found);
    CompatibleAscends(rules, lines, body, found);
    CompatibleSublist(rules, body, found);
    forall k | 0 <= k < |some|
      ensures some[k].index in Similar(rules, lines, d) && some[k].body == BodyOf(rules, lines[some[k].index])
    {
      assert some[k] in found;
    }
    forall j | j in Similar(rules, lines, d) ensures exists k :: 0 <= k < |some| && some[k].index == j {
      var k :| 0 <= k < |found| && found[k].index == j;
      CompatibleAll(rules, body, found, k);
    }
  }

  lemma FirstLeast(rules: Rules, lines: seq<string>, found: seq<Numbered>, s: set<nat>)
    requires Lists(rules, lines, found, s) && found != []
    ensures Least(s, found[0].index)
  {
    forall y | y in s ensures found[0].index <= y {
      var k :| 0 <= k < |found| && found[k].index == y;
    }
  }

  /** The evidence a cut needs: among the numbered lines of the tail the first of the longest
      bodies is a real sentence, and at least four lines have a body similar to it. */
  predicate Degenerate(rules: Rules, lines: seq<string>, d: nat)
  {
    && Longest(rules, lines, d)
    && |BodyOf(rules, lines[d])| >= 40
    && |Similar(rules, lines, d)| >= 4
  }

  /** The repeats start at the first line of the tail when at least half of it is similar, and
      otherwise at the first similar line. */
  predicate RepeatsFrom(rules: Rules, lines: seq<string>, d: nat, start: nat)
    requires d in Tail(rules, lines)
  {
    Least(if 2 * |Similar(rules, lines, d)| >= |Tail(rules, lines)| then Tail(rules, lines) else Similar(rules, lines, d),
          start)
  }

  lemma LongestUnique(rules: Rules, lines: seq<string>, d: nat, e: nat)
    requires Longest(rules, lines, d) && Longest(rules, lines, e)
    ensures d == e
  {
  }

  lemma SimilarInTail(rules: Rules, lines: seq<string>, d: nat)
    requires d in Tail(rules, lines)
    ensures Similar(rules, lines, d) <= Tail(rules, lines) && |Similar(rules, lines, d)| <= |Tail(rules, lines)|
  {
    SubsetCount(Similar(rules, lines, d), Tail(rules, lines));
  }

  lemma {:induction false} SubsetCount(a: set<nat>, b: set<nat>)
    requires a <= b
    ensures |a| <= |b|
    decreases |a|
  {
    if x :| x in a {
      SubsetCount(a - {x}, b - {x});
    }
  }

  /** There is a cut exactly when the tail is degenerate, and then it is made where the repeats
      start, moved up past the lines that announce them. */
  lemma CutIff(rules: Rules, lines: seq<string>)
    ensures CutLine(rules, lines).Some? <==> exists d :: Degenerate(rules, lines, d)
    ensures forall d: nat, start: nat :: Degenerate(rules, lines, d) && RepeatsFrom(rules, lines, d, start) ==>
      start < |lines| && CutLine(rules, lines) == Some(IntroducerStart(lines, start))
  {
    var found := Scan(rules, lines, |lines|, []);
    ScanLists(rules, lines, |lines|, []);
    ListsCount(rules, lines, found, Tail(rules, lines));
    if found == [] {
      assert Tail(rules, lines) == {};
    } else {
      var d := LongestLine(rules, lines, found);
      CutFrom(rules, lines, found, d);
      forall e | Longest(rules, lines, e) ensures e == d {
        LongestUnique(rules, lines, d, e);
      }
    }
  }

  lemma {:induction false} RepeatStartIff(rules: Rules, lines: seq<string>, found: seq<Numbered>, d: nat)
    requires found != [] && Lists(rules, lines, found, Tail(rules, lines))
    requires Longest(rules, lines, d) && BodyOf(rules, lines[d]) == Dominant(found)
    ensures RepeatStart(rules, found).Some? <==> Degenerate(rules, lines, d)
    ensures Degenerate(rules, lines, d) ==>
      RepeatsFrom(rules, lines, d, RepeatStart(rules, found).value) && RepeatStart(rules, found).value < |lines|
  {
    var some := Compatible(rules, Dominant(found), found);
    ListsCount(rules, lines, found, Tail(rules, lines));
    SimilarLists(rules, lines, found, d);
    ListsCount(rules, lines, some, Similar(rules, lines, d));
    SimilarInTail(rules, lines, d);
    FirstLeast(rules, lines, found, Tail(rules, lines));
    if some != [] {
      FirstLeast(rules, lines, some, Similar(rules, lines, d));
    }
  }

  lemma {:induction false} CutFrom(rules: Rules, lines: seq<string>, found: seq<Numbered>, d: nat)
    requires found == Scan(rules, lines, |lines|, []) != [] && Lists(rules, lines, found, Tail(rules, lines))
    requires Longest(rules, lines, d) && BodyOf(rules, lines[d]) == Dominant(found)
    ensures CutLine(rules, lines).Some? <==> Degenerate(rules, lines, d)
    ensures forall start: nat :: Degenerate(rules, lines, d) && RepeatsFrom(rules, lines, d, start) ==>
      start < |lines| && CutLine(rules, lines) == Some(IntroducerStart(lines, start))
  {
    RepeatStartIff(rules, lines, found, d);
    var at := RepeatStart(rules, found);
    CutAt(rules, lines, found);
    forall start: nat | Degenerate(rules, lines, d) && RepeatsFrom(rules, lines, d, start) ensures at == Some(start) {
      LeastUnique(if 2 * |Similar(rules, lines, d)| >= |Tail(rules, lines)| then Tail(rules, lines)
                  else Similar(rules, lines, d), start, at.value);
    }
  }

  lemma LeastUnique(s: set<nat>, x: nat, y: nat)
    requires Least(s, x) && Least(s, y)
    ensures x == y
  {
  }

  lemma {:induction false} CutAt(rules: Rules, lines: seq<string>, found: seq<Numbered>)
    requires found == Scan(rules, lines, |lines|, [])
    ensures CutLine(rules, lines) ==
      var at := RepeatStart(rules, found);
      if at.Some? && at.value <= |lines| then Some(IntroducerStart(lines, at.value)) else None
  {
  }

  // ---------- length and prefix ----------

  lemma {:induction false} CutLeavesLines(rules: Rules, lines: seq<string>)
    requires CutLine(rules, lines).Some?
    ensures CutLine(rules, lines).value + MIN_REPEAT_LINES <= |lines|
  {
    var found := Scan(rules, lines, |lines|, []);
    ScanShape(rules, lines);
    RepeatStartNumbered(rules, lines);
    var dominant := Dominant(found);
    var compatible := Compatible(rules, dominant, found);
    CompatibleAscends(rules, lines, dominant, found);
    if 2 * |compatible| >= |found| {
      SpreadApart(rules, lines, found);
    } else {
      SpreadApart(rules, lines, compatible);
    }
  }

  lemma {:induction false} CompatibleAscends(rules: Rules, lines: seq<string>, dominant: string, found: seq<Numbered>)
    requires Ascends(rules, lines, found)
    ensures Ascends(rules, lines, Compatible(rules, dominant, found))
    decreases |found|
  {
    if found != [] {
      var init := found[..|found| - 1];
      CompatibleAscends(rules, lines, dominant, init);
      CompatibleSublist(rules, dominant, init);
      var rest := Compatible(rules, dominant, init);
      forall j | 0 <= j < |rest| ensures rest[j].index < found[|found| - 1].index {
        assert rest[j] in init;
      }
    }
  }

  lemma SpreadApart(rules: Rules, lines: seq<string>, found: seq<Numbered>)
    requires Ascends(rules, lines, found) && |found| >= 4
    ensures found[0].index + 4 <= |lines|
  {
    assert found[0].index < found[1].index < found[2].index < found[3].index < |lines|;
  }

  /** A cut shortens the text, and up to trailing whitespace leaves a prefix of it. */
  lemma NumberedCutShortens(rules: Rules, text: string)
    ensures Trimmed(rules, text) != text ==> |Trimmed(rules, text)| < |text|
    ensures RStrip(Trimmed(rules, text)) <= text
  {
    var lines := Split(text);
    JoinSplit(text);
    var cut := CutLine(rules, lines);
    if cut.Some? {
      CutLeavesLines(rules, lines);
      var kept, gone := lines[..cut.value], lines[cut.value..];
      assert lines == kept + gone;
      JoinLength(gone);
      if kept != [] {
        JoinAppend(kept, gone);
      }
      assert Join(kept) <= text;
      RStripNewline(RStrip(Join(kept)));
      RStripTwice(Join(kept));
    }
  }

  lemma RStripNewline(s: string)
    ensures RStrip(s + "\n") == RStrip(s)
  {
    assert (s + "\n")[..|s|] == s;
  }

  lemma {:induction false} RStripTwice(s: string)
    ensures RStrip(RStrip(s)) == RStrip(s)
    decreases |s|
  {
    if s != "" && IsSpace(s[|s| - 1]) {
      RStripTwice(s[..|s| - 1]);
    }
  }

  // ---------- what is left ----------

  /** Every line that is not blank is still there, up to whitespace at its end. */
  predicate LinesKept(lines: seq<string>, kept: seq<string>)
  {
    |kept| <= |lines| && forall j :: 0 <= j < |lines| ==> LineKept(lines, kept, j)
  }

  predicate LineKept(lines: seq<string>, kept: seq<string>, j: int)
    requires 0 <= j < |lines|
  {
    if j < |kept| then RStrip(kept[j]) == RStrip(lines[j]) else Blank(lines[j])
  }

  lemma LinesKeptTrans(a: seq<string>, b: seq<string>, c: seq<string>)
    requires LinesKept(a, b) && LinesKept(b, c)
    ensures LinesKept(a, c)
  {
    forall j | 0 <= j < |a| ensures LineKept(a, c, j) {
      assert LineKept(a, b, j);
      if j < |b| {
        assert LineKept(b, c, j);
        StripOfRStrip(a[j]);
        StripOfRStrip(b[j]);
      }
    }
  }

  lemma SpaceGone(s: string, c: char)
    requires IsSpace(c)
    ensures LinesKept(Split(s + [c]), Split(s))
  {
    var lines, kept := Split(s + [c]), Split(s);
    SplitSnoc(s, c);
    forall j | 0 <= j < |lines| ensures LineKept(lines, kept, j) {
      if j == |kept| - 1 && c != '\n' {
        assert (kept[j] + [c])[..|kept[j]|] == kept[j];
      }
    }
  }

  lemma {:induction false} LinesOfRStrip(s: string)
    ensures LinesKept(Split(s), Split(RStrip(s)))
    decreases |s|
  {
    if s != "" && IsSpace(s[|s| - 1]) {
      var n := |s| - 1;
      assert s == s[..n] + [s[n]];
      SpaceGone(s[..n], s[n]);
      LinesOfRStrip(s[..n]);
      LinesKeptTrans(Split(s), Split(s[..n]), Split(RStrip(s)));
    }
  }

  /** The lines above the cut, and one newline. */
  function Upper(lines: seq<string>, first: nat): string
    requires first <= |lines|
  {
    RStrip(Join(lines[..first])) + "\n"
  }

  /** Nothing of the lines above the cut is lost but whitespace. */
  lemma UpperKept(text: string, first: nat)
    requires 0 < first <= |Split(text)|
    ensures LinesKept(Split(text)[..first] + [""], Split(Upper(Split(text), first)))
  {
    var lines := Split(text)[..first];
    var kept := Split(RStrip(Join(lines)));
    SplitLinesClean(text);
    SplitJoin(lines);
    LinesOfRStrip(Join(lines));
    SplitSnoc(RStrip(Join(lines)), '\n');
    forall j | 0 <= j < |lines + [""]| ensures LineKept(lines + [""], kept + [""], j) {
      if j < |lines| {
        assert LineKept(lines, kept, j);
      }
      BlankTail(lines, kept, j);
    }
  }

  lemma BlankTail(lines: seq<string>, kept: seq<string>, j: int)
    requires LinesKept(lines, kept) && 0 <= j <= |lines|
    ensures |kept| <= j ==> RStrip((lines + [""])[j]) == "" && Blank((lines + [""])[j])
  {
    if |kept| <= j < |lines| {
      assert LineKept(lines, kept, j);
      BlankIsSpace(lines[j]);
    }
  }

  lemma {:induction false} BlankIsSpace(s: string)
    requires Strip(s) == ""
    ensures RStrip(s) == ""
  {
    SolidStrip(s);
    SolidRStrip(s);
    RStripEnd(s);
    if RStrip(s) != "" {
      LastSolid(RStrip(s));
    }
  }

  lemma LastSolid(s: string)
    requires s != "" && !IsSpace(s[|s| - 1])
    ensures Solid(s) != ""
  {
    SolidSnoc(s[..|s| - 1], s[|s| - 1]);
    assert s[..|s| - 1] + [s[|s| - 1]] == s;
  }

  lemma CutShortens(rules: Rules, text: string)
    requires CutLine(rules, Split(text)).Some?
    ensures |Trimmed(rules, text)| < |text|
  {
    var lines := Split(text);
    var cut := CutLine(rules, lines).value;
    CutLeavesLines(rules, lines);
    JoinSplit(text);
    var kept, gone := lines[..cut], lines[cut..];
    assert lines == kept + gone;
    JoinLength(gone);
    if kept != [] {
      JoinAppend(kept, gone);
    }
  }

  lemma {:induction false} LeastOf(s: set<nat>) returns (x: nat)
    requires s != {}
    ensures Least(s, x)
    decreases |s|
  {
    x :| x in s;
    assert s == {x} + (s - {x});
    if s - {x} != {} {
      var y := LeastOf(s - {x});
      x := if x < y then x else y;
    }
  }

  /** A degenerate tail does have such a place. */
  lemma CutPlace(rules: Rules, lines: seq<string>, d: nat) returns (start: nat, first: nat)
    requires Degenerate(rules, lines, d)
    ensures RepeatsFrom(rules, lines, d, start) && start <= |lines| && IntroducerBlock(lines, start, first)
  {
    assert d in Tail(rules, lines);
    start := LeastOf(if 2 * |Similar(rules, lines, d)| >= |Tail(rules, lines)| then Tail(rules, lines)
                     else Similar(rules, lines, d));
    first := IntroducerStart(lines, start);
    IntroducersPassed(lines, start);
  }

  /** The pass changes a text exactly when its tail is degenerate. Then the text becomes the
      lines above the block of lead-ins that is above the repeats, with one newline after
      them; without such a block, the lines above the repeats. */
  lemma TrimmedText(rules: Rules, text: string)
    ensures Trimmed(rules, text) != text <==> exists d :: Degenerate(rules, Split(text), d)
    ensures forall d: nat, start: nat, first: nat ::
      Degenerate(rules, Split(text), d) && RepeatsFrom(rules, Split(text), d, start)
      && start <= |Split(text)| && IntroducerBlock(Split(text), start, first) ==>
      Trimmed(rules, text) == Upper(Split(text), first)
  {
    var lines := Split(text);
    CutIff(rules, lines);
    if CutLine(rules, lines).Some? {
      CutShortens(rules, text);
    }
    forall d: nat, start: nat, first: nat |
      Degenerate(rules, lines, d) && RepeatsFrom(rules, lines, d, start)
      && start <= |lines| && IntroducerBlock(lines, start, first)
      ensures Trimmed(rules, text) == Upper(lines, first)
    {
      IntroducersPassed(lines, start);
      IntroducerBlockUnique(lines, start, first, IntroducerStart(lines, start));
    }
  }

  /** The whole cleanup is the numbered cut of what the periodic cut leaves. */
  lemma CleanupText(rules: Rules, text: string)
    ensures var exact := PeriodTrim.Trimmed(text, PeriodTrim.DEFAULT);
      && (Cleanup(rules, text).text != exact <==> exists d :: Degenerate(rules, Split(exact), d))
      && forall d: nat, start: nat, first: nat ::
           Degenerate(rules, Split(exact), d) && RepeatsFrom(rules, Split(exact), d, start)
           && start <= |Split(exact)| && IntroducerBlock(Split(exact), start, first) ==>
           Cleanup(rules, text).text == Upper(Split(exact), first)
  {
    var exact := PeriodTrim.Trimmed(text, PeriodTrim.DEFAULT);
    TrimmedText(rules, exact);
    if text == "" {
      assert CutLine(rules, Split("")) == None by {
        CutNeedsLines(rules, Split(""));
      }
    }
  }

  lemma CutNeedsLines(rules: Rules, lines: seq<string>)
    ensures CutLine(rules, lines).Some? ==> MIN_REPEAT_LINES <= |lines|
  {
    if CutLine(rules, lines).Some? {
      CutLeavesLines(rules, lines);
    }
  }

  /** The report is truthful: the cleaned text never grows, up to trailing whitespace it is
      a prefix of the transcription, a positive count of removed characters goes together
      with a named pass, and text without a named pass comes back unchanged. */
  lemma CleanupReportExact(rules: Rules, text: string)
    ensures var c := Cleanup(rules, text);
      && RStrip(c.text) <= text
      && c.trimmedChars == |text| - |c.text| >= 0
      && (c.trimmedChars > 0 <==> c.passes != [])
      && (c.passes == [] <==> c.text == text)
  {
    var exact := PeriodTrim.Trimmed(text, PeriodTrim.DEFAULT);
    PeriodTrim.TrimIsPrefix(text, PeriodTrim.DEFAULT);
    NumberedCutShortens(rules, exact);
    assert |exact| == |text| ==> exact == text;
  }

  /** Each named pass really changed its input, and each unnamed one did not. */
  lemma PassesNameChanges(rules: Rules, text: string)
    requires text != ""
    ensures var exact := PeriodTrim.Trimmed(text, PeriodTrim.DEFAULT);
      && (ExactPeriod in Cleanup(rules, text).passes <==> exact != text)
      && (NumberedPseudo in Cleanup(rules, text).passes <==> Trimmed(rules, exact) != exact)
  {
    var exact := PeriodTrim.Trimmed(text, PeriodTrim.DEFAULT);
    PeriodTrim.TrimIsPrefix(text, PeriodTrim.DEFAULT);
    NumberedCutShortens(rules, exact);
    assert |exact| == |text| ==> exact == text;
  }
}
