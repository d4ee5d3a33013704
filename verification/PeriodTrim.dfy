/** Cutting a transcription whose tail degenerated into exact repetition.

    A tail has period `u` when each of its characters, from the second unit on, equals the
    one `u` places before it. The scan tries the periods in ascending order and takes the
    first whose longest tail is long enough and repeats often enough. Of that tail it keeps
    one unit and the incomplete unit at the end. */
module PeriodTrim {

  datatype Thresholds = Thresholds(minTextLen: int, maxPeriod: int, minRepeatChars: int, minRepeatTimes: int)

  const DEFAULT := Thresholds(1500, 200, 100, 5)

  // ---------- periodic tails ----------

  /** The character at `i` is the one `u` places before it. */
  predicate Same(text: string, u: int, i: int)
  {
    0 <= i - u < i < |text| && text[i] == text[i - u]
  }

  /** The last `len` characters repeat with period `u`. */
  predicate TailPeriodic(text: string, u: int, len: int)
  {
    1 <= u && 0 <= len <= |text| &&
    forall i :: |text| - len + u <= i < |text| ==> Same(text, u, i)
  }

  /** How many characters, walking left from `idx`, equal the one `u` before them. */
  function Matches(text: string, u: int, idx: int): (m: nat)
    requires 1 <= u && -1 <= idx < |text|
    ensures m <= idx + 1
    ensures forall i :: idx - m < i <= idx ==> Same(text, u, i)
    ensures !Same(text, u, idx - m)
    decreases idx
  {
    if Same(text, u, idx) then 1 + Matches(text, u, idx - 1) else 0
  }

  lemma {:induction false} MatchesInside(text: string, u: int, idx: int)
    requires 1 <= u && -1 <= idx < |text|
    ensures Matches(text, u, idx) == 0 || Matches(text, u, idx) <= idx - u + 1
    decreases idx
  {
    if Same(text, u, idx) {
      MatchesInside(text, u, idx - 1);
    }
  }

  /** Length of the longest tail with period `u`. */
  function TailLength(text: string, u: int): (t: int)
    requires 1 <= u < |text|
    ensures u <= t <= |text| && TailPeriodic(text, u, t)
  {
    MatchesInside(text, u, |text| - 1);
    Matches(text, u, |text| - 1) + u
  }

  /** No longer tail has this period. */
  lemma TailLengthMaximal(text: string, u: int, len: int)
    requires 1 <= u < |text| && TailPeriodic(text, u, len)
    ensures len <= TailLength(text, u)
  {
    assert !Same(text, u, |text| - 1 - Matches(text, u, |text| - 1));
  }

  /** Whole units in the longest tail. */
  function Repeats(text: string, u: int): int
    requires 1 <= u < |text|
  {
    TailLength(text, u) / u
  }

  predicate Qualifies(text: string, u: int, th: Thresholds)
  {
    && 1 <= u <= th.maxPeriod && u < |text|
    && u < TailLength(text, u)
    && Repeats(text, u) >= th.minRepeatTimes && TailLength(text, u) >= th.minRepeatChars
  }

  /** A period qualifies exactly when some tail longer than one unit repeats it often enough. */
  lemma QualifiesIff(text: string, u: int, th: Thresholds)
    requires 1 <= u <= th.maxPeriod && u < |text|
    ensures Qualifies(text, u, th) <==>
            exists len :: u < len && TailPeriodic(text, u, len) && len / u >= th.minRepeatTimes
                          && len >= th.minRepeatChars
  {
    if Qualifies(text, u, th) {
      assert TailPeriodic(text, u, TailLength(text, u));
    }
    if len :| u < len && TailPeriodic(text, u, len) && len / u >= th.minRepeatTimes
              && len >= th.minRepeatChars {
      TailLengthMaximal(text, u, len);
      DivMonotone(len, TailLength(text, u), u);
    }
  }

  lemma DivMonotone(a: int, b: int, d: int)
    requires 1 <= d && a <= b
    ensures a / d <= b / d
  {
    assert b == b / d * d + b % d;
    assert a == a / d * d + a % d;
    assert (b / d + 1) * d == b / d * d + d;
  }

  /** The least qualifying period from `u` on, or 0. */
  function LeastPeriod(text: string, u: int, th: Thresholds): (p: int)
    requires 1 <= u
    ensures p == 0 || (u <= p && Qualifies(text, p, th))
    ensures forall v :: u <= v && (p == 0 || v < p) ==> !Qualifies(text, v, th)
    decreases th.maxPeriod - u
  {
    if th.maxPeriod < u then 0
    else if Qualifies(text, u, th) then u
    else LeastPeriod(text, u + 1, th)
  }

  /** One unit of the tail is kept, and the incomplete unit at its end. */
  function Cut(text: string, u: int): string
    requires 1 <= u < |text|
  {
    var total := TailLength(text, u);
    text[..|text| - total + u] + text[|text| - total % u..]
  }

  function Trimmed(text: string, th: Thresholds): string
  {
    if |text| < th.minTextLen then text
    else
      var p := LeastPeriod(text, 1, th);
      if p == 0 then text else Cut(text, p)
  }

  // ---------- the program ----------

  /** Characters matched walking left from the end, the last one already matched. */
  method MatchLength(text: string, unitLen: int) returns (matchLen: int)
    requires 1 <= unitLen < |text| && Same(text, unitLen, |text| - 1)
    ensures matchLen == Matches(text, unitLen, |text| - 1)
  {
    matchLen := 1;
    var idx := |text| - 2;
    while idx >= unitLen && text[idx] == text[idx - unitLen]
      invariant -1 <= idx <= |text| - 2
      invariant Matches(text, unitLen, |text| - 1) == matchLen + Matches(text, unitLen, idx)
    {
      assert Same(text, unitLen, idx);
      matchLen := matchLen + 1;
      idx := idx - 1;
    }
    assert !Same(text, unitLen, idx);
  }

  method TryPeriod(text: string, unitLen: int, th: Thresholds) returns (hit: bool, cut: string)
    requires 1 <= unitLen <= th.maxPeriod && unitLen < |text|
    ensures hit <==> Qualifies(text, unitLen, th)
    ensures hit ==> cut == Cut(text, unitLen)
  {
    var n := |text|;
    if text[n - 1] != text[n - 1 - unitLen] {
      assert !Same(text, unitLen, n - 1);
      return false, "";
    }
    var matchLen := MatchLength(text, unitLen);
    var totalLen := matchLen + unitLen;
    var repeatTimes := totalLen / unitLen;
    var tailLen := totalLen % unitLen;
    if repeatTimes >= th.minRepeatTimes && totalLen >= th.minRepeatChars {
      return true, text[..n - totalLen + unitLen] + text[n - tailLen..];
    }
    return false, "";
  }

  method TrimExactPeriodRepeats(text: string, th: Thresholds) returns (r: string)
    ensures r == Trimmed(text, th)
  {
    var n := |text|;
    if n < th.minTextLen {
      return text;
    }
    var maxPeriod := if th.maxPeriod < n - 1 then th.maxPeriod else n - 1;
    var unitLen := 1;
    while unitLen <= maxPeriod
      invariant 1 <= unitLen
      invariant LeastPeriod(text, 1, th) == LeastPeriod(text, unitLen, th)
    {
      var hit, cut := TryPeriod(text, unitLen, th);
      if hit {
        return cut;
      }
      unitLen := unitLen + 1;
    }
    r := text;
  }

  // ---------- the cut is lossless up to repetition ----------

  function Repeat(s: string, k: nat): string
  {
    if k == 0 then "" else Repeat(s, k - 1) + s
  }

  /** `k` units of length `u`. */
  function Units(k: nat, u: nat): nat
  {
    if k == 0 then 0 else Units(k - 1, u) + u
  }

  lemma {:induction false} UnitsProduct(k: nat, u: nat)
    ensures Units(k, u) == k * u
    decreases k
  {
    if k > 0 {
      UnitsProduct(k - 1, u);
      assert k * u == (k - 1) * u + u;
    }
  }

  /** Inside a periodic tail, moving left by any number of periods changes nothing. */
  lemma {:induction false} PeriodShift(text: string, u: nat, len: int, i: int, k: nat)
    requires TailPeriodic(text, u, len) && |text| - len <= i - Units(k, u) && i < |text|
    ensures text[i] == text[i - Units(k, u)]
    decreases k
  {
    if k > 0 {
      assert Same(text, u, i);
      PeriodShift(text, u, len, i - u, k - 1);
    }
  }

  /** A block of the periodic tail equals the block `k` units to its left. */
  lemma BlockShift(text: string, u: nat, len: int, from: int, size: nat, k: nat)
    requires TailPeriodic(text, u, len) && |text| - len <= from - Units(k, u) && from + size <= |text|
    ensures text[from..from + size] == text[from - Units(k, u)..from - Units(k, u) + size]
  {
    var d := Units(k, u);
    var a, b := text[from..from + size], text[from - d..from - d + size];
    forall j | 0 <= j < size ensures a[j] == b[j] {
      PeriodShift(text, u, len, from + j, k);
    }
  }

  /** The tail of length `total` is `k + 1` whole units and less than one unit more. */
  lemma TailUnits(total: int, u: nat) returns (k: nat)
    requires 1 <= u <= total
    ensures k + 1 == total / u && total == Units(k, u) + u + total % u
  {
    DivMonotone(u, total, u);
    k := total / u - 1;
    UnitsProduct(k + 1, u);
    assert total == (total / u) * u + total % u;
  }

  /** The result is the input without its last (repeats - 1) units. */
  lemma CutIsPrefix(text: string, u: nat) returns (k: nat)
    requires 1 <= u < |text|
    ensures k + 1 == Repeats(text, u)
    ensures Units(k, u) <= TailLength(text, u) - u <= |text| - u
    ensures Cut(text, u) == text[..|text| - Units(k, u)]
  {
    var n, total := |text|, TailLength(text, u);
    k := TailUnits(total, u);
    var tail := total % u;
    var end := n - Units(k, u);
    BlockShift(text, u, total, n - tail, tail, k);
    assert text[n - tail..] == text[n - tail..n - tail + tail];
    assert text[n - tail..] == text[end - tail..end];
    assert text[..end] == text[..end - tail] + text[end - tail..end];
  }

  lemma {:induction false} PrefixAndRepeats(text: string, u: nat, len: int, base: int, m: nat)
    requires TailPeriodic(text, u, len) && |text| - len + u <= base && base + Units(m, u) <= |text|
    ensures text[..base] + Repeat(text[base - u..base], m) == text[..base + Units(m, u)]
    decreases m
  {
    if m == 0 {
      assert text[..base] + "" == text[..base];
    } else {
      var unit, mid := text[base - u..base], base + Units(m - 1, u);
      PrefixAndRepeats(text, u, len, base, m - 1);
      BlockShift(text, u, len, mid, u, m);
      Regroup(text[..base], Repeat(unit, m - 1), unit);
    }
  }

  lemma Regroup(a: string, b: string, c: string)
    ensures a + (b + c) == (a + b) + c
  {
  }

  /** The text is `r` followed by whole copies of the last `u` characters of `r`, as many
      as bring the tail to the given number of repeats. */
  predicate RestoredFrom(text: string, r: string, u: nat, repeats: int)
  {
    u <= |r| && 1 <= repeats && text == r + Repeat(r[|r| - u..], repeats - 1)
  }

  /** The input is the result followed by copies of the result's own last unit. */
  lemma CutIsLossless(text: string, u: nat)
    requires 1 <= u < |text|
    ensures RestoredFrom(text, Cut(text, u), u, Repeats(text, u))
  {
    var k := CutIsPrefix(text, u);
    var base := |text| - Units(k, u);
    PrefixAndRepeats(text, u, TailLength(text, u), base, k);
    var r := Cut(text, u);
    assert r[|r| - u..] == text[base - u..base];
    assert text[..base + Units(k, u)] == text;
  }

  predicate LeastQualifying(text: string, u: int, th: Thresholds)
  {
    Qualifies(text, u, th) && forall v :: 1 <= v < u ==> !Qualifies(text, v, th)
  }

  /** The whole operation: when the result differs from the input, the input is restored
      from it, and the period is the least one with a tail that meets the thresholds. */
  lemma TrimIsLossless(text: string, th: Thresholds) returns (u: nat)
    requires Trimmed(text, th) != text
    ensures LeastQualifying(text, u, th)
    ensures RestoredFrom(text, Trimmed(text, th), u, Repeats(text, u))
  {
    u := LeastPeriod(text, 1, th);
    CutIsLossless(text, u);
  }

  /** The result is always a prefix of the input. */
  lemma TrimIsPrefix(text: string, th: Thresholds)
    ensures Trimmed(text, th) <= text
  {
    var u := LeastPeriod(text, 1, th);
    if |text| >= th.minTextLen && u != 0 {
      var k := CutIsPrefix(text, u);
    }
  }

  /** With at least two repeats demanded, text is cut exactly when it is long enough and
      some period qualifies. */
  lemma TrimmedIff(text: string, th: Thresholds)
    requires 2 <= th.minRepeatTimes
    ensures Trimmed(text, th) != text <==>
            th.minTextLen <= |text| && exists u :: Qualifies(text, u, th)
  {
    var u := LeastPeriod(text, 1, th);
    if u != 0 && |text| >= th.minTextLen {
      var k := CutIsPrefix(text, u);
      assert Units(k, u) == Units(k - 1, u) + u;
    }
  }

  // ---------- what a second pass would do ----------

  /** After a cut fewer than two units of that period remain at the end, so the same period
      never qualifies again. */
  lemma CutPeriodSpent(text: string, u: nat, th: Thresholds)
    requires Qualifies(text, u, th) && 2 <= th.minRepeatTimes
    ensures !Qualifies(Cut(text, u), u, th)
  {
    var k := CutIsPrefix(text, u);
    var total := TailLength(text, u);
    var left := |text| - total;
    var k' := TailUnits(total, u);
    var r := Cut(text, u);
    if u < |r| {
      var t := TailLength(r, u);
      if t > |r| - left {
        LongerTail(text, r, u, total);
      }
      DivLess(t, u);
    }
  }

  /** A tail of the result reaching left of the input's longest tail would lengthen that. */
  lemma LongerTail(text: string, r: string, u: nat, total: int)
    requires 1 <= u < |r| && r <= text && total == TailLength(text, u)
    requires u < |r| - (|text| - total)
    ensures TailLength(r, u) <= |r| - (|text| - total)
  {
    var left := |text| - total;
    assert !Same(text, u, left - 1 + u);
    assert !Same(r, u, left - 1 + u);
    assert TailPeriodic(r, u, TailLength(r, u));
  }

  lemma DivLess(t: int, u: int)
    requires 1 <= u && 0 <= t < 2 * u
    ensures t / u < 2
  {
  }

  /** The first `end` characters of the text end in repeats of period `v`, long enough and
      often enough. */
  ghost predicate RepeatsUpTo(text: string, end: int, v: int, th: Thresholds)
  {
    1 <= v <= th.maxPeriod && exists len :: RepeatingTail(text, end, v, len, th)
  }

  predicate RepeatingTail(text: string, end: int, v: int, len: int, th: Thresholds)
  {
    && 1 <= v < len <= end <= |text|
    && (forall i :: end - len + v <= i < end ==> Same(text, v, i))
    && len / v >= th.minRepeatTimes && len >= th.minRepeatChars
  }

  lemma RepeatsUpToIff(text: string, end: int, v: int, th: Thresholds)
    requires 0 <= end <= |text|
    ensures RepeatsUpTo(text, end, v, th) <==> Qualifies(text[..end], v, th)
  {
    var r := text[..end];
    if 1 <= v <= th.maxPeriod && v < end {
      QualifiesIff(r, v, th);
      forall len | v < len
        ensures RepeatingTail(text, end, v, len, th) <==>
                TailPeriodic(r, v, len) && len / v >= th.minRepeatTimes && len >= th.minRepeatChars
      {
        assert forall i :: i < end ==> (Same(r, v, i) <==> Same(text, v, i));
      }
    }
  }

  /** What is left of the text once the tail of period `u` is cut to one unit and the
      incomplete one. */
  function KeptLength(text: string, u: int): int
    requires 1 <= u < |text|
  {
    |text| - (Repeats(text, u) - 1) * u
  }

  /** A second pass changes the result exactly when what is left is still long enough and
      ends in repeats of a period other than the one that was cut. */
  lemma SecondPassIff(text: string, th: Thresholds)
    requires 2 <= th.minRepeatTimes
    ensures Trimmed(Trimmed(text, th), th) != Trimmed(text, th) <==>
      th.minTextLen <= |text| && exists u, v ::
        && LeastQualifying(text, u, th) && th.minTextLen <= KeptLength(text, u)
        && v != u && RepeatsUpTo(text, KeptLength(text, u), v, th)
  {
    var u := LeastPeriod(text, 1, th);
    if |text| < th.minTextLen || u == 0 {
      assert Trimmed(text, th) == text;
    } else {
      assert LeastQualifying(text, u, th);
      var k := CutIsPrefix(text, u);
      UnitsProduct(k, u);
      var end := KeptLength(text, u);
      assert Trimmed(text, th) == text[..end];
      TrimmedIff(text[..end], th);
      CutPeriodSpent(text, u, th);
      forall v ensures RepeatsUpTo(text, end, v, th) <==> Qualifies(text[..end], v, th) {
        RepeatsUpToIff(text, end, v, th);
      }
      LeastUnique(text, u, th);
    }
  }

  lemma LeastUnique(text: string, u: int, th: Thresholds)
    requires LeastQualifying(text, u, th)
    ensures forall w :: LeastQualifying(text, w, th) ==> w == u
  {
  }

  // ---------- a second pass can still cut ----------

  function Alternating(n: nat): string { seq(n, i => if i % 2 == 0 then 'a' else 'b') }
  function Bs(n: nat): string { seq(n, _ => 'b') }

  lemma AlternatingCut(text: string)
    requires text == Alternating(2000)
    ensures Trimmed(text, DEFAULT) != text
  {
    forall i | 2 <= i < 2000 ensures Same(text, 2, i) {}
    assert TailPeriodic(text, 2, 2000);
    TailLengthMaximal(text, 2, 2000);
    assert Qualifies(text, 2, DEFAULT);
    TrimmedIff(text, DEFAULT);
  }

  /** The cleanup is not idempotent: cutting a run of one letter exposes an alternation,
      which a second pass cuts. */
  lemma SecondPassCanCut()
    ensures var text := Alternating(2000) + Bs(100);
      && Trimmed(text, DEFAULT) == Alternating(2000)
      && Trimmed(Trimmed(text, DEFAULT), DEFAULT) != Trimmed(text, DEFAULT)
  {
    var text := Alternating(2000) + Bs(100);
    forall i | 2000 <= i < 2100 ensures Same(text, 1, i) {}
    assert !Same(text, 1, 1999);
    assert TailPeriodic(text, 1, 101);
    TailLengthMaximal(text, 1, 101);
    assert TailLength(text, 1) == 101;
    assert Qualifies(text, 1, DEFAULT);
    var k := CutIsPrefix(text, 1);
    UnitsProduct(k, 1);
    assert Cut(text, 1) == Alternating(2000);
    AlternatingCut(Alternating(2000));
  }
}
