/** How a character budget is divided among the steps of a retrieval plan. Ratios are exact
    rationals; every division is the floor of the exact quotient.

    Steps that name documents share a fixed part of the budget, the others split the rest.
    Every quota is then raised to a minimum, a single step is capped, and when the sum
    exceeds the cap for several steps all quotas are scaled down in proportion. */
module StepQuotas {
  import opened Numbers

  datatype Config = Config(ratioNum: nat, ratioDen: nat,
                           minStep: nat, minSingle: nat, singleMax: nat, multiMax: nat)

  /** The share of filtered steps is a proper fraction. */
  predicate ProperConfig(cfg: Config)
  {
    0 < cfg.ratioDen && cfg.ratioNum <= cfg.ratioDen
  }

  function Sum(s: seq<int>): int
  {
    if s == [] then 0 else Sum(s[..|s| - 1]) + s[|s| - 1]
  }

  predicate NonNegative(s: seq<int>)
  {
    forall i :: 0 <= i < |s| ==> 0 <= s[i]
  }

  // ---------- the passes ----------

  function FilteredQuota(maxChars: nat, cfg: Config): nat
    requires ProperConfig(cfg)
  {
    maxChars * cfg.ratioNum / cfg.ratioDen
  }

  /** Steps that name documents share the filtered part by document count. */
  function Share(filtered: nat, count: nat, total: nat): nat
    requires 0 < total || count == 0
  {
    if count == 0 then 0 else filtered * count / total
  }

  function Shares(filtered: nat, counts: seq<nat>): (r: seq<int>)
    ensures |r| == |counts|
  {
    var total := Sum(counts);
    seq(|counts|, i requires 0 <= i < |counts| =>
      if total <= 0 then 0 else Share(filtered, counts[i], total))
  }

  function Unfiltered(counts: seq<nat>): nat
  {
    if counts == [] then 0
    else Unfiltered(counts[..|counts| - 1]) + if counts[|counts| - 1] == 0 then 1 else 0
  }

  /** Steps without a document filter split what is left evenly. */
  function WithRemainder(shares: seq<int>, counts: seq<nat>, maxChars: nat): (r: seq<int>)
    requires |shares| == |counts|
    ensures |r| == |counts|
  {
    var n := Unfiltered(counts);
    if n == 0 then shares
    else
      var each := (maxChars - Sum(shares)) / n;
      seq(|counts|, i requires 0 <= i < |counts| => if counts[i] == 0 then each else shares[i])
  }

  function MinQuota(n: nat, maxChars: nat, cfg: Config): nat
  {
    if n == 1 then Min(cfg.minSingle, maxChars)
    else Min(cfg.minStep, maxChars / Max(n, 1))
  }

  function Raised(quotas: seq<int>, least: int): (r: seq<int>)
    ensures |r| == |quotas|
  {
    seq(|quotas|, i requires 0 <= i < |quotas| => Max(quotas[i], least))
  }

  function Capped(quotas: seq<int>, most: int): (r: seq<int>)
    ensures |r| == |quotas|
  {
    if |quotas| == 1 then [Min(quotas[0], most)] else quotas
  }

  function Scaled(quotas: seq<int>, most: nat): (r: seq<int>)
    ensures |r| == |quotas|
  {
    var total := Sum(quotas);
    if total <= most then quotas
    else seq(|quotas|, i requires 0 <= i < |quotas| => quotas[i] * most / total)
  }

  /** The quotas before the multi-step cap. */
  function Unscaled(counts: seq<nat>, maxChars: nat, cfg: Config): (r: seq<int>)
    requires ProperConfig(cfg)
    ensures |r| == |counts|
  {
    var shares := Shares(FilteredQuota(maxChars, cfg), counts);
    var dealt := WithRemainder(shares, counts, maxChars);
    Capped(Raised(dealt, MinQuota(|counts|, maxChars, cfg)), cfg.singleMax)
  }

  function Quotas(counts: seq<nat>, maxChars: nat, cfg: Config): (r: seq<int>)
    requires ProperConfig(cfg)
    ensures |r| == |counts|
  {
    Scaled(Unscaled(counts, maxChars, cfg), cfg.multiMax)
  }

  // ---------- the program ----------

  /** The steps whose filter resolves to no document, in order. */
  method StepsWithoutFilter(counts: seq<nat>) returns (noFilter: seq<int>)
    ensures |noFilter| == Unfiltered(counts)
    ensures forall k :: k in noFilter <==> 0 <= k < |counts| && counts[k] == 0
  {
    noFilter := [];
    for i := 0 to |counts|
      invariant |noFilter| == Unfiltered(counts[..i])
      invariant forall k :: k in noFilter <==> 0 <= k < i && counts[k] == 0
    {
      assert counts[..i + 1][..i] == counts[..i];
      if counts[i] == 0 {
        noFilter := noFilter + [i];
      }
    }
    assert counts[..|counts|] == counts;
  }

  method AssignShares(quotas: array<int>, counts: seq<nat>, filtered: nat)
    requires quotas.Length == |counts| && forall i :: 0 <= i < |counts| ==> quotas[i] == 0
    modifies quotas
    ensures quotas[..] == Shares(filtered, counts)
  {
    var totalDocs := Sum(counts);
    if totalDocs > 0 {
      for i := 0 to |counts|
        invariant forall j :: 0 <= j < i ==> quotas[j] == Shares(filtered, counts)[j]
        invariant forall j :: i <= j < |counts| ==> quotas[j] == 0
      {
        if counts[i] > 0 {
          quotas[i] := filtered * counts[i] / totalDocs;
        }
      }
    }
  }

  method AssignRemainder(quotas: array<int>, counts: seq<nat>, maxChars: nat)
    requires quotas.Length == |counts|
    modifies quotas
    ensures quotas[..] == WithRemainder(old(quotas[..]), counts, maxChars)
  {
    var noFilter := StepsWithoutFilter(counts);
    if noFilter != [] {
      var remaining := maxChars - Sum(quotas[..]);
      var base := remaining / |noFilter|;
      for k := 0 to |noFilter|
        invariant forall j :: 0 <= j < |counts| ==>
          quotas[j] == if j in noFilter[..k] then base else old(quotas[j])
      {
        assert noFilter[k] in noFilter;
        quotas[noFilter[k]] := base;
        assert noFilter[..k + 1] == noFilter[..k] + [noFilter[k]];
      }
      assert noFilter[..|noFilter|] == noFilter;
    }
  }

  method RaiseTo(quotas: array<int>, least: int)
    modifies quotas
    ensures quotas[..] == Raised(old(quotas[..]), least)
  {
    for i := 0 to quotas.Length
      invariant forall j :: 0 <= j < i ==> quotas[j] == Max(old(quotas[j]), least)
      invariant forall j :: i <= j < quotas.Length ==> quotas[j] == old(quotas[j])
    {
      if quotas[i] < least {
        quotas[i] := least;
      }
    }
  }

  method ScaleTo(quotas: array<int>, most: nat)
    modifies quotas
    ensures quotas[..] == Scaled(old(quotas[..]), most)
  {
    var total := Sum(quotas[..]);
    if total > most {
      for i := 0 to quotas.Length
        invariant forall j :: 0 <= j < i ==> quotas[j] == old(quotas[j]) * most / total
        invariant forall j :: i <= j < quotas.Length ==> quotas[j] == old(quotas[j])
      {
        quotas[i] := quotas[i] * most / total;
      }
    }
  }

  /** `counts[i]` is the number of documents the filter of step i resolves to. The list of
      quotas is rewritten in place, pass by pass. */
  method CalculateStepQuotas(counts: seq<nat>, maxChars: nat, cfg: Config) returns (result: seq<int>)
    requires ProperConfig(cfg)
    ensures result == Quotas(counts, maxChars, cfg)
  {
    if counts == [] {
      return [];
    }
    var quotas := new int[|counts|](_ => 0);
    AssignShares(quotas, counts, maxChars * cfg.ratioNum / cfg.ratioDen);
    AssignRemainder(quotas, counts, maxChars);
    var minQuota := Min(cfg.minStep, maxChars / Max(|counts|, 1));
    if |counts| == 1 {
      minQuota := Min(cfg.minSingle, maxChars);
    }
    RaiseTo(quotas, minQuota);
    if |counts| == 1 && quotas[0] > cfg.singleMax {
      quotas[0] := cfg.singleMax;
    }
    assert quotas[..] == Unscaled(counts, maxChars, cfg);
    ScaleTo(quotas, cfg.multiMax);
    result := quotas[..];
  }

  // ---------- bounds ----------

  lemma FloorTimes(a: int, d: int)
    requires 0 < d
    ensures a / d * d <= a < a / d * d + d
  {
  }

  lemma MulMonotone(k: int, a: int, b: int)
    requires 0 <= k
    ensures a <= b ==> k * a <= k * b && a * k <= b * k
  {
  }

  lemma FloorAtMost(a: int, d: int, b: int)
    requires 0 < d && a < (b + 1) * d
    ensures a / d <= b
  {
    FloorTimes(a, d);
    MulMonotone(d, b + 1, a / d);
  }

  lemma FloorAtLeast(a: int, d: int, b: int)
    requires 0 < d && b * d <= a
    ensures b <= a / d
  {
    FloorTimes(a, d);
    MulMonotone(d, a / d + 1, b);
    assert (a / d + 1) * d == a / d * d + d;
  }

  lemma {:induction false} SumNonNegative(s: seq<int>)
    requires NonNegative(s)
    ensures 0 <= Sum(s)
    ensures forall i :: 0 <= i < |s| ==> s[i] <= Sum(s)
    decreases |s|
  {
    if s != [] {
      SumNonNegative(s[..|s| - 1]);
    }
  }

  /** Rounding each term of a scaled sum down never gains anything. */
  lemma {:induction false} SumOfFloors(s: seq<int>, r: seq<int>, num: nat, den: int)
    requires |r| == |s| && 0 < den && NonNegative(s)
    requires forall i :: 0 <= i < |s| ==> r[i] == s[i] * num / den
    ensures Sum(r) * den <= Sum(s) * num
    decreases |s|
  {
    if s != [] {
      var n := |s| - 1;
      SumOfFloors(s[..n], r[..n], num, den);
      FloorTimes(s[n] * num, den);
    }
  }

  lemma CancelFactor(a: int, b: int, d: int)
    requires 0 < d && a * d <= d * b
    ensures a <= b
  {
    MulMonotone(d, b + 1, a);
    assert (b + 1) * d == d * b + d;
  }

  lemma SharesBounded(filtered: nat, counts: seq<nat>)
    ensures NonNegative(Shares(filtered, counts))
    ensures 0 <= Sum(Shares(filtered, counts)) <= filtered
  {
    var r, total := Shares(filtered, counts), Sum(counts);
    SumNonNegative(counts);
    if total > 0 {
      forall i | 0 <= i < |counts| ensures r[i] == counts[i] * filtered / total && 0 <= r[i] {
        assert filtered * counts[i] == counts[i] * filtered;
      }
      SumOfFloors(counts, r, filtered, total);
      CancelFactor(Sum(r), filtered, total);
    } else {
      SumZeros(r);
    }
    SumNonNegative(r);
  }

  lemma {:induction false} SumZeros(s: seq<int>)
    requires forall i :: 0 <= i < |s| ==> s[i] == 0
    ensures Sum(s) == 0
    decreases |s|
  {
    if s != [] {
      SumZeros(s[..|s| - 1]);
    }
  }

  lemma {:induction false} SumWithEach(shares: seq<int>, counts: seq<nat>, r: seq<int>, each: int)
    requires |shares| == |counts| == |r|
    requires forall i :: 0 <= i < |counts| ==> counts[i] == 0 ==> shares[i] == 0
    requires forall i :: 0 <= i < |counts| ==> r[i] == if counts[i] == 0 then each else shares[i]
    ensures Sum(r) == Sum(shares) + each * Unfiltered(counts)
    decreases |counts|
  {
    if counts != [] {
      var n := |counts| - 1;
      SumWithEach(shares[..n], counts[..n], r[..n], each);
      assert each * Unfiltered(counts) == each * Unfiltered(counts[..n]) + if counts[n] == 0 then each else 0;
    }
  }

  /** Before any floor or cap is applied, the whole assignment fits the budget. */
  lemma DealtFitsBudget(counts: seq<nat>, maxChars: nat, cfg: Config)
    requires ProperConfig(cfg)
    ensures var shares := Shares(FilteredQuota(maxChars, cfg), counts);
      var dealt := WithRemainder(shares, counts, maxChars);
      NonNegative(dealt) && 0 <= Sum(dealt) <= maxChars
  {
    var filtered := FilteredQuota(maxChars, cfg);
    MulMonotone(maxChars, cfg.ratioNum, cfg.ratioDen);
    FloorAtMost(maxChars * cfg.ratioNum, cfg.ratioDen, maxChars);
    SharesBounded(filtered, counts);
    var shares := Shares(filtered, counts);
    var n := Unfiltered(counts);
    var dealt := WithRemainder(shares, counts, maxChars);
    if n > 0 {
      var each := (maxChars - Sum(shares)) / n;
      FloorTimes(maxChars - Sum(shares), n);
      FloorAtLeast(maxChars - Sum(shares), n, 0);
      SumWithEach(shares, counts, dealt, each);
    }
    SumNonNegative(dealt);
  }

  function Dealt(counts: seq<nat>, maxChars: nat, cfg: Config): seq<int>
    requires ProperConfig(cfg)
  {
    WithRemainder(Shares(FilteredQuota(maxChars, cfg), counts), counts, maxChars)
  }

  /** `r` is `part` of `whole` in proportion to `of`, less a rounding of under one. */
  predicate Proportion(r: int, of: int, part: int, whole: int)
  {
    r * whole <= of * part < (r + 1) * whole
  }

  lemma FloorProportion(of: int, part: int, whole: int)
    requires 0 < whole
    ensures Proportion(of * part / whole, of, part, whole)
  {
    FloorTimes(of * part, whole);
    assert (of * part / whole + 1) * whole == of * part / whole * whole + whole;
  }

  /** A step that names documents is dealt its part, by documents, of the filtered part of the
      budget. */
  lemma DealtShare(counts: seq<nat>, maxChars: nat, cfg: Config, i: int)
    requires ProperConfig(cfg) && 0 <= i < |counts| && 0 < counts[i]
    ensures Proportion(FilteredQuota(maxChars, cfg), maxChars, cfg.ratioNum, cfg.ratioDen)
    ensures Proportion(Dealt(counts, maxChars, cfg)[i], FilteredQuota(maxChars, cfg), counts[i], Sum(counts))
  {
    SumNonNegative(counts);
    FloorProportion(maxChars, cfg.ratioNum, cfg.ratioDen);
    FloorProportion(FilteredQuota(maxChars, cfg), counts[i], Sum(counts));
  }

  lemma {:induction false} UnfilteredIff(counts: seq<nat>)
    ensures 0 < Unfiltered(counts) <==> exists i :: 0 <= i < |counts| && counts[i] == 0
    decreases |counts|
  {
    if counts != [] {
      UnfilteredIff(counts[..|counts| - 1]);
    }
  }

  /** The steps that name none are dealt equal parts of all that is left: when there is one, what
      is dealt is the budget, less a rounding of under one for each of them. */
  lemma DealtRest(counts: seq<nat>, maxChars: nat, cfg: Config)
    requires ProperConfig(cfg) && exists i :: 0 <= i < |counts| && counts[i] == 0
    ensures var dealt := Dealt(counts, maxChars, cfg);
      && (forall i, j :: 0 <= i < j < |counts| && counts[i] == counts[j] == 0 ==> dealt[i] == dealt[j])
      && maxChars - Unfiltered(counts) < Sum(dealt) <= maxChars
  {
    UnfilteredIff(counts);
    RestDealt(Shares(FilteredQuota(maxChars, cfg), counts), counts, maxChars);
  }

  lemma RestDealt(shares: seq<int>, counts: seq<nat>, maxChars: nat)
    requires |shares| == |counts| && 0 < Unfiltered(counts)
    requires forall i :: 0 <= i < |counts| ==> counts[i] == 0 ==> shares[i] == 0
    ensures maxChars - Unfiltered(counts) < Sum(WithRemainder(shares, counts, maxChars)) <= maxChars
  {
    var n, rest := Unfiltered(counts), maxChars - Sum(shares);
    var each := rest / n;
    FloorTimes(rest, n);
    SumWithEach(shares, counts, WithRemainder(shares, counts, maxChars), each);
  }

  /** What was dealt, raised to the minimum and, for a single step, capped. */
  function Bounded(dealt: int, steps: nat, maxChars: nat, cfg: Config): int
    requires 0 < steps
  {
    if steps == 1 then Min(Max(dealt, Min(cfg.minSingle, maxChars)), cfg.singleMax)
    else Max(dealt, Min(cfg.minStep, maxChars / steps))
  }

  /** The final quota: that, or, when the sum exceeds the cap for several steps, the cap's part
      in proportion to that. */
  lemma QuotaExact(counts: seq<nat>, maxChars: nat, cfg: Config, u: seq<int>, i: int)
    requires ProperConfig(cfg) && 0 <= i < |counts| && |u| == |counts|
    requires forall j :: 0 <= j < |u| ==> u[j] == Bounded(Dealt(counts, maxChars, cfg)[j], |counts|, maxChars, cfg)
    ensures var q := Quotas(counts, maxChars, cfg)[i];
      if Sum(u) <= cfg.multiMax then q == u[i] else Proportion(q, u[i], cfg.multiMax, Sum(u))
  {
    assert u == Unscaled(counts, maxChars, cfg);
    if Sum(u) > cfg.multiMax {
      FloorProportion(u[i], cfg.multiMax, Sum(u));
    }
  }

  lemma {:induction false} RaisedSum(quotas: seq<int>, least: nat)
    requires NonNegative(quotas)
    ensures Sum(Raised(quotas, least)) <= Sum(quotas) + |quotas| * least
    decreases |quotas|
  {
    if quotas != [] {
      var n := |quotas| - 1;
      RaisedSum(quotas[..n], least);
      assert Raised(quotas, least)[..n] == Raised(quotas[..n], least);
      assert (n + 1) * least == n * least + least;
    }
  }

  lemma SumOne(s: seq<int>)
    requires |s| == 1
    ensures Sum(s) == s[0]
  {
    assert s[..0] == [];
  }

  /** A single step gets at most the budget, and its minimum unless the cap forbids it. */
  lemma UnscaledSingle(counts: seq<nat>, maxChars: nat, cfg: Config)
    requires ProperConfig(cfg) && |counts| == 1
    ensures var u := Unscaled(counts, maxChars, cfg);
      && NonNegative(u) && Sum(u) <= maxChars
      && Min(MinQuota(1, maxChars, cfg), cfg.singleMax) <= u[0]
  {
    DealtFitsBudget(counts, maxChars, cfg);
    SumOne(Dealt(counts, maxChars, cfg));
    SumOne(Unscaled(counts, maxChars, cfg));
  }

  /** Several steps together get at most twice the budget, and each its minimum. */
  lemma UnscaledMulti(counts: seq<nat>, maxChars: nat, cfg: Config)
    requires ProperConfig(cfg) && |counts| != 1
    ensures var u := Unscaled(counts, maxChars, cfg);
      && NonNegative(u) && Sum(u) <= 2 * maxChars
      && forall i :: 0 <= i < |u| ==> MinQuota(|counts|, maxChars, cfg) <= u[i]
  {
    DealtFitsBudget(counts, maxChars, cfg);
    var n, least := |counts|, MinQuota(|counts|, maxChars, cfg);
    RaisedSum(Dealt(counts, maxChars, cfg), least);
    if n > 0 {
      FloorTimes(maxChars, n);
      MulMonotone(n, least, maxChars / n);
      assert n * (maxChars / n) == maxChars / n * n;
    }
  }

  lemma ScaledFits(u: seq<int>, most: nat)
    requires NonNegative(u)
    ensures NonNegative(Scaled(u, most)) && Sum(Scaled(u, most)) <= most
  {
    var total, q := Sum(u), Scaled(u, most);
    if total > most {
      forall i | 0 <= i < |u| ensures 0 <= q[i] {
        FloorAtLeast(u[i] * most, total, 0);
      }
      SumOfFloors(u, q, most, total);
      CancelFactor(Sum(q), most, total);
    }
  }

  /** Whatever the plan, no quota is negative and together they stay within the multi-step
      cap. */
  lemma QuotasFitCap(counts: seq<nat>, maxChars: nat, cfg: Config)
    requires ProperConfig(cfg)
    ensures NonNegative(Quotas(counts, maxChars, cfg))
    ensures Sum(Quotas(counts, maxChars, cfg)) <= cfg.multiMax
  {
    if |counts| == 1 {
      UnscaledSingle(counts, maxChars, cfg);
    } else {
      UnscaledMulti(counts, maxChars, cfg);
    }
    ScaledFits(Unscaled(counts, maxChars, cfg), cfg.multiMax);
  }

  lemma ScaledAtLeast(u: seq<int>, i: int, most: nat, least: nat, bound: nat)
    requires NonNegative(u) && 0 <= i < |u| && least <= u[i] && Sum(u) <= bound && 0 < most
    ensures least * most / Max(most, bound) <= Scaled(u, most)[i]
  {
    var total, big := Sum(u), Max(most, bound);
    var g := least * most / big;
    FloorTimes(least * most, big);
    FloorAtLeast(least * most, big, 0);
    if total > most {
      MulMonotone(g, total, big);
      MulMonotone(most, least, u[i]);
      FloorAtLeast(u[i] * most, total, g);
    } else {
      MulMonotone(least, most, big);
      assert (least + 1) * big == least * big + big;
      FloorAtMost(least * most, big, least);
    }
  }

  /** No step starves: scaling leaves each step a known fraction of its minimum. */
  lemma QuotaGuarantee(counts: seq<nat>, maxChars: nat, cfg: Config, i: int)
    requires ProperConfig(cfg) && 0 <= i < |counts| && 0 < cfg.multiMax
    requires |counts| == 1 ==> MinQuota(1, maxChars, cfg) <= cfg.singleMax
    ensures MinQuota(|counts|, maxChars, cfg) * cfg.multiMax / Max(cfg.multiMax, 2 * maxChars)
            <= Quotas(counts, maxChars, cfg)[i]
  {
    if |counts| == 1 {
      UnscaledSingle(counts, maxChars, cfg);
    } else {
      UnscaledMulti(counts, maxChars, cfg);
    }
    ScaledAtLeast(Unscaled(counts, maxChars, cfg), i, cfg.multiMax,
                  MinQuota(|counts|, maxChars, cfg), 2 * maxChars);
  }

  lemma FloorMonotone(a: int, b: int, d: int)
    requires 0 < d && a <= b
    ensures a / d <= b / d
  {
    FloorTimes(a, d);
    FloorAtLeast(b, d, a / d);
  }

  lemma ScaledMonotone(u: seq<int>, most: nat, i: int, j: int)
    requires 0 <= i < |u| && 0 <= j < |u| && u[i] <= u[j]
    ensures Scaled(u, most)[i] <= Scaled(u, most)[j]
  {
    if Sum(u) > most {
      MulMonotone(most, u[i], u[j]);
      FloorMonotone(u[i] * most, u[j] * most, Sum(u));
    }
  }

  /** Among steps that name documents, one naming more never gets less. */
  lemma MoreDocumentsNeverLess(counts: seq<nat>, maxChars: nat, cfg: Config, i: int, j: int)
    requires ProperConfig(cfg) && 0 <= i < |counts| && 0 <= j < |counts|
    requires 0 < counts[i] <= counts[j]
    ensures Quotas(counts, maxChars, cfg)[i] <= Quotas(counts, maxChars, cfg)[j]
  {
    var filtered, total := FilteredQuota(maxChars, cfg), Sum(counts);
    SumNonNegative(counts);
    MulMonotone(filtered, counts[i], counts[j]);
    FloorMonotone(filtered * counts[i], filtered * counts[j], total);
    ScaledMonotone(Unscaled(counts, maxChars, cfg), cfg.multiMax, i, j);
  }
}
