/** Execution of a retrieval plan: each step's pages are merged under what is left of the
    context, and an over-long context is cut in proportion across the steps. */
module Executor {
  import opened Merger
  import opened Numbers
  import StepQuotas

  const MIN_KEPT := 500

  // ---------- the step loop ----------

  /** The context of one step. `left` is what the earlier steps left of the budget. */
  function StepContext(docs: seq<Doc>, quota: nat, left: nat, minPerDoc: nat): string
  {
    var text := MergedText(docs, Min(quota, left), minPerDoc);
    if |text| > quota then text[..quota] else text
  }

  /** A step of the plan: the documents retrieved for it and its quota. */
  datatype Step = Step(docs: seq<Doc>, quota: nat)

  /** The contexts once the steps from `i` on have run after those in `done`, which are
      `used` characters long. Steps run until their contexts reach the budget. */
  function RunSteps(steps: seq<Step>, i: nat, used: nat, done: seq<string>, maxChars: nat, minPerDoc: nat): seq<string>
    requires i <= |steps| && used < maxChars
    decreases |steps| - i, 1
  {
    if i == |steps| then done
    else AfterStep(steps, i, used, done, StepContext(steps[i].docs, steps[i].quota, maxChars - used, minPerDoc),
                   maxChars, minPerDoc)
  }

  /** Step `i` produced `c`. */
  function AfterStep(steps: seq<Step>, i: nat, used: nat, done: seq<string>, c: string, maxChars: nat, minPerDoc: nat): seq<string>
    requires i < |steps| && used < maxChars
    decreases |steps| - i, 0
  {
    if used + |c| >= maxChars then done + [c]
    else RunSteps(steps, i + 1, used + |c|, done + [c], maxChars, minPerDoc)
  }

  lemma TotalSnoc(parts: seq<string>, c: string)
    ensures Total(parts + [c]) == Total(parts) + |c|
  {
    assert (parts + [c])[..|parts|] == parts;
  }

  function StepContexts(steps: seq<Step>, maxChars: nat, minPerDoc: nat): seq<string>
    requires 0 < maxChars
  {
    RunSteps(steps, 0, 0, [], maxChars, minPerDoc)
  }

  // ---------- proportional truncation ----------

  function Kept(length: nat, budget: nat, total: nat): nat
    requires 0 < total
  {
    Max(length * budget / total, MIN_KEPT)
  }

  function Prefix(text: string, n: nat): string
  {
    if n < |text| then text[..n] else text
  }

  function ShortenOne(text: string, budget: nat, total: nat): string
    requires 0 < total
  {
    Prefix(text, Kept(|text|, budget, total))
  }

  function Shortened(contexts: seq<string>, budget: nat, total: nat): (r: seq<string>)
    requires 0 < total
    ensures |r| == |contexts|
  {
    seq(|contexts|, i requires 0 <= i < |contexts| => ShortenOne(contexts[i], budget, total))
  }

  function FinalContext(contexts: seq<string>, budget: nat): string
  {
    var full := Concat(contexts);
    if |full| <= budget then full
    else if |contexts| > 1 then MarkTruncated(Concat(Shortened(contexts, budget, |full|)))
    else MarkTruncated(full[..budget])
  }

  // ---------- the program ----------

  method RunStep(docs: seq<Doc>, quota: nat, left: nat, minPerDoc: nat) returns (stepContext: string)
    ensures stepContext == StepContext(docs, quota, left, minPerDoc)
  {
    var mergeQuota := Min(quota, left);
    stepContext := MergeSegments(docs, mergeQuota, minPerDoc);
    if |stepContext| > quota {
      stepContext := stepContext[..quota];
    }
  }

  method Shorten(text: string, budget: nat, total: nat) returns (r: string)
    requires 0 < total
    ensures r == ShortenOne(text, budget, total)
  {
    var keep := Max(|text| * budget / total, MIN_KEPT);
    r := if keep < |text| then text[..keep] else text;
  }

  method TruncateProportionally(contexts: seq<string>, budget: nat, total: nat) returns (context: string)
    requires 0 < total
    ensures context == MarkTruncated(Concat(Shortened(contexts, budget, total)))
  {
    var truncated: seq<string> := [];
    for i := 0 to |contexts|
      invariant |truncated| == i
      invariant forall j :: 0 <= j < i ==> truncated[j] == ShortenOne(contexts[j], budget, total)
    {
      var kept := Shorten(contexts[i], budget, total);
      truncated := truncated + [kept];
    }
    assert truncated == Shortened(contexts, budget, total);
    context := MarkTruncated(Concat(truncated));
  }

  method FinishContext(contexts: seq<string>, budget: nat) returns (context: string)
    ensures context == FinalContext(contexts, budget)
  {
    context := Concat(contexts);
    if |context| > budget {
      if |contexts| > 1 {
        context := TruncateProportionally(contexts, budget, |context|);
      } else {
        context := MarkTruncated(context[..budget]);
      }
    }
  }

  lemma RunStepsUnfold(steps: seq<Step>, i: nat, used: nat, done: seq<string>, c: string, maxChars: nat, minPerDoc: nat)
    requires i < |steps| && used < maxChars
    requires c == StepContext(steps[i].docs, steps[i].quota, maxChars - used, minPerDoc)
    ensures RunSteps(steps, i, used, done, maxChars, minPerDoc) ==
            if used + |c| >= maxChars then done + [c]
            else RunSteps(steps, i + 1, used + |c|, done + [c], maxChars, minPerDoc)
  {
    assert RunSteps(steps, i, used, done, maxChars, minPerDoc) ==
      AfterStep(steps, i, used, done, c, maxChars, minPerDoc);
  }

  method RunPlan(steps: seq<Step>, maxChars: nat, minPerDoc: nat) returns (contexts: seq<string>)
    requires 0 < maxChars
    ensures contexts == StepContexts(steps, maxChars, minPerDoc)
  {
    contexts := [];
    var totalStepChars: nat := 0;
    var i: nat := 0;
    while i < |steps|
      invariant i <= |steps| && totalStepChars < maxChars
      invariant StepContexts(steps, maxChars, minPerDoc) ==
        RunSteps(steps, i, totalStepChars, contexts, maxChars, minPerDoc)
    {
      var stepContext := RunStep(steps[i].docs, steps[i].quota, maxChars - totalStepChars, minPerDoc);
      RunStepsUnfold(steps, i, totalStepChars, contexts, stepContext, maxChars, minPerDoc);
      contexts := contexts + [stepContext];
      totalStepChars := totalStepChars + |stepContext|;
      if totalStepChars >= maxChars {
        break;
      }
      i := i + 1;
    }
  }

  method ExecuteStandard(steps: seq<Step>, maxChars: nat, minPerDoc: nat, budget: nat)
    returns (context: string)
    requires 0 < maxChars
    ensures context == FinalContext(StepContexts(steps, maxChars, minPerDoc), budget)
  {
    var contexts := RunPlan(steps, maxChars, minPerDoc);
    context := FinishContext(contexts, budget);
  }

  // ---------- bounds on the step contexts ----------

  /** The quotas of the steps from `i` on, added up. */
  function QuotaSum(steps: seq<Step>, i: nat): nat
    requires i <= |steps|
    decreases |steps| - i
  {
    if i == |steps| then 0 else steps[i].quota + QuotaSum(steps, i + 1)
  }

  lemma StepContextBound(docs: seq<Doc>, quota: nat, left: nat, minPerDoc: nat)
    ensures |StepContext(docs, quota, left, minPerDoc)| <= Min(quota, left + MARKER_RESERVE)
  {
    MergedTextBound(docs, Min(quota, left), minPerDoc);
  }

  ghost predicate Bounded(all: seq<string>, used: nat, quotas: nat, maxChars: nat)
  {
    Total(all) <= maxChars + MARKER_RESERVE && Total(all) <= used + quotas
  }

  /** Over any run of steps the accumulated context exceeds the budget by at most one
      marker, and the sum of the quotas not at all. */
  lemma {:induction false} AccumulatedBound(steps: seq<Step>, i: nat, done: seq<string>, maxChars: nat, minPerDoc: nat)
    requires i <= |steps| && Total(done) < maxChars
    ensures Bounded(RunSteps(steps, i, Total(done), done, maxChars, minPerDoc),
                    Total(done), QuotaSum(steps, i), maxChars)
    decreases |steps| - i, 1
  {
    if i < |steps| {
      var left := maxChars - Total(done);
      StepContextBound(steps[i].docs, steps[i].quota, left, minPerDoc);
      AfterStepBound(steps, i, done, StepContext(steps[i].docs, steps[i].quota, left, minPerDoc),
                     maxChars, minPerDoc);
    }
  }

  lemma {:induction false} AfterStepBound(steps: seq<Step>, i: nat, done: seq<string>, c: string, maxChars: nat, minPerDoc: nat)
    requires i < |steps| && Total(done) < maxChars
    requires |c| <= Min(steps[i].quota, maxChars - Total(done) + MARKER_RESERVE)
    ensures Bounded(AfterStep(steps, i, Total(done), done, c, maxChars, minPerDoc),
                    Total(done), QuotaSum(steps, i), maxChars)
    decreases |steps| - i, 0
  {
    TotalSnoc(done, c);
    if Total(done) + |c| < maxChars {
      AccumulatedBound(steps, i + 1, done + [c], maxChars, minPerDoc);
    }
  }

  /** What the program does step by step: each step that runs sees what the steps before it
      left of the budget, and a step is skipped only once the budget is spent. */
  ghost predicate RunOf(steps: seq<Step>, contexts: seq<string>, maxChars: nat, minPerDoc: nat)
  {
    && |contexts| <= |steps|
    && (forall i :: 0 <= i < |contexts| ==> StepAt(steps, contexts, i, maxChars, minPerDoc))
    && (|contexts| < |steps| ==> Total(contexts) >= maxChars)
  }

  ghost predicate StepAt(steps: seq<Step>, contexts: seq<string>, i: int, maxChars: nat, minPerDoc: nat)
    requires 0 <= i < |contexts| <= |steps|
  {
    var used := Total(contexts[..i]);
    used < maxChars && contexts[i] == StepContext(steps[i].docs, steps[i].quota, maxChars - used, minPerDoc)
  }

  /** The steps run from the first on, and one that is left out would have had no room. */
  lemma StepsRun(steps: seq<Step>, maxChars: nat, minPerDoc: nat)
    requires 0 < maxChars
    ensures RunOf(steps, StepContexts(steps, maxChars, minPerDoc), maxChars, minPerDoc)
  {
    StepsRunFrom(steps, [], maxChars, minPerDoc);
  }

  lemma {:induction false} StepsRunFrom(steps: seq<Step>, done: seq<string>, maxChars: nat, minPerDoc: nat)
    requires |done| <= |steps| && Total(done) < maxChars
    requires forall i :: 0 <= i < |done| ==> StepAt(steps, done, i, maxChars, minPerDoc)
    ensures RunOf(steps, RunSteps(steps, |done|, Total(done), done, maxChars, minPerDoc), maxChars, minPerDoc)
    decreases |steps| - |done|
  {
    if |done| < |steps| {
      var step := steps[|done|];
      var next := done + [StepContext(step.docs, step.quota, maxChars - Total(done), minPerDoc)];
      TotalSnoc(done, next[|done|]);
      forall i | 0 <= i < |next| ensures StepAt(steps, next, i, maxChars, minPerDoc) {
        assert next[..i] == done[..i];
        if i < |done| {
          assert StepAt(steps, done, i, maxChars, minPerDoc);
        } else {
          assert next[..i] == done;
        }
      }
      if Total(next) < maxChars {
        StepsRunFrom(steps, next, maxChars, minPerDoc);
      }
    }
  }

  // ---------- bounds on the final context ----------

  lemma {:induction false} ShortenedTotal(contexts: seq<string>, budget: nat, total: nat)
    requires 0 < total
    ensures Total(Shortened(contexts, budget, total)) * total
            <= Total(contexts) * budget + MIN_KEPT * |contexts| * total
    decreases |contexts|
  {
    if contexts != [] {
      var n := |contexts| - 1;
      var init, last := contexts[..n], contexts[n];
      ShortenedTotal(init, budget, total);
      var short := Shortened(contexts, budget, total);
      assert short[..n] == Shortened(init, budget, total);
      ShortenedOne(last, budget, total);
      Arithmetic(Total(short[..n]), |short[n]|, total, Total(init), |last|, budget, n);
    }
  }

  lemma ShortenedOne(text: string, budget: nat, total: nat)
    requires 0 < total
    ensures |ShortenOne(text, budget, total)| * total <= |text| * budget + MIN_KEPT * total
  {
    StepQuotas.FloorTimes(|text| * budget, total);
    StepQuotas.FloorAtLeast(|text| * budget, total, 0);
    var floor := |text| * budget / total;
    StepQuotas.MulMonotone(total, |ShortenOne(text, budget, total)|, Max(floor, MIN_KEPT));
  }

  lemma Arithmetic(short: nat, one: nat, total: nat, init: nat, last: nat, budget: nat, n: nat)
    requires short * total <= init * budget + MIN_KEPT * n * total
    requires one * total <= last * budget + MIN_KEPT * total
    ensures (short + one) * total <= (init + last) * budget + MIN_KEPT * (n + 1) * total
  {
    assert (short + one) * total == short * total + one * total;
    assert (init + last) * budget == init * budget + last * budget;
    assert MIN_KEPT * (n + 1) * total == MIN_KEPT * n * total + MIN_KEPT * total;
  }

  /** Whatever the steps produced, the final context is at most the budget, plus the floor
      of 500 characters per step and one marker when several steps were cut. */
  lemma FinalContextBound(contexts: seq<string>, budget: nat)
    ensures |FinalContext(contexts, budget)| <=
      budget + MARKER_RESERVE + if |contexts| > 1 then MIN_KEPT * |contexts| else 0
  {
    var full := Concat(contexts);
    ConcatLength(contexts);
    if |full| > budget && |contexts| > 1 {
      var total := |full|;
      var short := Shortened(contexts, budget, total);
      ShortenedTotal(contexts, budget, total);
      ConcatLength(short);
      assert Total(short) * total <= total * (budget + MIN_KEPT * |contexts|) by {
        assert total * (budget + MIN_KEPT * |contexts|) == total * budget + MIN_KEPT * |contexts| * total;
      }
      StepQuotas.CancelFactor(Total(short), budget + MIN_KEPT * |contexts|, total);
    }
  }

  /** The final context joins the contexts of all steps that ran, in order. Within the budget
      they are whole. Over it, each is cut to a prefix, and the marker follows: a single one to
      the budget, one of several to its share of the budget in proportion to its length, to at
      least 500 characters, or to all it has. */
  lemma EveryStepKeepsPrefix(contexts: seq<string>, budget: nat) returns (kept: seq<string>)
    ensures |kept| == |contexts| && forall i :: 0 <= i < |kept| ==> kept[i] <= contexts[i]
    ensures |Concat(contexts)| <= budget ==> kept == contexts && FinalContext(contexts, budget) == Concat(kept)
    ensures |Concat(contexts)| > budget ==>
      && FinalContext(contexts, budget) == MarkTruncated(Concat(kept))
      && (|kept| == 1 ==> |kept[0]| == budget)
      && (|kept| > 1 ==> forall i :: 0 <= i < |kept| ==>
           |kept[i]| == Min(|contexts[i]|, Max(|contexts[i]| * budget / |Concat(contexts)|, MIN_KEPT)))
  {
    var full := Concat(contexts);
    if |full| <= budget {
      kept := contexts;
    } else if |contexts| > 1 {
      kept := Shortened(contexts, budget, |full|);
    } else {
      ConcatOne(contexts);
      kept := [full[..budget]];
      ConcatOne(kept);
    }
  }

  lemma ConcatOne(parts: seq<string>)
    requires |parts| == 1
    ensures Concat(parts) == parts[0]
  {
    assert parts[..0] == [];
  }

  // ---------- plan to context ----------

  /** The steps of a plan, each with the quota computed for it. */
  function Planned(retrieved: seq<seq<Doc>>, quotas: seq<int>): seq<Step>
    requires |retrieved| == |quotas| && StepQuotas.NonNegative(quotas)
  {
    seq(|quotas|, i requires 0 <= i < |quotas| => Step(retrieved[i], quotas[i]))
  }

  lemma {:induction false} QuotaSumIsSum(steps: seq<Step>, quotas: seq<int>, i: nat)
    requires |steps| == |quotas| && i <= |steps|
    requires forall k :: 0 <= k < |steps| ==> steps[k].quota == quotas[k]
    ensures StepQuotas.Sum(quotas[..i]) + QuotaSum(steps, i) == StepQuotas.Sum(quotas)
    decreases |steps| - i
  {
    if i == |steps| {
      assert quotas[..i] == quotas;
    } else {
      QuotaSumIsSum(steps, quotas, i + 1);
      assert quotas[..i + 1][..i] == quotas[..i];
    }
  }

  /** From plan to context: with the quotas the plan is given, the accumulated context obeys
      both the executor's budget and the multi-step cap. */
  lemma PlannedContextBound(counts: seq<nat>, retrieved: seq<seq<Doc>>,
                            maxChars: nat, cfg: StepQuotas.Config, minPerDoc: nat)
    requires StepQuotas.ProperConfig(cfg) && 0 < maxChars && |retrieved| == |counts|
    ensures var quotas := StepQuotas.Quotas(counts, maxChars, cfg);
      && StepQuotas.NonNegative(quotas)
      && |Concat(StepContexts(Planned(retrieved, quotas), maxChars, minPerDoc))|
         <= Min(maxChars + MARKER_RESERVE, cfg.multiMax)
  {
    StepQuotas.QuotasFitCap(counts, maxChars, cfg);
    var quotas := StepQuotas.Quotas(counts, maxChars, cfg);
    var steps := Planned(retrieved, quotas);
    AccumulatedBound(steps, 0, [], maxChars, minPerDoc);
    QuotaSumIsSum(steps, quotas, 0);
    assert quotas[..0] == [];
    ConcatLength(StepContexts(steps, maxChars, minPerDoc));
  }
}
