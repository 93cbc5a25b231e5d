/** The required review dimensions, run one after the other under a budget. */
module Dimensions {
  import opened Prelude
  import opened Findings
  import opened Gate
  import opened Provider

  datatype Draft = Draft(
    path: string,
    startLine: int,
    endLine: int,
    quotedText: string,
    severity: Severity,
    band: EvidenceBand,
    problem: string,
    impact: string,
    repair: Option<string>,
    source: EvidenceSource,
    snapshot: Option<string>,
    changeKind: Option<ChangeKind>)

  datatype DimensionRunResult = DimensionRunResult(
    outcome: DimensionOutcome,
    findings: seq<Finding>,
    usage: Option<UsageRecord>)

  // ---- findings of a payload --------------------------------------------------------------------

  /** The draft as a finding of the dimension; a worktree span without a snapshot gets the default one. */
  function FindingOf(hash: Hash, draft: Draft, dimensionId: string, defaultSnapshot: Option<string>): Finding {
    var snapshot :=
      if draft.source.ReviewWorktree? && draft.snapshot.GetOr("") == "" && defaultSnapshot.Some? then defaultSnapshot
      else draft.snapshot;
    Finding(hash(draft.path, draft.startLine, draft.endLine, dimensionId, draft.problem), draft.severity, draft.band,
      draft.problem, draft.impact,
      [Span(draft.path, draft.startLine, draft.endLine, draft.quotedText, "workspace", draft.source, snapshot,
        draft.changeKind)],
      draft.repair, false, Some(dimensionId))
  }

  predicate Inverted(draft: Draft) {
    draft.endLine < draft.startLine
  }

  /** Nothing when a draft's lines are inverted. */
  function FindingsOf(hash: Hash, drafts: seq<Draft>, dimensionId: string,
                      defaultSnapshot: Option<string>): (r: Option<seq<Finding>>)
    ensures r.None? <==> exists i :: 0 <= i < |drafts| && Inverted(drafts[i])
    ensures r.Some? ==> |r.value| == |drafts|
    ensures r.Some? ==> forall i :: 0 <= i < |drafts| ==>
              r.value[i] == FindingOf(hash, drafts[i], dimensionId, defaultSnapshot)
  {
    if exists i :: 0 <= i < |drafts| && Inverted(drafts[i]) then None
    else Some(seq(|drafts|, i requires 0 <= i < |drafts| => FindingOf(hash, drafts[i], dimensionId, defaultSnapshot)))
  }

  method FindingsFromPayload(hash: Hash, drafts: seq<Draft>, dimensionId: string, defaultSnapshot: Option<string>)
    returns (r: Option<seq<Finding>>)
    ensures r == FindingsOf(hash, drafts, dimensionId, defaultSnapshot)
  {
    var findings: seq<Finding> := [];
    for i := 0 to |drafts|
      invariant |findings| == i
      invariant forall k :: 0 <= k < i ==> !Inverted(drafts[k])
      invariant forall k :: 0 <= k < i ==> findings[k] == FindingOf(hash, drafts[k], dimensionId, defaultSnapshot)
    {
      if drafts[i].endLine < drafts[i].startLine {
        assert Inverted(drafts[i]);
        return None;
      }
      findings := findings + [FindingOf(hash, drafts[i], dimensionId, defaultSnapshot)];
    }
    assert findings == FindingsOf(hash, drafts, dimensionId, defaultSnapshot).value;
    r := Some(findings);
  }

  // ---- one dimension ------------------------------------------------------------------------------

  /** What the provider does with a call; a payload that fails its schema is None. */
  datatype Answer =
    | Replied(usage: UsageRecord, payload: Option<seq<Draft>>)
    | Declined(reported: Option<UsageRecord>)
    | Crashed

  /** Everything a run of the dimensions depends on; estimates and answers by position. */
  datatype Plan = Plan(
    hash: Hash,
    policy: ComputePolicy,
    snapshot: string,
    dimensions: seq<string>,
    estimates: seq<UsageRecord>,
    answers: seq<Answer>)
  {
    predicate Complete() {
      |dimensions| == |estimates| == |answers|
    }
  }

  function Priced(usage: UsageRecord, policy: ComputePolicy): UsageRecord {
    usage.(cost := CostOf(usage, policy))
  }

  const SomeDetail := "the call failed"

  function RunOne(plan: Plan, i: nat): DimensionRunResult
    requires plan.Complete() && i < |plan.dimensions|
  {
    var d := plan.dimensions[i];
    var failed := DimensionOutcome(d, StageStatus.Failed, Some(SomeDetail));
    match plan.answers[i]
    case Crashed => DimensionRunResult(failed, [], None)
    case Declined(reported) =>
      DimensionRunResult(failed, [], if reported.Some? then Some(Priced(reported.value, plan.policy)) else None)
    case Replied(usage, payload) =>
      var priced := Priced(usage, plan.policy);
      var findings := if payload.None? then None else FindingsOf(plan.hash, payload.value, d, Some(plan.snapshot));
      if findings.None? then DimensionRunResult(failed, [], Some(priced))
      else DimensionRunResult(DimensionOutcome(d, StageStatus.Completed, None), findings.value, Some(priced))
  }

  // ---- the budget loop -------------------------------------------------------------------------------

  datatype StopReason = UncertainPrice | CannotCover | Exhausted

  function ReasonText(reason: StopReason): string {
    match reason
    case UncertainPrice => "in-flight price/usage is uncertain; remaining dimensions not started"
    case CannotCover => "remaining budget cannot cover the estimate"
    case Exhausted => "per-review budget exhausted after measured usage"
  }

  datatype Meter = Meter(spent: real, stop: Option<StopReason>, results: seq<DimensionRunResult>)

  function NotStartedResult(d: string, reason: StopReason): DimensionRunResult {
    DimensionRunResult(DimensionOutcome(d, StageStatus.NotStarted, Some(ReasonText(reason))), [], None)
  }

  function EstimatedCost(plan: Plan, i: nat): Option<real>
    requires plan.Complete() && i < |plan.dimensions|
  {
    CostOf(plan.estimates[i], plan.policy)
  }

  function MeasuredCost(plan: Plan, i: nat): Option<real>
    requires plan.Complete() && i < |plan.dimensions|
  {
    var usage := RunOne(plan, i).usage;
    if usage.Some? then usage.value.cost else None
  }

  /** Why the next call may not be made, if so. */
  function Veto(plan: Plan, spent: real, i: nat): Option<StopReason>
    requires plan.Complete() && i < |plan.dimensions|
  {
    var estimate := EstimatedCost(plan, i);
    if plan.policy.maxBudget.None? then None
    else if estimate.None? then if plan.policy.allowUncertainPrice then None else Some(UncertainPrice)
    else if spent + estimate.value > plan.policy.maxBudget.value then Some(CannotCover)
    else None
  }

  function NextMeter(plan: Plan, m: Meter, i: nat): Meter
    requires plan.Complete() && i < |plan.dimensions|
  {
    var d := plan.dimensions[i];
    if m.stop.Some? then m.(results := m.results + [NotStartedResult(d, m.stop.value)])
    else
      var veto := Veto(plan, m.spent, i);
      if veto.Some? then m.(stop := veto, results := m.results + [NotStartedResult(d, veto.value)])
      else
        var measured := MeasuredCost(plan, i);
        var spent := m.spent + measured.GetOr(0.0);
        Meter(spent,
          if measured.Some? && plan.policy.maxBudget.Some? && spent >= plan.policy.maxBudget.value then Some(Exhausted)
          else None,
          m.results + [RunOne(plan, i)])
  }

  /** The meter after the first n dimensions. */
  function MeterAfter(plan: Plan, n: nat): Meter
    requires plan.Complete() && n <= |plan.dimensions|
  {
    if n == 0 then Meter(0.0, None, []) else NextMeter(plan, MeterAfter(plan, n - 1), n - 1)
  }

  function RunAll(plan: Plan): seq<DimensionRunResult>
    requires plan.Complete()
  {
    MeterAfter(plan, |plan.dimensions|).results
  }

  method RunRequiredDimensions(plan: Plan) returns (results: seq<DimensionRunResult>)
    requires plan.Complete()
    ensures results == RunAll(plan)
  {
    var spent := 0.0;
    var stopReason: Option<StopReason> := None;
    results := [];
    for i := 0 to |plan.dimensions|
      invariant Meter(spent, stopReason, results) == MeterAfter(plan, i)
    {
      var d := plan.dimensions[i];
      if stopReason.Some? {
        results := results + [NotStartedResult(d, stopReason.value)];
        continue;
      }
      var estimate := ApplyUsagePrice(plan.estimates[i], plan.policy);
      if plan.policy.maxBudget.Some? {
        if estimate.cost.None? {
          if !plan.policy.allowUncertainPrice {
            stopReason := Some(UncertainPrice);
            results := results + [NotStartedResult(d, UncertainPrice)];
            continue;
          }
        } else if spent + estimate.cost.value > plan.policy.maxBudget.value {
          stopReason := Some(CannotCover);
          results := results + [NotStartedResult(d, CannotCover)];
          continue;
        }
      }
      var result := RunOneDimension(plan, i);
      if result.usage.Some? && result.usage.value.cost.Some? {
        spent := spent + result.usage.value.cost.value;
        if plan.policy.maxBudget.Some? && spent >= plan.policy.maxBudget.value { stopReason := Some(Exhausted); }
      }
      results := results + [result];
    }
  }

  method RunOneDimension(plan: Plan, i: nat) returns (r: DimensionRunResult)
    requires plan.Complete() && i < |plan.dimensions|
    ensures r == RunOne(plan, i)
  {
    var d := plan.dimensions[i];
    var failed := DimensionOutcome(d, StageStatus.Failed, Some(SomeDetail));
    match plan.answers[i]
    case Crashed => r := DimensionRunResult(failed, [], None);
    case Declined(reported) =>
      if reported.None? { return DimensionRunResult(failed, [], None); }
      var captured := ApplyUsagePrice(reported.value, plan.policy);
      r := DimensionRunResult(failed, [], Some(captured));
    case Replied(reply, payload) =>
      var usage := ApplyUsagePrice(reply, plan.policy);
      if payload.None? { return DimensionRunResult(failed, [], Some(usage)); }
      var findings := FindingsFromPayload(plan.hash, payload.value, d, Some(plan.snapshot));
      if findings.None? {
        var captured := ApplyUsagePrice(usage, plan.policy);
        return DimensionRunResult(failed, [], Some(captured));
      }
      r := DimensionRunResult(DimensionOutcome(d, StageStatus.Completed, None), findings.value, Some(usage));
  }

  // ---- what the loop guarantees -----------------------------------------------------------------------

  predicate Started(r: DimensionRunResult) {
    !r.outcome.status.NotStarted?
  }

  /** Results are one per dimension, in order; a started one is the provider's; the rest follow the last started one. */
  ghost predicate InStep(plan: Plan, m: Meter, n: nat)
    requires plan.Complete() && n <= |plan.dimensions|
  {
    && |m.results| == n
    && (forall i :: 0 <= i < n ==> m.results[i].outcome.dimensionId == plan.dimensions[i])
    && (forall i :: 0 <= i < n && Started(m.results[i]) ==> m.results[i] == RunOne(plan, i))
    && (forall i, j :: 0 <= i < j < n && Started(m.results[j]) ==> Started(m.results[i]))
    && (m.stop.None? ==> forall i :: 0 <= i < n ==> Started(m.results[i]))
  }

  lemma RunOneStarted(plan: Plan, i: nat)
    requires plan.Complete() && i < |plan.dimensions|
    ensures Started(RunOne(plan, i)) && RunOne(plan, i).outcome.dimensionId == plan.dimensions[i]
  {
  }

  lemma {:induction false} ResultsInStep(plan: Plan, n: nat)
    requires plan.Complete() && n <= |plan.dimensions|
    ensures InStep(plan, MeterAfter(plan, n), n)
  {
    hide NextMeter, InStep;
    if n > 0 {
      ResultsInStep(plan, n - 1);
      StepInStep(plan, MeterAfter(plan, n - 1), n - 1);
    } else {
      NoResultsInStep(plan);
    }
  }

  lemma NoResultsInStep(plan: Plan)
    requires plan.Complete()
    ensures InStep(plan, Meter(0.0, None, []), 0)
  {
  }

  lemma StepInStep(plan: Plan, m: Meter, i: nat)
    requires plan.Complete() && i < |plan.dimensions| && InStep(plan, m, i)
    ensures InStep(plan, NextMeter(plan, m, i), i + 1)
  {
    hide RunOne, Veto, MeasuredCost;
    RunOneStarted(plan, i);
    var t := NextMeter(plan, m, i);
    var added := t.results[i];
    assert t.results == m.results + [added];
    assert Started(added) ==> m.stop.None? && added == RunOne(plan, i);
    assert t.stop.None? ==> m.stop.None? && Started(added);
  }

  /** One result per required dimension, in the policy's order, the dimensions not started at the end. */
  lemma ResultsMatchDimensions(plan: Plan)
    requires plan.Complete()
    ensures var rs := RunAll(plan);
      && |rs| == |plan.dimensions|
      && (forall i :: 0 <= i < |rs| ==> rs[i].outcome.dimensionId == plan.dimensions[i])
      && (forall i :: 0 <= i < |rs| && Started(rs[i]) ==> rs[i] == RunOne(plan, i))
      && (forall i, j :: 0 <= i < j < |rs| && !Started(rs[i]) ==> !Started(rs[j]))
  {
    ResultsInStep(plan, |plan.dimensions|);
  }

  /** The call is made: the loop has not stopped and the budget does not veto it. */
  predicate Made(plan: Plan, i: nat)
    requires plan.Complete() && i < |plan.dimensions|
  {
    MeterAfter(plan, i).stop.None? && Veto(plan, MeterAfter(plan, i).spent, i).None?
  }

  /**
   * Call i was the last to be paid for: before it the spending was within the budget, with its
   * estimate included if it had one, and afterwards it is more by exactly its measured cost.
   */
  ghost predicate OverspentBy(plan: Plan, n: nat, i: nat, budget: real)
    requires plan.Complete() && n <= |plan.dimensions|
  {
    && i < n
    && Made(plan, i)
    && MeasuredCost(plan, i).Some?
    && MeterAfter(plan, i).spent <= budget
    && (EstimatedCost(plan, i).Some? ==> MeterAfter(plan, i).spent + EstimatedCost(plan, i).value <= budget)
    && MeterAfter(plan, n).spent == MeterAfter(plan, i).spent + MeasuredCost(plan, i).value
  }

  ghost predicate WithinBudget(plan: Plan, n: nat, budget: real)
    requires plan.Complete() && n <= |plan.dimensions|
  {
    var m := MeterAfter(plan, n);
    && (m.stop.None? ==> m.spent <= budget)
    && (m.spent <= budget || exists i :: OverspentBy(plan, n, i, budget))
  }

  lemma {:induction false} SpendingBounded(plan: Plan, n: nat, budget: real)
    requires plan.Complete() && n <= |plan.dimensions|
    requires plan.policy.Valid() && plan.policy.maxBudget == Some(budget)
    ensures WithinBudget(plan, n, budget)
  {
    if n > 0 {
      var k := n - 1;
      SpendingBounded(plan, k, budget);
      var before, after := MeterAfter(plan, k), MeterAfter(plan, n);
      if before.stop.Some? || Veto(plan, before.spent, n - 1).Some? || MeasuredCost(plan, n - 1).None? {
        assert after.spent == before.spent;
        if i :| OverspentBy(plan, k, i, budget) { assert OverspentBy(plan, n, i, budget); }
      } else if after.spent > budget {
        assert OverspentBy(plan, n, n - 1, budget);
      }
    }
  }

  /**
   * Known spending stays within the budget, or exceeds it by no more than the last paid call's
   * measured cost; for a call that was priced beforehand, by no more than measured minus estimated.
   */
  lemma BudgetOverrunBounded(plan: Plan, budget: real)
    requires plan.Complete() && plan.policy.Valid() && plan.policy.maxBudget == Some(budget)
    ensures MeterAfter(plan, |plan.dimensions|).spent <= budget ||
            exists i :: OverspentBy(plan, |plan.dimensions|, i, budget)
  {
    SpendingBounded(plan, |plan.dimensions|, budget);
  }

  // ---- when every dimension is started -----------------------------------------------------------------

  /** No call costs more than it was estimated to. */
  ghost predicate Honest(plan: Plan)
    requires plan.Complete()
  {
    forall i :: 0 <= i < |plan.dimensions| ==> MeasuredCost(plan, i).GetOr(0.0) <= Cost(plan.estimates[i], plan.policy)
  }

  /** Every count is known and none is negative, and there is a price for each kind. */
  predicate Countable(plan: Plan)
    requires plan.Complete()
  {
    && FullyKnown(plan.estimates, plan.policy)
    && forall i :: 0 <= i < |plan.estimates| ==>
         plan.estimates[i].inputTokens.value >= 0 && plan.estimates[i].outputTokens.value >= 0
  }

  lemma CountableCost(plan: Plan, i: nat)
    requires plan.Complete() && plan.policy.Valid() && Countable(plan) && i < |plan.dimensions|
    ensures EstimatedCost(plan, i) == Some(Cost(plan.estimates[i], plan.policy))
    ensures Cost(plan.estimates[i], plan.policy) >= 0.0
  {
    PriceNotNegative(plan.estimates[i].inputTokens.value, plan.policy.inputPrice.value);
    PriceNotNegative(plan.estimates[i].outputTokens.value, plan.policy.outputPrice.value);
  }

  lemma PriceNotNegative(tokens: int, perMillion: real)
    requires tokens >= 0 && perMillion >= 0.0
    ensures PriceOf(tokens, perMillion) >= 0.0
  {
    assert tokens as real / 1000000.0 >= 0.0;
  }

  /** What the estimates of the first n calls cost together. */
  function SumOfFirst(plan: Plan, n: nat): real
    requires plan.Complete() && n <= |plan.dimensions|
  {
    SumCost(plan.estimates[..n], plan.policy)
  }

  lemma SumOneMore(plan: Plan, n: nat)
    requires plan.Complete() && n < |plan.dimensions|
    ensures SumOfFirst(plan, n + 1) == SumOfFirst(plan, n) + Cost(plan.estimates[n], plan.policy)
  {
    assert plan.estimates[..n + 1][..n] == plan.estimates[..n];
  }

  lemma {:induction false} SumGrows(plan: Plan, n: nat, k: nat)
    requires plan.Complete() && plan.policy.Valid() && Countable(plan) && n <= k <= |plan.dimensions|
    ensures SumOfFirst(plan, n) <= SumOfFirst(plan, k)
    decreases k
  {
    if n < k {
      SumGrows(plan, n, k - 1);
      SumOneMore(plan, k - 1);
      CountableCost(plan, k - 1);
    }
  }

  predicate AllStarted(rs: seq<DimensionRunResult>) {
    forall i :: 0 <= i < |rs| ==> Started(rs[i])
  }

  /** A call the remaining budget covers is made, and leaves the budget covered. */
  lemma CoveredStep(plan: Plan, m: Meter, i: nat, budget: real, used: real)
    requires plan.Complete() && i < |plan.dimensions| && plan.policy.maxBudget == Some(budget)
    requires m.stop.None? && m.spent <= used
    requires EstimatedCost(plan, i).Some? && used + EstimatedCost(plan, i).value <= budget
    requires MeasuredCost(plan, i).GetOr(0.0) <= EstimatedCost(plan, i).value
    ensures var t := NextMeter(plan, m, i);
      && t.spent <= used + EstimatedCost(plan, i).value
      && t.results == m.results + [RunOne(plan, i)]
      && (used + EstimatedCost(plan, i).value < budget ==> t.stop.None?)
  {
    hide RunOne, EstimatedCost;
  }

  /** The budget covers all estimates, and what precedes the last one does not use it up. */
  predicate BudgetSuffices(plan: Plan, budget: real)
    requires plan.Complete()
  {
    var n := |plan.dimensions|;
    && SumOfFirst(plan, n) <= budget
    && (n > 1 ==> SumOfFirst(plan, n - 1) < budget)
  }

  lemma {:induction false} NeverStopped(plan: Plan, n: nat, budget: real)
    requires plan.Complete() && plan.policy.Valid() && Countable(plan) && Honest(plan) && n <= |plan.dimensions|
    requires plan.policy.maxBudget == Some(budget) && BudgetSuffices(plan, budget)
    ensures MeterAfter(plan, n).spent <= SumOfFirst(plan, n)
    ensures n < |plan.dimensions| ==> MeterAfter(plan, n).stop.None?
    ensures AllStarted(MeterAfter(plan, n).results)
  {
    hide RunOne, NextMeter, EstimatedCost, MeasuredCost, Countable, SumOfFirst;
    if n > 0 {
      NeverStopped(plan, n - 1, budget);
      SumGrows(plan, n, |plan.dimensions|);
      if n < |plan.dimensions| { SumGrows(plan, n, |plan.dimensions| - 1); }
      SumOneMore(plan, n - 1);
      CountableCost(plan, n - 1);
      CoveredStep(plan, MeterAfter(plan, n - 1), n - 1, budget, SumOfFirst(plan, n - 1));
      RunOneStarted(plan, n - 1);
    } else {
      NothingSpent(plan);
    }
  }

  lemma NothingSpent(plan: Plan)
    requires plan.Complete()
    ensures MeterAfter(plan, 0).spent == SumOfFirst(plan, 0) == 0.0
    ensures MeterAfter(plan, 0).stop.None? && AllStarted(MeterAfter(plan, 0).results)
  {
  }

  lemma {:induction false} NoBudgetNoStop(plan: Plan, n: nat)
    requires plan.Complete() && n <= |plan.dimensions| && plan.policy.maxBudget.None?
    ensures MeterAfter(plan, n).stop.None?
    ensures AllStarted(MeterAfter(plan, n).results)
  {
    hide RunOne;
    if n > 0 {
      NoBudgetNoStop(plan, n - 1);
      RunOneStarted(plan, n - 1);
    }
  }

  /** The plan with these answers of the provider in place of its own. */
  function Answered(plan: Plan, answers: seq<Answer>): Plan {
    plan.(answers := answers)
  }

  /** Whatever the provider answers, as long as no call costs more than estimated, every dimension is started. */
  ghost predicate AlwaysAllStarted(plan: Plan)
    requires plan.Complete()
  {
    forall answers {:trigger Answered(plan, answers)} ::
      |answers| == |plan.dimensions| && Honest(Answered(plan, answers)) ==>
      AllStarted(RunAll(Answered(plan, answers)))
  }

  /** Every call costs what it was estimated to. */
  function AsEstimated(plan: Plan): seq<Answer>
    requires plan.Complete()
  {
    seq(|plan.dimensions|, i requires 0 <= i < |plan.dimensions| => Replied(plan.estimates[i], Some([])))
  }

  lemma CostsEstimate(plan: Plan, i: nat)
    requires plan.Complete() && i < |plan.dimensions| && plan.answers == AsEstimated(plan)
    ensures MeasuredCost(plan, i) == EstimatedCost(plan, i)
  {
    assert plan.answers[i] == Replied(plan.estimates[i], Some([]));
  }

  /** When every call so far was made, the last one was, and its cost is what the meter moved by. */
  lemma StartedSoFar(plan: Plan, n: nat)
    requires plan.Complete() && 0 < n <= |plan.dimensions|
    requires AllStarted(MeterAfter(plan, n).results)
    ensures AllStarted(MeterAfter(plan, n - 1).results)
    ensures Made(plan, n - 1)
    ensures var measured := MeasuredCost(plan, n - 1);
      && MeterAfter(plan, n).spent == MeterAfter(plan, n - 1).spent + measured.GetOr(0.0)
      && (MeterAfter(plan, n).stop.Some? <==>
            measured.Some? && plan.policy.maxBudget.Some? && MeterAfter(plan, n).spent >= plan.policy.maxBudget.value)
  {
    hide RunOne, EstimatedCost, MeasuredCost, Veto;
    var m, t := MeterAfter(plan, n - 1), MeterAfter(plan, n);
    assert |t.results| == |m.results| + 1 && t.results[..|m.results|] == m.results;
    assert Started(t.results[|m.results|]);
    forall i | 0 <= i < |m.results| ensures Started(m.results[i]) { assert m.results[i] == t.results[i]; }
  }

  /** As long as the calls go on and each costs its estimate, the estimates so far are what is spent. */
  lemma {:induction false} SpentAsEstimated(plan: Plan, n: nat)
    requires plan.Complete() && plan.policy.Valid() && Countable(plan) && n <= |plan.dimensions|
    requires plan.answers == AsEstimated(plan)
    requires AllStarted(MeterAfter(plan, n).results)
    ensures MeterAfter(plan, n).spent == SumOfFirst(plan, n)
    ensures n > 0 && plan.policy.maxBudget.Some? && SumOfFirst(plan, n) >= plan.policy.maxBudget.value ==>
              MeterAfter(plan, n).stop.Some?
    ensures n > 0 && plan.policy.maxBudget.Some? ==> SumOfFirst(plan, n) <= plan.policy.maxBudget.value
  {
    hide NextMeter, EstimatedCost, MeasuredCost, Countable, SumOfFirst, AllStarted, RunOne;
    if n > 0 {
      StartedSoFar(plan, n);
      SpentAsEstimated(plan, n - 1);
      SumOneMore(plan, n - 1);
      CountableCost(plan, n - 1);
      CostsEstimate(plan, n - 1);
    } else {
      NothingSpent(plan);
    }
  }

  lemma MustSuffice(plan: Plan, budget: real)
    requires plan.Complete() && plan.policy.Valid() && Countable(plan)
    requires plan.policy.maxBudget == Some(budget) && AlwaysAllStarted(plan)
    ensures BudgetSuffices(plan, budget)
  {
    hide MeterAfter, Countable, SumOfFirst, AllStarted, Made;
    var n := |plan.dimensions|;
    var q := Answered(plan, AsEstimated(plan));
    forall i | 0 <= i < n ensures MeasuredCost(q, i).GetOr(0.0) <= Cost(q.estimates[i], q.policy) {
      CostsEstimate(q, i);
    }
    SameEstimates(plan, q);
    assert AllStarted(MeterAfter(q, n).results);
    SpentAsEstimated(q, n);
    NothingSpent(q);
    if n > 1 {
      StartedSoFar(q, n);
      SpentAsEstimated(q, n - 1);
      assert MeterAfter(q, n - 1).stop.None? by { MadeMeansGoing(q, n - 1); }
    }
  }

  lemma MadeMeansGoing(plan: Plan, i: nat)
    requires plan.Complete() && i < |plan.dimensions| && Made(plan, i)
    ensures MeterAfter(plan, i).stop.None?
  {
  }

  /** Sums and counts are about the estimates, not about the answers. */
  lemma SameEstimates(plan: Plan, q: Plan)
    requires plan.Complete() && q.Complete() && q == Answered(plan, q.answers)
    ensures Countable(q) <==> Countable(plan)
    ensures forall n :: 0 <= n <= |plan.dimensions| ==> SumOfFirst(q, n) == SumOfFirst(plan, n)
  {
  }

  /**
   * With known counts, whatever honest answers the provider gives, every dimension is started
   * exactly when the pre-flight check lets the review start and, if there is a budget and a second
   * dimension, the estimates before the last one stay below the budget.
   */
  lemma PreflightSuffices(plan: Plan)
    requires plan.Complete() && plan.policy.Valid() && Countable(plan)
    ensures var n := |plan.dimensions|;
      AlwaysAllStarted(plan) <==>
        && PreflightBudget(plan.policy, Priced(Combined(plan.estimates), plan.policy)).Start?
        && (plan.policy.maxBudget.None? || n <= 1 || SumOfFirst(plan, n - 1) < plan.policy.maxBudget.value)
  {
    hide MeterAfter, AllStarted, Honest;
    var n := |plan.dimensions|;
    CombinedCostsTheSum(plan.estimates, plan.policy);
    assert plan.estimates[..n] == plan.estimates;
    if plan.policy.maxBudget.None? {
      forall answers | |answers| == n && Honest(Answered(plan, answers))
        ensures AllStarted(RunAll(Answered(plan, answers)))
      {
        NoBudgetNoStop(Answered(plan, answers), n);
      }
    } else {
      var budget := plan.policy.maxBudget.value;
      if AlwaysAllStarted(plan) { MustSuffice(plan, budget); }
      if BudgetSuffices(plan, budget) {
        forall answers | |answers| == n && Honest(Answered(plan, answers))
          ensures AllStarted(RunAll(Answered(plan, answers)))
        {
          var q := Answered(plan, answers);
          SameEstimates(plan, q);
          NeverStopped(q, n, budget);
        }
      }
    }
  }

  // ---- why the conditions are needed ---------------------------------------------------------------------

  function Usage(input: Option<int>, output: int): UsageRecord {
    UsageRecord(Estimated, input, Some(output), None)
  }

  /** With free calls and no budget at all, the pre-flight check passes and the second dimension is left out. */
  lemma FreeCallsStop(hash: Hash) returns (plan: Plan)
    ensures plan.Complete() && plan.policy.Valid() && FullyKnown(plan.estimates, plan.policy)
    ensures PreflightBudget(plan.policy, Priced(Combined(plan.estimates), plan.policy)).Start?
    ensures |plan.dimensions| == 2
    ensures Honest(plan)
    ensures |RunAll(plan)| == 2 && !Started(RunAll(plan)[1])
  {
    var policy := ComputePolicy(1, Some(0.0), false, Some(0.0), Some(0.0));
    var reply := Replied(Usage(Some(0), 0), Some([]));
    plan := Plan(hash, policy, "", ["a", "b"], [Usage(Some(0), 0), Usage(Some(0), 0)], [reply, reply]);
    CombinedCostsTheSum(plan.estimates, policy);
    assert forall i :: 0 <= i < 2 ==> Cost(plan.estimates[i], policy) == 0.0;
    assert SumCost(plan.estimates, policy) == SumCost(plan.estimates[..1], policy) + 0.0;
    ResultsInStep(plan, 2);
    assert MeterAfter(plan, 1) == NextMeter(plan, MeterAfter(plan, 0), 0);
    assert MeterAfter(plan, 2) == NextMeter(plan, MeterAfter(plan, 1), 1);
  }

  /**
   * One unknown input count hides the cost of all the others from the pre-flight check: it passes,
   * every call costs what it was estimated to, and a dimension is left out all the same.
   */
  lemma UnknownCountHidesCost(hash: Hash) returns (plan: Plan)
    ensures plan.Complete() && plan.policy.Valid()
    ensures PreflightBudget(plan.policy, Priced(Combined(plan.estimates), plan.policy)).Start?
    ensures |plan.dimensions| == 2 && Honest(plan)
    ensures forall i :: 0 <= i < 2 ==> Cost(plan.estimates[i], plan.policy) > 0.0
    ensures |RunAll(plan)| == 2 && !Started(RunAll(plan)[0]) && !Started(RunAll(plan)[1])
  {
    var policy := ComputePolicy(1, Some(2.0), false, Some(1000000.0), Some(1000000.0));
    var first, second := Usage(Some(5), 1), Usage(None, 1);
    plan := Plan(hash, policy, "", ["a", "b"], [first, second], [Replied(first, Some([])), Replied(second, Some([]))]);
    assert Cost(first, policy) == 6.0 && Cost(second, policy) == 1.0;
    assert plan.estimates[..1] == [first] && plan.estimates[..1][..0] == [];
    assert SumOutput(plan.estimates) == SumOutput([first]) + 1 == 2;
    assert Combined(plan.estimates) == UsageRecord(Estimated, None, Some(2), None);
    ResultsInStep(plan, 2);
    assert MeterAfter(plan, 1) == NextMeter(plan, MeterAfter(plan, 0), 0);
    assert MeterAfter(plan, 2) == NextMeter(plan, MeterAfter(plan, 1), 1);
  }
}
