/** Which dimensions are called and what each comes to, from estimates and answers alone. */
module DimensionCalls {
  import opened Prelude
  import opened Findings
  import opened Gate
  import opened Provider
  import opened Dimensions

  // ---- what a call costs ------------------------------------------------------------------------

  /** A count that is there has no price. */
  predicate Unknown(count: Option<int>, price: Option<real>) {
    count.Some? && price.None?
  }

  function Charge(count: Option<int>, price: Option<real>): real {
    count.GetOr(0) as real * price.GetOr(0.0)
  }

  /** A price is per million: the cost is known when some count is there and each that is has its price. */
  lemma CostExactly(usage: UsageRecord, policy: ComputePolicy)
    ensures CostOf(usage, policy).None? <==>
              || (usage.inputTokens.None? && usage.outputTokens.None?)
              || Unknown(usage.inputTokens, policy.inputPrice)
              || Unknown(usage.outputTokens, policy.outputPrice)
    ensures CostOf(usage, policy).Some? ==>
              CostOf(usage, policy).value * 1000000.0 ==
              Charge(usage.inputTokens, policy.inputPrice) + Charge(usage.outputTokens, policy.outputPrice)
  {
    PerMillion(usage.inputTokens.GetOr(0), policy.inputPrice.GetOr(0.0));
    PerMillion(usage.outputTokens.GetOr(0), policy.outputPrice.GetOr(0.0));
  }

  lemma PerMillion(tokens: int, price: real)
    ensures PriceOf(tokens, price) * 1000000.0 == tokens as real * price
  {
    var millions := tokens as real / 1000000.0;
    assert millions * 1000000.0 == tokens as real;
    assert millions * price * 1000000.0 == (millions * 1000000.0) * price;
  }

  /** The usage that comes with an answer, if any. */
  function UsageOf(answer: Answer): Option<UsageRecord> {
    match answer
    case Replied(usage, _) => Some(usage)
    case Declined(reported) => reported
    case Crashed => None
  }

  function PaidFor(plan: Plan, i: nat): Option<real>
    requires plan.Complete() && i < |plan.dimensions|
  {
    var usage := UsageOf(plan.answers[i]);
    if usage.None? then None else CostOf(usage.value, plan.policy)
  }

  /** The known cost of the first n calls. */
  function Paid(plan: Plan, n: nat): real
    requires plan.Complete() && n <= |plan.dimensions|
  {
    if n == 0 then 0.0 else Paid(plan, n - 1) + PaidFor(plan, n - 1).GetOr(0.0)
  }

  // ---- which calls are made ------------------------------------------------------------------------

  /** Its estimate keeps call i from being made: unknown without leave, or more than the budget has left. */
  predicate Unaffordable(plan: Plan, i: nat)
    requires plan.Complete() && i < |plan.dimensions|
  {
    var estimate := CostOf(plan.estimates[i], plan.policy);
    plan.policy.maxBudget.Some? &&
      if estimate.None? then !plan.policy.allowUncertainPrice
      else Paid(plan, i) + estimate.value > plan.policy.maxBudget.value
  }

  /** With call i paid for, nothing is left of the budget. */
  predicate UsesUp(plan: Plan, i: nat)
    requires plan.Complete() && i < |plan.dimensions|
  {
    plan.policy.maxBudget.Some? && PaidFor(plan, i).Some? && Paid(plan, i + 1) >= plan.policy.maxBudget.value
  }

  /** Nothing has kept the first n calls from being made or used the budget up. */
  predicate Undisturbed(plan: Plan, n: nat)
    requires plan.Complete() && n <= |plan.dimensions|
  {
    forall j :: 0 <= j < n ==> !Unaffordable(plan, j) && !UsesUp(plan, j)
  }

  /** Why the dimensions from here on are not started. */
  function WhyNot(plan: Plan, j: nat): string
    requires plan.Complete() && j < |plan.dimensions|
  {
    if !Unaffordable(plan, j) then "per-review budget exhausted after measured usage"
    else if CostOf(plan.estimates[j], plan.policy).None? then
      "in-flight price/usage is uncertain; remaining dimensions not started"
    else "remaining budget cannot cover the estimate"
  }

  /** A dimension that is not called, because of call j. */
  predicate LeftOut(plan: Plan, r: DimensionRunResult, d: string, j: nat)
    requires plan.Complete() && j < |plan.dimensions|
  {
    r == DimensionRunResult(DimensionOutcome(d, StageStatus.NotStarted, Some(WhyNot(plan, j))), [], None)
  }

  // ---- what a call comes to ------------------------------------------------------------------------

  /** The draft's finding, with its one span; only a worktree span without a snapshot gets the merge tree. */
  predicate FromDraft(f: Finding, draft: Draft, plan: Plan, d: string) {
    && f.fingerprint == plan.hash(draft.path, draft.startLine, draft.endLine, d, draft.problem)
    && f.severity == draft.severity && f.band == draft.band
    && f.problem == draft.problem && f.impact == draft.impact && f.repair == draft.repair
    && !f.bypassApplied && f.dimensionId == Some(d)
    && |f.spans| == 1
    && var span := f.spans[0];
      && span.path == draft.path && span.startLine == draft.startLine && span.endLine == draft.endLine
      && span.quotedText == draft.quotedText && span.contextClass == "workspace" && span.source == draft.source &&
           span.changeKind == draft.changeKind
      && span.snapshot ==
         if draft.source == ReviewWorktree && (draft.snapshot == None || draft.snapshot == Some(""))
         then Some(plan.snapshot) else draft.snapshot
  }

  /** The answer is a payload without inverted lines. */
  predicate Usable(answer: Answer) {
    answer.Replied? && answer.payload.Some? &&
      forall k :: 0 <= k < |answer.payload.value| ==>
        answer.payload.value[k].startLine <= answer.payload.value[k].endLine
  }

  /** Completed with one finding per draft, or failed without any; the usage is priced either way. */
  predicate CameTo(plan: Plan, i: nat, r: DimensionRunResult)
    requires plan.Complete() && i < |plan.dimensions|
  {
    var answer := plan.answers[i];
    && r.outcome.dimensionId == plan.dimensions[i]
    && r.outcome.status == (if Usable(answer) then StageStatus.Completed else StageStatus.Failed)
    && (Usable(answer) ==>
          && r.outcome.detail.None?
          && |r.findings| == |answer.payload.value|
          && forall k :: 0 <= k < |r.findings| ==>
               FromDraft(r.findings[k], answer.payload.value[k], plan, plan.dimensions[i]))
    && (!Usable(answer) ==> r.findings == [])
    && (if UsageOf(answer).None? then r.usage.None?
        else
          && r.usage.Some? && r.usage.value.cost == CostOf(UsageOf(answer).value, plan.policy)
          && r.usage.value.kind == UsageOf(answer).value.kind
          && r.usage.value.inputTokens == UsageOf(answer).value.inputTokens
          && r.usage.value.outputTokens == UsageOf(answer).value.outputTokens)
  }

  lemma CallExact(plan: Plan, i: nat)
    requires plan.Complete() && i < |plan.dimensions|
    ensures CameTo(plan, i, RunOne(plan, i))
    ensures MeasuredCost(plan, i) == PaidFor(plan, i)
  {
    hide CostOf;
    var answer := plan.answers[i];
    if answer.Replied? && answer.payload.Some? {
      var drafts := answer.payload.value;
      assert Usable(answer) <==> !exists k :: 0 <= k < |drafts| && Inverted(drafts[k]);
    }
  }

  // ---- the loop, call by call ------------------------------------------------------------------------

  /** The meter after n dimensions is what the calls before them make it. */
  ghost predicate Reads(plan: Plan, m: Meter, n: nat)
    requires plan.Complete() && n <= |plan.dimensions|
  {
    && |m.results| == n
    && (Undisturbed(plan, n) ==> m.stop.None? && m.spent == Paid(plan, n))
    && (!Undisturbed(plan, n) ==>
         m.stop.Some? && exists j :: Stopper(plan, j, n) && WhyNot(plan, j) == ReasonText(m.stop.value))
    && (forall i :: 0 <= i < n ==> Decided(plan, i, m.results[i]))
  }

  /** Call j, one of the first n, is the first that was not affordable or used the budget up. */
  predicate Stopper(plan: Plan, j: nat, n: nat)
    requires plan.Complete() && n <= |plan.dimensions|
  {
    j < n && Undisturbed(plan, j) && (Unaffordable(plan, j) || UsesUp(plan, j))
  }

  /** Called when nothing before it stopped the loop and it is affordable; otherwise left out, with the reason. */
  ghost predicate Decided(plan: Plan, i: nat, r: DimensionRunResult)
    requires plan.Complete() && i < |plan.dimensions|
  {
    if Undisturbed(plan, i) && !Unaffordable(plan, i) then CameTo(plan, i, r)
    else exists j :: Stopper(plan, j, i + 1) && LeftOut(plan, r, plan.dimensions[i], j)
  }

  lemma OneMore(plan: Plan, n: nat)
    requires plan.Complete() && n < |plan.dimensions|
    ensures Undisturbed(plan, n + 1) <==> Undisturbed(plan, n) && !Unaffordable(plan, n) && !UsesUp(plan, n)
  {
  }

  lemma StopperStays(plan: Plan, j: nat, n: nat, k: nat)
    requires plan.Complete() && n <= k <= |plan.dimensions| && Stopper(plan, j, n)
    ensures Stopper(plan, j, k)
  {
  }

  /** One turn of the loop, with the budget questions in terms of the estimates and answers. */
  lemma TurnExact(plan: Plan, m: Meter, n: nat)
    requires plan.Complete() && n < |plan.dimensions|
    ensures var t := NextMeter(plan, m, n);
      && t.results[..|m.results|] == m.results && |t.results| == |m.results| + 1
      && (m.stop.Some? ==>
            t.stop == m.stop && t.results[|m.results|] == NotStartedResult(plan.dimensions[n], m.stop.value))
      && (m.stop.None? && m.spent == Paid(plan, n) ==>
            if Unaffordable(plan, n) then
              && t.stop.Some? && ReasonText(t.stop.value) == WhyNot(plan, n)
              && t.results[|m.results|] == NotStartedResult(plan.dimensions[n], t.stop.value)
            else
              && CameTo(plan, n, t.results[|m.results|])
              && (UsesUp(plan, n) ==> t.stop.Some? && ReasonText(t.stop.value) == WhyNot(plan, n))
              && (!UsesUp(plan, n) ==> t.stop.None? && t.spent == Paid(plan, n + 1)))
  {
    hide RunOne, CostOf, CameTo, MeasuredCost, PaidFor;
    CallExact(plan, n);
  }

  /** The turn records its dimension as decided. */
  lemma TurnDecides(plan: Plan, m: Meter, n: nat)
    requires plan.Complete() && n < |plan.dimensions| && Reads(plan, m, n)
    ensures Decided(plan, n, NextMeter(plan, m, n).results[n])
  {
    hide NextMeter, CameTo, Undisturbed, Unaffordable, WhyNot;
    TurnExact(plan, m, n);
    if !Undisturbed(plan, n) {
      var j :| Stopper(plan, j, n) && WhyNot(plan, j) == ReasonText(m.stop.value);
      StopperStays(plan, j, n, n + 1);
      assert LeftOut(plan, NextMeter(plan, m, n).results[n], plan.dimensions[n], j);
    } else if Unaffordable(plan, n) {
      assert Stopper(plan, n, n + 1);
      assert LeftOut(plan, NextMeter(plan, m, n).results[n], plan.dimensions[n], n);
    }
  }

  lemma StepReads(plan: Plan, m: Meter, n: nat)
    requires plan.Complete() && n < |plan.dimensions| && Reads(plan, m, n)
    ensures Reads(plan, NextMeter(plan, m, n), n + 1)
  {
    hide NextMeter, CameTo, Undisturbed, Unaffordable, UsesUp, Paid, WhyNot, Decided;
    var t := NextMeter(plan, m, n);
    OneMore(plan, n);
    TurnExact(plan, m, n);
    TurnDecides(plan, m, n);
    if !Undisturbed(plan, n) {
      var j :| Stopper(plan, j, n) && WhyNot(plan, j) == ReasonText(m.stop.value);
      StopperStays(plan, j, n, n + 1);
    } else if !Undisturbed(plan, n + 1) {
      assert Stopper(plan, n, n + 1);
    }
    forall i | 0 <= i < n ensures Decided(plan, i, t.results[i]) { assert t.results[..n][i] == m.results[i]; }
  }

  lemma NothingRead(plan: Plan)
    requires plan.Complete()
    ensures Reads(plan, Meter(0.0, None, []), 0)
  {
  }

  lemma {:induction false} MeterReads(plan: Plan, n: nat)
    requires plan.Complete() && n <= |plan.dimensions|
    ensures Reads(plan, MeterAfter(plan, n), n)
  {
    hide Reads, NextMeter;
    if n > 0 {
      MeterReads(plan, n - 1);
      StepReads(plan, MeterAfter(plan, n - 1), n - 1);
    } else {
      NothingRead(plan);
    }
  }

  /**
   * Dimension i is called exactly when no earlier estimate was unaffordable, no earlier call used the
   * budget up and its own estimate is affordable. Then its result is what the provider's answer comes
   * to; otherwise it is not started, and the first call that stood in the way gives the reason.
   */
  lemma CallsExactly(plan: Plan, i: nat)
    requires plan.Complete() && i < |plan.dimensions|
    ensures |RunAll(plan)| == |plan.dimensions| && Decided(plan, i, RunAll(plan)[i])
    ensures Started(RunAll(plan)[i]) <==> Undisturbed(plan, i) && !Unaffordable(plan, i)
  {
    hide Undisturbed, Unaffordable, Usable, UsageOf;
    MeterReads(plan, |plan.dimensions|);
  }
}
