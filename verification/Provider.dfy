/** Prices, and the decision whether a review may start under its budget. */
module Provider {
  import opened Prelude

  datatype UsageKind = Measured | Declared | Estimated

  datatype UsageRecord = UsageRecord(
    kind: UsageKind,
    inputTokens: Option<int>,
    outputTokens: Option<int>,
    cost: Option<real>)

  datatype ComputePolicy = ComputePolicy(
    maxOutputTokensPerCall: nat,
    maxBudget: Option<real>,
    allowUncertainPrice: bool,
    inputPrice: Option<real>,
    outputPrice: Option<real>)
  {
    /** Budget and prices are not negative. */
    predicate Valid() {
      && maxBudget.GetOr(0.0) >= 0.0
      && inputPrice.GetOr(0.0) >= 0.0
      && outputPrice.GetOr(0.0) >= 0.0
    }
  }

  function PriceOf(tokens: int, perMillion: real): real {
    tokens as real / 1000000.0 * perMillion
  }

  /** A token count that is there needs a price. */
  predicate Unpriced(tokens: Option<int>, price: Option<real>) {
    tokens.Some? && price.None?
  }

  /** The cost of what is known; unknown when a present count has no price or nothing is present. */
  function CostOf(usage: UsageRecord, policy: ComputePolicy): Option<real> {
    if Unpriced(usage.inputTokens, policy.inputPrice) || Unpriced(usage.outputTokens, policy.outputPrice) then None
    else match (usage.inputTokens, usage.outputTokens)
      case (None, None) => None
      case (Some(i), None) => Some(PriceOf(i, policy.inputPrice.value))
      case (None, Some(o)) => Some(PriceOf(o, policy.outputPrice.value))
      case (Some(i), Some(o)) => Some(PriceOf(i, policy.inputPrice.value) + PriceOf(o, policy.outputPrice.value))
  }

  method ApplyUsagePrice(usage: UsageRecord, policy: ComputePolicy) returns (r: UsageRecord)
    ensures r == usage.(cost := CostOf(usage, policy))
  {
    var cost, pricedAny := 0.0, false;
    if usage.inputTokens.Some? {
      if policy.inputPrice.None? { return usage.(cost := None); }
      cost := cost + PriceOf(usage.inputTokens.value, policy.inputPrice.value);
      pricedAny := true;
    }
    if usage.outputTokens.Some? {
      if policy.outputPrice.None? { return usage.(cost := None); }
      cost := cost + PriceOf(usage.outputTokens.value, policy.outputPrice.value);
      pricedAny := true;
    }
    r := usage.(cost := if pricedAny then Some(cost) else None);
  }

  datatype BudgetDecision = Start | Refuse

  function PreflightBudget(policy: ComputePolicy, estimated: UsageRecord): BudgetDecision {
    if policy.maxBudget.None? then Start
    else if estimated.cost.None? then if policy.allowUncertainPrice then Start else Refuse
    else if estimated.cost.value > policy.maxBudget.value then Refuse
    else Start
  }

  // ---- the estimate for a whole review -------------------------------------------------------

  function SumInput(parts: seq<UsageRecord>): int {
    if |parts| == 0 then 0 else SumInput(parts[..|parts| - 1]) + parts[|parts| - 1].inputTokens.GetOr(0)
  }

  function SumOutput(parts: seq<UsageRecord>): int {
    if |parts| == 0 then 0 else SumOutput(parts[..|parts| - 1]) + parts[|parts| - 1].outputTokens.GetOr(0)
  }

  predicate InputKnown(parts: seq<UsageRecord>) {
    forall i :: 0 <= i < |parts| ==> parts[i].inputTokens.Some?
  }

  /** One unknown input count makes the whole input unknown; unknown output counts as none. */
  function Combined(parts: seq<UsageRecord>): UsageRecord {
    UsageRecord(Estimated, if InputKnown(parts) then Some(SumInput(parts)) else None, Some(SumOutput(parts)), None)
  }

  method EstimateAll(parts: seq<UsageRecord>, policy: ComputePolicy) returns (r: UsageRecord)
    ensures r == Combined(parts).(cost := CostOf(Combined(parts), policy))
  {
    if |parts| == 0 {
      r := ApplyUsagePrice(UsageRecord(Estimated, Some(0), Some(0), None), policy);
      return;
    }
    var known: seq<int> := [];
    var total := 0;
    for i := 0 to |parts|
      invariant |known| == i && InputKnown(parts[..i]) && total == SumInput(parts[..i])
    {
      assert parts[..i + 1][..i] == parts[..i];
      if parts[i].inputTokens.None? {
        known := [];
        break;
      }
      known := known + [parts[i].inputTokens.value];
      total := total + parts[i].inputTokens.value;
    }
    assert parts[..|parts|] == parts;
    var output := 0;
    for i := 0 to |parts|
      invariant output == SumOutput(parts[..i])
    {
      assert parts[..i + 1][..i] == parts[..i];
      output := output + parts[i].outputTokens.GetOr(0);
    }
    r := ApplyUsagePrice(UsageRecord(Estimated, if |known| > 0 then Some(total) else None, Some(output), None), policy);
  }

  function Cost(part: UsageRecord, policy: ComputePolicy): real {
    CostOf(part, policy).GetOr(0.0)
  }

  function SumCost(parts: seq<UsageRecord>, policy: ComputePolicy): real {
    if |parts| == 0 then 0.0 else SumCost(parts[..|parts| - 1], policy) + Cost(parts[|parts| - 1], policy)
  }

  /** Every count of the estimates is known, and so are the prices. */
  predicate FullyKnown(parts: seq<UsageRecord>, policy: ComputePolicy) {
    && policy.inputPrice.Some? && policy.outputPrice.Some?
    && forall i :: 0 <= i < |parts| ==> parts[i].inputTokens.Some? && parts[i].outputTokens.Some?
  }

  lemma PriceAdds(a: int, b: int, price: real)
    ensures PriceOf(a + b, price) == PriceOf(a, price) + PriceOf(b, price)
  {
    assert (a + b) as real / 1000000.0 == a as real / 1000000.0 + b as real / 1000000.0;
  }

  /** With every count known, the combined estimate costs exactly what its parts cost together. */
  lemma {:induction false} CombinedCostsTheSum(parts: seq<UsageRecord>, policy: ComputePolicy)
    requires FullyKnown(parts, policy)
    ensures CostOf(Combined(parts), policy) == Some(SumCost(parts, policy))
  {
    if |parts| > 0 {
      var front := parts[..|parts| - 1];
      var last := parts[|parts| - 1];
      CombinedCostsTheSum(front, policy);
      PriceAdds(SumInput(front), last.inputTokens.value, policy.inputPrice.value);
      PriceAdds(SumOutput(front), last.outputTokens.value, policy.outputPrice.value);
      assert CostOf(last, policy).Some?;
    } else {
      PriceAdds(0, 0, policy.inputPrice.value);
      PriceAdds(0, 0, policy.outputPrice.value);
    }
  }
}
