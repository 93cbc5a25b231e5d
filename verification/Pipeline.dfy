/** The nine stages of a review, from the request to the published gate. */
module Pipeline {
  import opened Prelude
  import opened Identity
  import opened Findings
  import opened FindingsDedup
  import opened Gate
  import opened Provider
  import opened Dimensions
  import opened ContextGathering
  import FindingVerifier

  datatype Stage =
    | DeriveIdentity
    | ConstructMerge
    | PrepareReviewWorktree
    | GatherStage
    | RunDimensions
    | VerifyDedup
    | CheckCompleteness
    | EvaluateStage
    | Publish

  const STAGE_ORDER: seq<Stage> := [DeriveIdentity, ConstructMerge, PrepareReviewWorktree, GatherStage, RunDimensions,
    VerifyDedup, CheckCompleteness, EvaluateStage, Publish]

  predicate PostFailure(stage: Stage) {
    stage.CheckCompleteness? || stage.EvaluateStage? || stage.Publish?
  }

  datatype StageOutcome = StageOutcome(stage: Stage, status: StageStatus, detail: Option<string>)

  type Execution = seq<StageOutcome>

  /** What a stage's outside call does: give a value or raise one of the review's own errors. */
  datatype Attempted<+T> = Done(value: T) | Raises(message: string)

  datatype Inputs = Inputs(
    attemptId: string,
    policy: ReviewPolicy,
    computePolicy: ComputePolicy,
    hash: Hash,
    dump: Finding -> string,
    candidate: Attempted<string>,
    prepared: Attempted<Worktree>,
    scene: Attempted<Scene>,
    provider: Attempted<()>,
    estimates: seq<UsageRecord>,
    callPlanShown: Attempted<()>,
    answers: seq<Answer>,
    verification: Attempted<()>)
  {
    /** One estimate and one answer per required dimension. */
    predicate Complete() {
      |policy.requiredDimensions| == |estimates| == |answers|
    }

    function CallPlan(): Plan
      requires Complete() && candidate.Done?
    {
      Plan(hash, computePolicy, candidate.value, policy.requiredDimensions, estimates, answers)
    }

    /** The estimate of all calls together, priced. */
    function Estimate(): UsageRecord {
      Priced(Combined(estimates), computePolicy)
    }
  }

  datatype Report = Report(
    gate: GateState,
    execution: Execution,
    findings: seq<Finding>,
    coverage: Coverage,
    outcomes: seq<DimensionOutcome>,
    errorDetail: Option<string>)

  datatype PipelineResult = Reported(report: Report) | MissingAttemptId

  // ---- filling in what never ran --------------------------------------------------------------

  predicate Recorded(execution: Execution, stage: Stage) {
    exists i :: 0 <= i < |execution| && execution[i].stage == stage
  }

  /** The stages among the first n that were neither recorded nor belong to the closing three. */
  function Missing(execution: Execution, reason: string, order: seq<Stage>, n: nat): Execution
    requires n <= |order|
  {
    if n == 0 then []
    else
      Missing(execution, reason, order, n - 1) +
      if Recorded(execution, order[n - 1]) || PostFailure(order[n - 1]) then []
      else [StageOutcome(order[n - 1], StageStatus.NotStarted, Some(reason))]
  }

  function Filled(execution: Execution, reason: string): Execution {
    execution + Missing(execution, reason, STAGE_ORDER, |STAGE_ORDER|)
  }

  method FillUnrecordedStages(execution: Execution, reason: string) returns (r: Execution)
    ensures r == Filled(execution, reason)
  {
    r := execution;
    for i := 0 to |STAGE_ORDER|
      invariant r == execution + Missing(execution, reason, STAGE_ORDER, i)
    {
      var stage := STAGE_ORDER[i];
      if Recorded(execution, stage) || PostFailure(stage) { continue; }
      r := r + [StageOutcome(stage, StageStatus.NotStarted, Some(reason))];
    }
  }

  // ---- the closing three stages ---------------------------------------------------------------------

  const NoCoverage := Coverage(false, [], [], [], [], [])

  function AllNotStarted(policy: ReviewPolicy): seq<DimensionOutcome> {
    seq(|policy.requiredDimensions|, i requires 0 <= i < |policy.requiredDimensions| =>
      DimensionOutcome(policy.requiredDimensions[i], StageStatus.NotStarted, None))
  }

  predicate AllCompleted(outcomes: seq<DimensionOutcome>) {
    forall i :: 0 <= i < |outcomes| ==> outcomes[i].status.Completed?
  }

  const Unverified := "review cannot produce a standing decision until finding verification completes"

  /** Completeness, gate and publication are recorded whatever happened; without leave to pass the gate is Error. */
  function CompleteReport(policy: ReviewPolicy, execution: Execution, coverage: Coverage, findings: seq<Finding>,
                          given: seq<DimensionOutcome>, mayPass: bool, errorDetail: Option<string>): Report
  {
    var outcomes := if given == [] then AllNotStarted(policy) else given;
    var complete := outcomes != [] && AllCompleted(outcomes);
    var gate := EvaluateGate(policy, outcomes, coverage.complete, findings);
    var held := !mayPass && gate != Error;
    Report(
      if held then Error else gate,
      execution + [
        StageOutcome(CheckCompleteness, StageStatus.Completed,
          Some(if coverage.complete && complete then "required coverage and dimensions completed"
               else "required dimensions and coverage did not complete")),
        StageOutcome(EvaluateStage, StageStatus.Completed, None),
        StageOutcome(Publish, StageStatus.Completed, None)],
      findings,
      coverage,
      outcomes,
      if held && errorDetail.GetOr("") == "" then Some(Unverified) else errorDetail)
  }

  method BuildReport(policy: ReviewPolicy, recorded: Execution, coverage: Coverage, findings: seq<Finding>,
                     given: seq<DimensionOutcome>, mayPass: bool, detail: Option<string>) returns (report: Report)
    ensures report == CompleteReport(policy, recorded, coverage, findings, given, mayPass, detail)
  {
    hide EvaluateGate, AllCompleted, AllNotStarted;
    var execution, errorDetail := recorded, detail;
    var outcomes := if |given| == 0 then AllNotStarted(policy) else given;
    var complete := outcomes != [] && AllCompleted(outcomes);
    execution := execution + [StageOutcome(CheckCompleteness, StageStatus.Completed,
      Some(if coverage.complete && complete then "required coverage and dimensions completed"
           else "required dimensions and coverage did not complete"))];
    var gate := RunEvaluator(policy, outcomes, coverage.complete, findings);
    if !mayPass && gate != Error {
      gate := Error;
      if errorDetail.GetOr("") == "" { errorDetail := Some(Unverified); }
    }
    execution := execution + [StageOutcome(EvaluateStage, StageStatus.Completed, None)];
    execution := execution + [StageOutcome(Publish, StageStatus.Completed, None)];
    report := Report(gate, execution, findings, coverage, outcomes, errorDetail);
  }

  // ---- the whole pipeline -----------------------------------------------------------------------------

  function Ended(stage: Stage): StageOutcome {
    StageOutcome(stage, StageStatus.Completed, None)
  }

  function FailedAt(stage: Stage, message: string): StageOutcome {
    StageOutcome(stage, StageStatus.Failed, Some(message))
  }

  function VerifiedStage(count: nat): StageOutcome {
    StageOutcome(VerifyDedup, StageStatus.Completed, Some("validated and deduplicated " + Numeral(count) + " findings"))
  }

  /** The stages recorded before stage k, all of them completed. */
  function Through(x: Inputs, k: nat): Execution
    requires 1 <= k <= 6
  {
    if k == 1 then [StageOutcome(DeriveIdentity, StageStatus.Completed, Some("attempt " + x.attemptId))]
    else Through(x, k - 1) + [Ended(STAGE_ORDER[k - 1])]
  }

  /** A stage failed: the rest is not started and the report is an Error. */
  function Aborted(x: Inputs, k: nat, message: string, reason: string, coverage: Coverage): Report
    requires 1 <= k < 6
  {
    CompleteReport(x.policy, Filled(Through(x, k) + [FailedAt(STAGE_ORDER[k], message)], reason), coverage, [], [],
      false, Some(message))
  }

  function CommaJoined(parts: seq<string>): string {
    if |parts| == 0 then ""
    else if |parts| == 1 then parts[0]
    else parts[0] + ", " + CommaJoined(parts[1..])
  }

  function CoverageErrorDetail(coverage: Coverage): string {
    var missing := if coverage.mandatoryMissing == [] then ""
      else "mandatory context missing: " + CommaJoined(coverage.mandatoryMissing);
    var hidden := if coverage.unreviewable == [] then ""
      else "unreviewable in-scope content: " + CommaJoined(coverage.unreviewable);
    if missing == "" && hidden == "" then "required coverage is incomplete"
    else if missing == "" then hidden
    else if hidden == "" then missing
    else missing + "; " + hidden
  }

  function OutcomesOf(runs: seq<DimensionRunResult>): (r: seq<DimensionOutcome>)
    ensures |r| == |runs| && forall i :: 0 <= i < |r| ==> r[i] == runs[i].outcome
  {
    seq(|runs|, i requires 0 <= i < |runs| => runs[i].outcome)
  }

  function DraftsOf(runs: seq<DimensionRunResult>): seq<Finding> {
    if |runs| == 0 then [] else DraftsOf(runs[..|runs| - 1]) + runs[|runs| - 1].findings
  }

  const Incomplete := "one or more required dimensions did not complete"

  /** The evidence the findings are checked against. */
  function EvidenceOf(x: Inputs): Context
    requires x.prepared.Done? && x.scene.Done?
  {
    Context(x.hash, x.dump, Some(x.prepared.value), GatheredRecords(Some(Gather(x.scene.value).items)))
  }

  const UncertainEstimate :=
    "pre-flight price/usage is uncertain and Compute Policy allow_start_under_uncertain_price is false"

  /** Why the dimensions cannot be run, if so. */
  function DimensionsProblem(x: Inputs): Option<string> {
    if x.provider.Raises? then Some(x.provider.message)
    else if PreflightBudget(x.computePolicy, x.Estimate()).Refuse? then
      Some(if x.Estimate().cost.None? then UncertainEstimate
        else "pre-flight estimated cost exceeds max_budget_usd")
    else if x.callPlanShown.Raises? then Some(x.callPlanShown.message)
    else None
  }

  /** From the dimensions' results to the report. */
  function Concluded(x: Inputs, coverage: Coverage, runs: seq<DimensionRunResult>): Report
    requires x.prepared.Done? && x.scene.Done?
  {
    var outcomes := OutcomesOf(runs);
    var complete := AllCompleted(outcomes);
    var execution := Through(x, 4) + [if complete then Ended(RunDimensions) else FailedAt(RunDimensions, Incomplete)];
    if x.verification.Raises? then
      CompleteReport(x.policy,
        Filled(execution + [FailedAt(VerifyDedup, x.verification.message)],
          "short-circuited after verify-dedup failure"), coverage, [], outcomes, false, Some(x.verification.message))
    else
      var findings := VerifyAndDeduplicate(EvidenceOf(x), DraftsOf(runs));
      CompleteReport(x.policy, execution + [VerifiedStage(|findings|)], coverage, findings, outcomes, true,
        if complete then None else Some(Incomplete))
  }

  function Review(x: Inputs): Report
    requires x.Complete()
  {
    if x.candidate.Raises? then
      Aborted(x, 1, x.candidate.message, "short-circuited after construct-merge failure", NoCoverage)
    else if x.prepared.Raises? then
      Aborted(x, 2, x.prepared.message, "short-circuited after prepare-review-worktree failure", NoCoverage)
    else if x.scene.Raises? then
      Aborted(x, 3, x.scene.message, "short-circuited after gather-context failure", NoCoverage)
    else
      var coverage := Gather(x.scene.value).coverage;
      if !coverage.complete then
        CompleteReport(x.policy, Filled(Through(x, 4), "short-circuited: required coverage is incomplete"), coverage,
          [], [], false, Some(CoverageErrorDetail(coverage)))
      else if DimensionsProblem(x).Some? then
        Aborted(x, 4, DimensionsProblem(x).value, "short-circuited after run-dimensions failure", coverage)
      else Concluded(x, coverage, RunAll(x.CallPlan()))
  }

  method RunReviewPipeline(x: Inputs) returns (r: PipelineResult)
    requires x.Complete()
    ensures r == if x.attemptId == "" then MissingAttemptId else Reported(Review(x))
  {
    hide Gather, CompleteReport, Filled;
    if x.attemptId == "" { return MissingAttemptId; }
    var report: Report;
    var execution: Execution := [StageOutcome(DeriveIdentity, StageStatus.Completed, Some("attempt " + x.attemptId))];
    if x.candidate.Raises? {
      execution :=
        FillUnrecordedStages(execution + [FailedAt(ConstructMerge, x.candidate.message)],
          "short-circuited after construct-merge failure");
      report := BuildReport(x.policy, execution, NoCoverage, [], [], false, Some(x.candidate.message));
      return Reported(report);
    }
    execution := execution + [Ended(ConstructMerge)];
    assert execution == Through(x, 2);
    if x.prepared.Raises? {
      execution := FillUnrecordedStages(execution + [FailedAt(PrepareReviewWorktree, x.prepared.message)],
        "short-circuited after prepare-review-worktree failure");
      report := BuildReport(x.policy, execution, NoCoverage, [], [], false, Some(x.prepared.message));
      return Reported(report);
    }
    execution := execution + [Ended(PrepareReviewWorktree)];
    assert execution == Through(x, 3);
    if x.scene.Raises? {
      execution :=
        FillUnrecordedStages(execution + [FailedAt(GatherStage, x.scene.message)],
          "short-circuited after gather-context failure");
      report := BuildReport(x.policy, execution, NoCoverage, [], [], false, Some(x.scene.message));
      return Reported(report);
    }
    var gathered := GatherContext(x.scene.value);
    execution := execution + [Ended(GatherStage)];
    assert execution == Through(x, 4);
    report := ReviewGathered(x, execution, gathered);
    r := Reported(report);
  }

  method ReviewGathered(x: Inputs, recorded: Execution, gathered: Gathered) returns (report: Report)
    requires x.Complete() && x.candidate.Done? && x.prepared.Done? && x.scene.Done?
    requires recorded == Through(x, 4) && gathered == Gather(x.scene.value)
    ensures report == Review(x)
  {
    hide Gather, RunAll, CompleteReport, Filled, Concluded, Through, CoverageErrorDetail, DimensionsProblem;
    var execution := recorded;
    var coverage := gathered.coverage;
    if !coverage.complete {
      execution := FillUnrecordedStages(execution, "short-circuited: required coverage is incomplete");
      report := BuildReport(x.policy, execution, coverage, [], [], false, Some(CoverageErrorDetail(coverage)));
      return;
    }
    var problem := PlanDimensions(x);
    if problem.Some? {
      execution :=
        FillUnrecordedStages(execution + [FailedAt(RunDimensions, problem.value)],
          "short-circuited after run-dimensions failure");
      report := BuildReport(x.policy, execution, coverage, [], [], false, Some(problem.value));
      return;
    }
    var runs := RunRequiredDimensions(x.CallPlan());
    report := Conclude(x, execution, gathered, runs);
  }

  /** Choose the provider, estimate, check the budget, show the plan; the first problem ends it. */
  method PlanDimensions(x: Inputs) returns (problem: Option<string>)
    ensures problem == DimensionsProblem(x)
  {
    if x.provider.Raises? { return Some(x.provider.message); }
    var estimated := EstimateAll(x.estimates, x.computePolicy);
    if PreflightBudget(x.computePolicy, estimated).Refuse? {
      return Some(if estimated.cost.None? then UncertainEstimate
        else "pre-flight estimated cost exceeds max_budget_usd");
    }
    if x.callPlanShown.Raises? { return Some(x.callPlanShown.message); }
    problem := None;
  }

  method Conclude(x: Inputs, recorded: Execution, gathered: Gathered, runs: seq<DimensionRunResult>)
    returns (report: Report)
    requires x.prepared.Done? && x.scene.Done?
    requires recorded == Through(x, 4) && gathered == Gather(x.scene.value)
    ensures report == Concluded(x, gathered.coverage, runs)
  {
    var execution := recorded;
    var outcomes, drafts := OutcomesOf(runs), DraftsOf(runs);
    var complete := AllCompleted(outcomes);
    execution := execution + [if complete then Ended(RunDimensions) else FailedAt(RunDimensions, Incomplete)];
    if x.verification.Raises? {
      execution :=
        FillUnrecordedStages(execution + [FailedAt(VerifyDedup, x.verification.message)],
          "short-circuited after verify-dedup failure");
      report := BuildReport(x.policy, execution, gathered.coverage, [], outcomes, false, Some(x.verification.message));
      return;
    }
    var validated := FindingVerifier.Run(x.hash, x.dump, Some(x.prepared.value), Some(gathered.items), drafts);
    execution := execution + [VerifiedStage(|validated|)];
    report := BuildReport(x.policy, execution, gathered.coverage, validated, outcomes, true,
      if complete then None else Some(Incomplete));
  }
}
