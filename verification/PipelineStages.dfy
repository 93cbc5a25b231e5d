/** The nine stages of a report, each read off the inputs of the review. */
module PipelineStages {
  import opened Prelude
  import opened Identity
  import opened Findings
  import opened FindingsDedup
  import opened FindingIssues
  import opened Gate
  import opened Provider
  import opened Dimensions
  import opened ContextGathering
  import opened Pipeline
  import opened PipelineTheorems

  /** What a stage records: Completed or Failed when it is reached, NotStarted with a reason otherwise. */
  predicate Says(o: StageOutcome, stage: Stage, reached: bool, problem: Option<string>, detail: Option<string>,
                 reason: string)
  {
    && o.stage == stage
    && (reached && problem.None? ==> o.status == StageStatus.Completed && o.detail == detail)
    && (reached && problem.Some? ==> o.status == StageStatus.Failed && o.detail == problem)
    && (!reached ==> o.status == StageStatus.NotStarted && o.detail == Some(reason))
  }

  function Problem<T>(call: Attempted<T>): Option<string> {
    match call
    case Done(_) => None
    case Raises(message) => Some(message)
  }

  /** The context was gathered, and everything the review must see can be shown. */
  ghost predicate Covered(x: Inputs) {
    x.candidate.Done? && x.prepared.Done? && x.scene.Done? && AllReadable(x.scene.value)
  }

  /** The budget forbids the review: its estimate is unknown without leave, or more than the budget. */
  predicate OverBudget(x: Inputs) {
    var cost := x.Estimate().cost;
    x.computePolicy.maxBudget.Some? &&
      if cost.None? then !x.computePolicy.allowUncertainPrice else cost.value > x.computePolicy.maxBudget.value
  }

  /** What keeps the provider from being called at all. */
  function Refused(x: Inputs): Option<string> {
    if x.provider.Raises? then Some(x.provider.message)
    else if OverBudget(x) then
      Some(if x.Estimate().cost.None?
        then "pre-flight price/usage is uncertain and Compute Policy allow_start_under_uncertain_price is false"
        else "pre-flight estimated cost exceeds max_budget_usd")
    else if x.callPlanShown.Raises? then Some(x.callPlanShown.message)
    else None
  }

  /** The provider is called. */
  ghost predicate Called(x: Inputs) {
    Covered(x) && Refused(x).None?
  }

  /** The provider is called and every required dimension completes. */
  ghost predicate RanAll(x: Inputs)
    requires x.Complete()
  {
    Called(x) && forall i :: 0 <= i < |RunAll(x.CallPlan())| ==>
      RunAll(x.CallPlan())[i].outcome.status == StageStatus.Completed
  }

  /** Why running the dimensions fails, if it does. */
  ghost function DimensionsFailure(x: Inputs): Option<string>
    requires x.Complete()
  {
    if Refused(x).Some? then Refused(x)
    else if RanAll(x) then None
    else Some("one or more required dimensions did not complete")
  }

  /** Why the stages after the one that stopped the review were not started. */
  ghost function Reason(x: Inputs): string {
    if x.candidate.Raises? then "short-circuited after construct-merge failure"
    else if x.prepared.Raises? then "short-circuited after prepare-review-worktree failure"
    else if x.scene.Raises? then "short-circuited after gather-context failure"
    else if !AllReadable(x.scene.value) then "short-circuited: required coverage is incomplete"
    else "short-circuited after run-dimensions failure"
  }

  // ---- the parts of an execution --------------------------------------------------------------

  predicate EndedAt(o: StageOutcome, stage: Stage) {
    o == StageOutcome(stage, StageStatus.Completed, None)
  }

  lemma {:induction false} ThroughExact(x: Inputs, k: nat)
    requires 1 <= k <= 6
    ensures var e := Through(x, k);
      && |e| == k
      && e[0] == StageOutcome(DeriveIdentity, StageStatus.Completed, Some("attempt " + x.attemptId))
      && forall i :: 1 <= i < k ==> EndedAt(e[i], STAGE_ORDER[i])
  {
    if k > 1 { ThroughExact(x, k - 1); }
  }

  predicate Skipped(o: StageOutcome, stage: Stage, reason: string) {
    o == StageOutcome(stage, StageStatus.NotStarted, Some(reason))
  }

  lemma {:induction false} MissingExact(execution: Execution, reason: string, order: seq<Stage>, k: nat, n: nat)
    requires ProperOrder(order) && k <= 6 && n <= |order| && StagesOf(execution) == order[..k]
    ensures var missing := Missing(execution, reason, order, n);
      && |missing| == (if n <= k then 0 else Capped(n) - k)
      && forall i :: 0 <= i < |missing| ==> Skipped(missing[i], order[k + i], reason)
  {
    hide Recorded;
    if n > 0 {
      MissingExact(execution, reason, order, k, n - 1);
      RecordedExactly(execution, order, k, n - 1);
    }
  }

  lemma FilledExact(execution: Execution, reason: string, k: nat)
    requires k <= 6 && StagesOf(execution) == STAGE_ORDER[..k]
    ensures var e := Filled(execution, reason);
      && |e| == 6 && e[..k] == execution
      && forall i :: k <= i < 6 ==> Skipped(e[i], STAGE_ORDER[i], reason)
  {
    hide Missing;
    StageOrderProper();
    MissingExact(execution, reason, STAGE_ORDER, k, |STAGE_ORDER|);
    assert |StagesOf(execution)| == k;
    var missing := Missing(execution, reason, STAGE_ORDER, |STAGE_ORDER|);
    forall i | k <= i < 6 ensures Skipped(Filled(execution, reason)[i], STAGE_ORDER[i], reason) {
      assert Filled(execution, reason)[i] == missing[i - k];
    }
  }

  /** The closing stages are completed whatever happened. */
  predicate Closes(e: Execution, everything: bool) {
    && |e| == 9
    && e[6] == StageOutcome(CheckCompleteness, StageStatus.Completed,
         Some(if everything then "required coverage and dimensions completed"
              else "required dimensions and coverage did not complete"))
    && EndedAt(e[7], EvaluateStage)
    && EndedAt(e[8], Publish)
  }

  /** The required dimensions as a report lists them: as given, or all not started when none is given. */
  function Listed(policy: ReviewPolicy, given: seq<DimensionOutcome>): seq<DimensionOutcome> {
    if given == [] then AllNotStarted(policy) else given
  }

  lemma ClosingExact(policy: ReviewPolicy, execution: Execution, coverage: Coverage, findings: seq<Finding>,
                     given: seq<DimensionOutcome>, mayPass: bool, errorDetail: Option<string>)
    requires |execution| == 6
    ensures var e := CompleteReport(policy, execution, coverage, findings, given, mayPass, errorDetail).execution;
      && |e| == 9 && e[..6] == execution
      && Closes(e, coverage.complete && given != [] && AllCompleted(given))
  {
    hide EvaluateGate;
    if given == [] && |policy.requiredDimensions| > 0 {
      assert AllNotStarted(policy)[0].status.NotStarted?;
    }
  }

  /** A stage that failed at position k: completed before it, not started after it. */
  ghost predicate StopsAt(x: Inputs, e: Execution, k: nat, failed: StageOutcome, reason: string)
    requires 1 <= k < 6
  {
    && |e| == 9
    && e[0] == StageOutcome(DeriveIdentity, StageStatus.Completed, Some("attempt " + x.attemptId))
    && (forall i :: 1 <= i < k ==> EndedAt(e[i], STAGE_ORDER[i]))
    && e[k] == failed
    && (forall i :: k < i < 6 ==> Skipped(e[i], STAGE_ORDER[i], reason))
    && Closes(e, false)
  }

  lemma AbortedExact(x: Inputs, k: nat, message: string, reason: string, coverage: Coverage)
    requires 1 <= k < 6
    ensures StopsAt(x, Aborted(x, k, message, reason, coverage).execution, k,
              StageOutcome(STAGE_ORDER[k], StageStatus.Failed, Some(message)), reason)
  {
    hide Filled, Through, CompleteReport;
    var failed := FailedAt(STAGE_ORDER[k], message);
    var reached := Through(x, k) + [failed];
    var filled := Filled(reached, reason);
    var e := Aborted(x, k, message, reason, coverage).execution;
    ThroughExact(x, k);
    ThroughStages(x, k);
    AppendStage(Through(x, k), failed, k);
    FilledExact(reached, reason, k + 1);
    ClosingExact(x.policy, filled, coverage, [], [], false, Some(message));
    forall i | 0 <= i < 6 ensures e[i] == filled[i] { assert e[..6][i] == filled[i]; }
    forall i | 0 <= i <= k ensures e[i] == reached[i] { assert filled[..k + 1][i] == reached[i]; }
  }

  lemma UncoveredExact(x: Inputs, reason: string, coverage: Coverage, errorDetail: Option<string>)
    requires !coverage.complete
    ensures var e :=
            CompleteReport(x.policy, Filled(Through(x, 4), reason), coverage, [], [], false, errorDetail).execution;
      StopsAt(x, e, 4, StageOutcome(RunDimensions, StageStatus.NotStarted, Some(reason)), reason)
  {
    hide Filled, Through, CompleteReport;
    var reached := Through(x, 4);
    var filled := Filled(reached, reason);
    var e := CompleteReport(x.policy, filled, coverage, [], [], false, errorDetail).execution;
    ThroughExact(x, 4);
    ThroughStages(x, 4);
    FilledExact(reached, reason, 4);
    ClosingExact(x.policy, filled, coverage, [], [], false, errorDetail);
    forall i | 0 <= i < 6 ensures e[i] == filled[i] { assert e[..6][i] == filled[i]; }
    forall i | 0 <= i < 4 ensures e[i] == reached[i] { assert filled[..4][i] == reached[i]; }
  }

  /** How a report reads when the dimensions were run. */
  ghost predicate Concludes(x: Inputs, r: Report, runs: seq<DimensionRunResult>, coverage: Coverage) {
    var e := r.execution;
    var complete := AllCompleted(OutcomesOf(runs));
    && |e| == 9
    && e[0] == StageOutcome(DeriveIdentity, StageStatus.Completed, Some("attempt " + x.attemptId))
    && EndedAt(e[1], ConstructMerge)
    && EndedAt(e[2], PrepareReviewWorktree)
    && EndedAt(e[3], GatherStage)
    && e[4] == (if complete then StageOutcome(RunDimensions, StageStatus.Completed, None)
         else StageOutcome(RunDimensions, StageStatus.Failed,
           Some("one or more required dimensions did not complete")))
    && e[5] == (if x.verification.Raises?
         then StageOutcome(VerifyDedup, StageStatus.Failed, Some(x.verification.message))
         else StageOutcome(VerifyDedup, StageStatus.Completed,
           Some("validated and deduplicated " + Numeral(|r.findings|) + " findings")))
    && Closes(e, coverage.complete && runs != [] && complete)
  }

  function Ran(runs: seq<DimensionRunResult>): StageOutcome {
    if AllCompleted(OutcomesOf(runs)) then Ended(RunDimensions) else FailedAt(RunDimensions, Incomplete)
  }

  lemma RanExact(x: Inputs, runs: seq<DimensionRunResult>)
    ensures var e := Through(x, 4) + [Ran(runs)];
      && StagesOf(e) == STAGE_ORDER[..5]
      && e[0] == StageOutcome(DeriveIdentity, StageStatus.Completed, Some("attempt " + x.attemptId))
      && EndedAt(e[1], ConstructMerge) && EndedAt(e[2], PrepareReviewWorktree) && EndedAt(e[3], GatherStage)
      && e[4] == Ran(runs)
  {
    hide AllCompleted, Through;
    ThroughExact(x, 4);
    ThroughStages(x, 4);
    AppendStage(Through(x, 4), Ran(runs), 4);
    assert STAGE_ORDER[1] == ConstructMerge && STAGE_ORDER[2] == PrepareReviewWorktree && STAGE_ORDER[3] == GatherStage;
  }

  lemma PrefixKept(e: Execution, execution: Execution, n: nat)
    requires |execution| == n <= |e| && e[..n] == execution
    ensures forall i :: 0 <= i < n ==> e[i] == execution[i]
  {
    forall i | 0 <= i < n ensures e[i] == execution[i] { assert e[..n][i] == e[i]; }
  }

  lemma ConcludedAs(x: Inputs, coverage: Coverage, runs: seq<DimensionRunResult>)
    requires x.prepared.Done? && x.scene.Done?
    ensures var execution := Through(x, 4) + [Ran(runs)];
      var outcomes := OutcomesOf(runs);
      var findings := VerifyAndDeduplicate(EvidenceOf(x), DraftsOf(runs));
      Concluded(x, coverage, runs) ==
      if x.verification.Raises? then
        CompleteReport(x.policy,
          Filled(execution + [FailedAt(VerifyDedup, x.verification.message)],
            "short-circuited after verify-dedup failure"),
          coverage, [], outcomes, false, Some(x.verification.message))
      else
        CompleteReport(x.policy, execution + [VerifiedStage(|findings|)], coverage, findings, outcomes, true,
          if AllCompleted(outcomes) then None else Some(Incomplete))
  {
    hide VerifyAndDeduplicate, EvidenceOf, DraftsOf, CompleteReport, Filled, Through, AllCompleted, Numeral;
  }

  /** How verification is recorded. */
  function VerifiedAs(x: Inputs, findings: nat): StageOutcome {
    if x.verification.Raises? then StageOutcome(VerifyDedup, StageStatus.Failed, Some(x.verification.message))
    else StageOutcome(VerifyDedup, StageStatus.Completed,
      Some("validated and deduplicated " + Numeral(findings) + " findings"))
  }

  lemma ConcludesFrom(x: Inputs, r: Report, runs: seq<DimensionRunResult>, coverage: Coverage)
    requires |r.execution| >= 6
    requires r.execution[..6] == Through(x, 4) + [Ran(runs)] + [VerifiedAs(x, |r.findings|)]
    requires Closes(r.execution, coverage.complete && runs != [] && AllCompleted(OutcomesOf(runs)))
    ensures Concludes(x, r, runs, coverage)
  {
    hide Through, AllCompleted, Numeral;
    RanExact(x, runs);
    PrefixKept(r.execution, Through(x, 4) + [Ran(runs)] + [VerifiedAs(x, |r.findings|)], 6);
  }

  lemma UnverifiedExact(x: Inputs, coverage: Coverage, runs: seq<DimensionRunResult>)
    requires x.prepared.Done? && x.scene.Done? && x.verification.Raises?
    ensures Concludes(x, Concluded(x, coverage, runs), runs, coverage)
    ensures Concluded(x, coverage, runs).findings == []
  {
    hide EvidenceOf, DraftsOf, CompleteReport, Filled, Through, AllCompleted, Numeral, StagesOf, Concluded;
    hide Concludes, Closes, Ran;
    ConcludedAs(x, coverage, runs);
    var reason := "short-circuited after verify-dedup failure";
    var outcomes := OutcomesOf(runs);
    var failed := FailedAt(VerifyDedup, x.verification.message);
    var execution := Through(x, 4) + [Ran(runs)];
    var reached := execution + [failed];
    RanExact(x, runs);
    AppendStage(execution, failed, 5);
    FilledExact(reached, reason, 6);
    assert Filled(reached, reason) == reached by { PrefixKept(Filled(reached, reason), reached, 6); }
    ClosingExact(x.policy, reached, coverage, [], outcomes, false, Some(x.verification.message));
    FindingsKept(x.policy, reached, coverage, [], outcomes, false, Some(x.verification.message));
    ConcludesFrom(x, Concluded(x, coverage, runs), runs, coverage);
  }

  lemma VerifiedExact(x: Inputs, coverage: Coverage, runs: seq<DimensionRunResult>)
    requires x.prepared.Done? && x.scene.Done? && x.verification.Done?
    ensures Concludes(x, Concluded(x, coverage, runs), runs, coverage)
    ensures Concluded(x, coverage, runs).findings == VerifyAndDeduplicate(EvidenceOf(x), DraftsOf(runs))
  {
    hide VerifyAndDeduplicate, EvidenceOf, DraftsOf, CompleteReport, Filled, Through, AllCompleted, Numeral, StagesOf;
    hide Concluded, Concludes, Closes, Ran;
    ConcludedAs(x, coverage, runs);
    var outcomes := OutcomesOf(runs);
    var detail := if AllCompleted(outcomes) then None else Some(Incomplete);
    var findings := VerifyAndDeduplicate(EvidenceOf(x), DraftsOf(runs));
    var reached := Through(x, 4) + [Ran(runs)] + [VerifiedStage(|findings|)];
    RanExact(x, runs);
    ClosingExact(x.policy, reached, coverage, findings, outcomes, true, detail);
    FindingsKept(x.policy, reached, coverage, findings, outcomes, true, detail);
    ConcludesFrom(x, Concluded(x, coverage, runs), runs, coverage);
  }

  lemma FindingsKept(policy: ReviewPolicy, execution: Execution, coverage: Coverage, findings: seq<Finding>,
                     given: seq<DimensionOutcome>, mayPass: bool, errorDetail: Option<string>)
    ensures var r := CompleteReport(policy, execution, coverage, findings, given, mayPass, errorDetail);
      r.findings == findings && r.coverage == coverage && r.outcomes == Listed(policy, given)
  {
    hide EvaluateGate;
  }

  // ---- the stages of a report -----------------------------------------------------------------------

  lemma ProblemAgrees(x: Inputs)
    ensures DimensionsProblem(x) == Refused(x)
  {
  }

  /**
   * The execution of a report, stage by stage, from the inputs alone. Incomplete coverage fails no
   * stage, and dimensions that do not complete do not keep the findings from being verified.
   */
  ghost predicate AsInputsSay(x: Inputs, e: Execution, findings: nat)
    requires x.Complete()
  {
    var reason := Reason(x);
    && |e| == 9
    && e[0] == StageOutcome(DeriveIdentity, StageStatus.Completed, Some("attempt " + x.attemptId))
    && Says(e[1], ConstructMerge, true, Problem(x.candidate), None, reason)
    && Says(e[2], PrepareReviewWorktree, x.candidate.Done?, Problem(x.prepared), None, reason)
    && Says(e[3], GatherStage, x.candidate.Done? && x.prepared.Done?, Problem(x.scene), None, reason)
    && Says(e[4], RunDimensions, Covered(x), DimensionsFailure(x), None, reason)
    && Says(e[5], VerifyDedup, Called(x), Problem(x.verification),
         Some("validated and deduplicated " + Numeral(findings) + " findings"), reason)
    && Closes(e, RanAll(x) && x.policy.requiredDimensions != [])
  }

  lemma StoppedEarly(x: Inputs, e: Execution, k: nat, findings: nat)
    requires x.Complete() && 1 <= k <= 3
    requires k == 1 ==> x.candidate.Raises?
    requires k == 2 ==> x.candidate.Done? && x.prepared.Raises?
    requires k == 3 ==> x.candidate.Done? && x.prepared.Done? && x.scene.Raises?
    requires StopsAt(x, e, k, StageOutcome(STAGE_ORDER[k], StageStatus.Failed,
               if k == 1 then Problem(x.candidate) else if k == 2 then Problem(x.prepared) else Problem(x.scene)),
               Reason(x))
    ensures AsInputsSay(x, e, findings)
  {
    hide RunAll, AllReadable, Refused, Numeral, Reason, DimensionsFailure, Closes;
    assert !Covered(x);
    assert STAGE_ORDER[1] == ConstructMerge && STAGE_ORDER[2] == PrepareReviewWorktree;
    assert STAGE_ORDER[3] == GatherStage && STAGE_ORDER[4] == RunDimensions && STAGE_ORDER[5] == VerifyDedup;
  }

  lemma StoppedBeforeCalls(x: Inputs, e: Execution, findings: nat)
    requires x.Complete() && x.candidate.Done? && x.prepared.Done? && x.scene.Done? && !Called(x)
    requires StopsAt(x, e, 4,
               if Covered(x) then StageOutcome(RunDimensions, StageStatus.Failed, Refused(x))
               else StageOutcome(RunDimensions, StageStatus.NotStarted, Some(Reason(x))), Reason(x))
    ensures AsInputsSay(x, e, findings)
  {
    hide RunAll, AllReadable, Refused, Numeral, Reason, Closes;
    assert STAGE_ORDER[1] == ConstructMerge && STAGE_ORDER[2] == PrepareReviewWorktree;
    assert STAGE_ORDER[3] == GatherStage && STAGE_ORDER[5] == VerifyDedup;
  }

  lemma NotStopped(x: Inputs, r: Report, coverage: Coverage)
    requires x.Complete() && Called(x) && coverage.complete
    requires Concludes(x, r, RunAll(x.CallPlan()), coverage)
    ensures AsInputsSay(x, r.execution, |r.findings|)
  {
    hide RunAll, AllReadable, Refused, Numeral, Reason, Closes;
    RunOutcomes(x);
    assert RanAll(x) <==> AllCompleted(OutcomesOf(RunAll(x.CallPlan())));
    assert x.policy.requiredDimensions == [] <==> RunAll(x.CallPlan()) == [];
  }

  /**
   * Each stage is completed when it is reached and goes well, failed with the message of what went
   * wrong there, and not started, with the reason, after a stage that stopped the review; the three
   * closing stages are always completed.
   */
  lemma StagesExactly(x: Inputs)
    requires x.Complete()
    ensures AsInputsSay(x, Review(x).execution, |Review(x).findings|)
  {
    hide Aborted, Concluded, Gather, DimensionsProblem, RunAll, CompleteReport, AllReadable, Refused, AsInputsSay;
    hide StopsAt, Concludes;
    var e, n := Review(x).execution, |Review(x).findings|;
    if x.candidate.Raises? {
      AbortedExact(x, 1, x.candidate.message, Reason(x), NoCoverage);
      StoppedEarly(x, e, 1, n);
    } else if x.prepared.Raises? {
      AbortedExact(x, 2, x.prepared.message, Reason(x), NoCoverage);
      StoppedEarly(x, e, 2, n);
    } else if x.scene.Raises? {
      AbortedExact(x, 3, x.scene.message, Reason(x), NoCoverage);
      StoppedEarly(x, e, 3, n);
    } else {
      var coverage := Gather(x.scene.value).coverage;
      CompleteExactly(x.scene.value);
      ProblemAgrees(x);
      if !coverage.complete {
        UncoveredExact(x, Reason(x), coverage, Some(CoverageErrorDetail(coverage)));
        StoppedBeforeCalls(x, e, n);
      } else if DimensionsProblem(x).Some? {
        AbortedExact(x, 4, DimensionsProblem(x).value, Reason(x), coverage);
        StoppedBeforeCalls(x, e, n);
      } else {
        if x.verification.Raises? { UnverifiedExact(x, coverage, RunAll(x.CallPlan())); }
        else { VerifiedExact(x, coverage, RunAll(x.CallPlan())); }
        NotStopped(x, Review(x), coverage);
      }
    }
  }

  // ---- the rest of a report -----------------------------------------------------------------------

  /** One entry per required dimension: what its run came to, or not started when nothing ran. */
  ghost predicate OutcomesAsRun(x: Inputs, outcomes: seq<DimensionOutcome>)
    requires x.Complete()
  {
    && |outcomes| == |x.policy.requiredDimensions|
    && forall i :: 0 <= i < |outcomes| ==>
         outcomes[i] ==
         if Called(x) then RunOutcome(x, i)
         else DimensionOutcome(x.policy.requiredDimensions[i], StageStatus.NotStarted, None)
  }

  ghost function RunOutcome(x: Inputs, i: nat): DimensionOutcome
    requires x.Complete() && x.candidate.Done? && i < |x.policy.requiredDimensions|
  {
    ResultsMatchDimensions(x.CallPlan());
    RunAll(x.CallPlan())[i].outcome
  }

  /** The first thing that went wrong, whatever the gate says. */
  ghost function Trouble(x: Inputs): Option<string>
    requires x.Complete()
  {
    if x.candidate.Raises? then Some(x.candidate.message)
    else if x.prepared.Raises? then Some(x.prepared.message)
    else if x.scene.Raises? then Some(x.scene.message)
    else if !AllReadable(x.scene.value) then Some(CoverageErrorDetail(Gather(x.scene.value).coverage))
    else if Refused(x).Some? then Refused(x)
    else if x.verification.Raises? then Some(x.verification.message)
    else if RanAll(x) then None
    else Some("one or more required dimensions did not complete")
  }

  /** Verification failed without a word although the dimensions alone would have decided the gate. */
  ghost predicate Wordless(x: Inputs)
    requires x.Complete()
  {
    RanAll(x) && WellNamed(x.policy) && x.verification == Raises("")
  }

  lemma ClosingRest(policy: ReviewPolicy, execution: Execution, coverage: Coverage, findings: seq<Finding>,
                    given: seq<DimensionOutcome>, mayPass: bool, errorDetail: Option<string>)
    ensures var r := CompleteReport(policy, execution, coverage, findings, given, mayPass, errorDetail);
      && r.findings == findings && r.coverage == coverage && r.outcomes == Listed(policy, given)
      && r.errorDetail ==
         if !mayPass && coverage.complete && DimensionsComplete(policy, Listed(policy, given)) &&
            errorDetail.GetOr("") == ""
         then Some("review cannot produce a standing decision until finding verification completes")
         else errorDetail
  {
    hide DimensionsComplete;
  }

  lemma NoneComplete(policy: ReviewPolicy)
    ensures !DimensionsComplete(policy, AllNotStarted(policy))
  {
    if policy.requiredDimensions != [] { assert policy.requiredDimensions[0] in policy.requiredDimensions; }
  }

  lemma EarlyRest(x: Inputs)
    requires x.Complete() && !(x.candidate.Done? && x.prepared.Done? && x.scene.Done?)
    ensures var r := Review(x);
      r.findings == [] && r.coverage == NoCoverage && r.outcomes == AllNotStarted(x.policy) &&
        r.errorDetail == Trouble(x)
  {
    hide Filled, Through, CompleteReport, DimensionsComplete;
    var k := if x.candidate.Raises? then 1 else if x.prepared.Raises? then 2 else 3;
    var message := Trouble(x).value;
    ClosingRest(x.policy, Filled(Through(x, k) + [FailedAt(STAGE_ORDER[k], message)], Reason(x)), NoCoverage, [], [],
      false, Some(message));
  }

  lemma UncalledRest(x: Inputs)
    requires x.Complete() && x.candidate.Done? && x.prepared.Done? && x.scene.Done? && !Called(x)
    ensures var r := Review(x);
      && r.findings == [] && r.coverage == Gather(x.scene.value).coverage && r.outcomes == AllNotStarted(x.policy)
      && r.errorDetail == Trouble(x)
  {
    hide Gather, RunAll, Filled, Through, AllReadable, Refused, DimensionsProblem, CompleteReport, DimensionsComplete;
    hide Concluded, CoverageErrorDetail;
    var coverage := Gather(x.scene.value).coverage;
    CompleteExactly(x.scene.value);
    ProblemAgrees(x);
    NoneComplete(x.policy);
    if !coverage.complete {
      ClosingRest(x.policy, Filled(Through(x, 4), Reason(x)), coverage, [], [], false,
        Some(CoverageErrorDetail(coverage)));
    } else {
      var message := Refused(x).value;
      ClosingRest(x.policy, Filled(Through(x, 4) + [FailedAt(STAGE_ORDER[4], message)], Reason(x)), coverage, [], [],
        false, Some(message));
    }
  }

  lemma RunsListed(x: Inputs)
    requires x.Complete() && Called(x)
    ensures var outcomes := OutcomesOf(RunAll(x.CallPlan()));
      && OutcomesAsRun(x, outcomes) && Listed(x.policy, outcomes) == outcomes
      && (RanAll(x) <==> AllCompleted(outcomes))
      && (DimensionsComplete(x.policy, outcomes) <==> WellNamed(x.policy) && AllCompleted(outcomes))
  {
    hide RunAll, AllReadable, Refused, DimensionsComplete;
    RunOutcomes(x);
    OutcomesComplete(x.policy, OutcomesOf(RunAll(x.CallPlan())));
  }

  lemma CalledRest(x: Inputs)
    requires x.Complete() && Called(x) && DimensionsProblem(x).None? && Gather(x.scene.value).coverage.complete
    ensures var r := Review(x);
      && r.findings == (if x.verification.Done? then Validated(x) else [])
      && r.coverage == Gather(x.scene.value).coverage
      && OutcomesAsRun(x, r.outcomes)
      && r.errorDetail == (if Wordless(x)
           then Some("review cannot produce a standing decision until finding verification completes")
           else Trouble(x))
  {
    hide Gather, RunAll, VerifyAndDeduplicate, EvidenceOf, DraftsOf, Filled, Through, AllReadable, Refused;
    hide DimensionsProblem, CompleteReport, DimensionsComplete, Concluded, RanAll, WellNamed, OutcomesAsRun, Listed;
    hide AllCompleted;
    var runs := RunAll(x.CallPlan());
    ConcludedAs(x, Gather(x.scene.value).coverage, runs);
    var outcomes := OutcomesOf(runs);
    var coverage := Gather(x.scene.value).coverage;
    var execution := Through(x, 4) + [Ran(runs)];
    RunsListed(x);
    if x.verification.Raises? {
      ClosingRest(x.policy, Filled(execution + [FailedAt(VerifyDedup, x.verification.message)],
          "short-circuited after verify-dedup failure"), coverage, [], outcomes, false, Some(x.verification.message));
    } else {
      var findings := VerifyAndDeduplicate(EvidenceOf(x), DraftsOf(runs));
      ClosingRest(x.policy, execution + [VerifiedStage(|findings|)], coverage, findings, outcomes, true,
        if AllCompleted(outcomes) then None else Some(Incomplete));
    }
  }

  lemma RanIsCalled(x: Inputs)
    requires x.Complete()
    ensures RanAll(x) ==> Called(x)
  {
  }

  lemma NoOutcomes(x: Inputs)
    requires x.Complete() && !Called(x)
    ensures OutcomesAsRun(x, AllNotStarted(x.policy))
  {
  }

  /** Findings are the verified ones or none; coverage, outcomes and explanation say how far the review came. */
  lemma ReportExactly(x: Inputs)
    requires x.Complete()
    ensures var r := Review(x);
      && r.findings == (if Called(x) && x.verification.Done? then Validated(x) else [])
      && r.coverage == (if x.candidate.Done? && x.prepared.Done? && x.scene.Done? then Gather(x.scene.value).coverage
           else Coverage(false, [], [], [], [], []))
      && OutcomesAsRun(x, r.outcomes)
      && r.errorDetail == (if Wordless(x)
           then Some("review cannot produce a standing decision until finding verification completes")
           else Trouble(x))
  {
    hide Review, Gather, Trouble, Validated, AllReadable, Refused, RanAll, OutcomesAsRun;
    RanIsCalled(x);
    if !(x.candidate.Done? && x.prepared.Done? && x.scene.Done?) {
      EarlyRest(x);
      NoOutcomes(x);
    } else if !Called(x) {
      UncalledRest(x);
      NoOutcomes(x);
    } else {
      CompleteExactly(x.scene.value);
      ProblemAgrees(x);
      CalledRest(x);
    }
  }

  lemma ReadyExactly(x: Inputs)
    requires x.Complete()
    ensures Ready(x) <==> RanAll(x) && x.verification.Done?
  {
    hide AllReadable, RunAll, Refused, Gather, DimensionsProblem;
    ProblemAgrees(x);
    if x.scene.Done? { CompleteExactly(x.scene.value); }
    if x.candidate.Done? {
      var runs := RunAll(x.CallPlan());
      assert AllCompleted(OutcomesOf(runs)) <==>
        forall i :: 0 <= i < |runs| ==> runs[i].outcome.status == StageStatus.Completed;
    }
  }

  lemma CompletedExactly(o: StageOutcome, stage: Stage, reached: bool, problem: Option<string>, detail: Option<string>,
                         reason: string)
    requires Says(o, stage, reached, problem, detail, reason)
    ensures o.status.Completed? <==> reached && problem.None?
  {
  }

  /** Each step presupposes the ones before it. */
  lemma Chained(x: Inputs)
    requires x.Complete()
    ensures RanAll(x) ==> Called(x)
    ensures Called(x) ==> Covered(x)
    ensures Covered(x) ==> x.candidate.Done? && x.prepared.Done? && x.scene.Done?
    ensures Called(x) ==> (DimensionsFailure(x).None? <==> RanAll(x))
    ensures Covered(x) && !Called(x) ==> DimensionsFailure(x).Some?
  {
    hide RunAll, AllReadable;
  }

  lemma AllStagesExactly(x: Inputs, e: Execution, findings: nat)
    requires x.Complete() && AsInputsSay(x, e, findings)
    ensures RanAll(x) && x.verification.Done? <==> AllEnded(e)
  {
    hide RunAll, Numeral, Reason, Says, RanAll, Called, Covered, Refused;
    var reason := Reason(x);
    CompletedExactly(e[1], ConstructMerge, true, Problem(x.candidate), None, reason);
    CompletedExactly(e[2], PrepareReviewWorktree, x.candidate.Done?, Problem(x.prepared), None, reason);
    CompletedExactly(e[3], GatherStage, x.candidate.Done? && x.prepared.Done?, Problem(x.scene), None, reason);
    CompletedExactly(e[4], RunDimensions, Covered(x), DimensionsFailure(x), None, reason);
    CompletedExactly(e[5], VerifyDedup, Called(x), Problem(x.verification),
      Some("validated and deduplicated " + Numeral(findings) + " findings"), reason);
    Chained(x);
    assert AllEnded(e) <==>
      e[1].status.Completed? && e[2].status.Completed? && e[3].status.Completed? && e[4].status.Completed? &&
      e[5].status.Completed?;
  }

  /** The gate is Error exactly when a stage is not completed or the policy names no dimension or one twice. */
  lemma ErrorMeansStage(x: Inputs)
    requires x.Complete()
    ensures Review(x).gate == Error <==>
              !WellNamed(x.policy) ||
              exists i :: 0 <= i < |Review(x).execution| && Review(x).execution[i].status != StageStatus.Completed
  {
    hide Review, AsInputsSay, Ready, RanAll, WellNamed;
    ErrorExactly(x);
    StagesExactly(x);
    ReadyExactly(x);
    AllStagesExactly(x, Review(x).execution, |Review(x).findings|);
  }

  // ---- what is priced and what is verified ------------------------------------------------------------

  /** The drafts are the findings of all runs, and nothing else. */
  lemma {:induction false} DraftsExactly(runs: seq<DimensionRunResult>, f: Finding)
    ensures f in DraftsOf(runs) <==> exists i :: 0 <= i < |runs| && f in runs[i].findings
  {
    if |runs| > 0 {
      var front := runs[..|runs| - 1];
      DraftsExactly(front, f);
      if i :| 0 <= i < |front| && f in front[i].findings { assert f in runs[i].findings; }
      if i :| 0 <= i < |runs| && f in runs[i].findings { if i < |front| { assert f in front[i].findings; } }
    }
  }

  /** A quote is checked against the gathered texts that have a snapshot, and against the prepared worktree. */
  lemma EvidenceExactly(x: Inputs, r: EvidenceRecord)
    requires x.prepared.Done? && x.scene.Done?
    ensures EvidenceOf(x).worktree == Some(x.prepared.value)
    ensures var items := Gather(x.scene.value).items;
      r in EvidenceOf(x).records <==> exists i :: 0 <= i < |items| && Grounding(items[i], r)
  {
    GatheredExactly(Gather(x.scene.value).items, r);
  }

  /** With every count and price known, the pre-flight estimate is what the calls are estimated to cost together. */
  lemma EstimateExactly(x: Inputs)
    ensures x.Estimate().cost == CostOf(x.Estimate(), x.computePolicy)
    ensures x.Estimate().outputTokens.Some?
    ensures x.Estimate().inputTokens.None? <==> exists i :: 0 <= i < |x.estimates| && x.estimates[i].inputTokens.None?
    ensures FullyKnown(x.estimates, x.computePolicy) ==>
              x.Estimate().cost == Some(SumCost(x.estimates, x.computePolicy))
  {
    if FullyKnown(x.estimates, x.computePolicy) { CombinedCostsTheSum(x.estimates, x.computePolicy); }
  }
}
