/** What every report of the pipeline says about the review behind it. */
module PipelineTheorems {
  import opened Prelude
  import opened Identity
  import opened Findings
  import opened FindingsDedup
  import opened Gate
  import opened Provider
  import opened Dimensions
  import opened ContextGathering
  import opened Pipeline

  // ---- nine stages, once each, in order ------------------------------------------------------

  function StagesOf(execution: Execution): (r: seq<Stage>)
    ensures |r| == |execution| && forall i :: 0 <= i < |r| ==> r[i] == execution[i].stage
  {
    seq(|execution|, i requires 0 <= i < |execution| => execution[i].stage)
  }

  predicate AllEnded(execution: Execution) {
    forall i :: 0 <= i < |execution| ==> execution[i].status.Completed?
  }

  lemma {:induction false} ThroughStages(x: Inputs, k: nat)
    requires 1 <= k <= 6
    ensures StagesOf(Through(x, k)) == STAGE_ORDER[..k] && AllEnded(Through(x, k))
  {
    if k > 1 { ThroughStages(x, k - 1); }
  }

  function Capped(n: nat): nat {
    if n < 6 then n else 6
  }

  /** Nothing twice, and the closing stages are those from position 6 on. */
  ghost predicate ProperOrder(order: seq<Stage>) {
    && |order| >= 6
    && (forall i, j :: 0 <= i < j < |order| ==> order[i] != order[j])
    && (forall i :: 0 <= i < |order| ==> (PostFailure(order[i]) <==> i >= 6))
  }

  lemma StageOrderProper()
    ensures ProperOrder(STAGE_ORDER)
  {
  }

  lemma RecordedExactly(execution: Execution, order: seq<Stage>, k: nat, i: nat)
    requires ProperOrder(order) && k <= 6 && i < |order| && StagesOf(execution) == order[..k]
    ensures Recorded(execution, order[i]) <==> i < k
  {
    if i < k { assert StagesOf(execution)[i] == order[i]; }
    if j :| 0 <= j < |execution| && execution[j].stage == order[i] { assert StagesOf(execution)[j] == order[j]; }
  }

  /** Filling in adds exactly the analysis stages that were not reached. */
  lemma {:induction false} MissingStages(execution: Execution, reason: string, order: seq<Stage>, k: nat, n: nat)
    requires ProperOrder(order) && k <= 6 && n <= |order| && StagesOf(execution) == order[..k]
    ensures StagesOf(Missing(execution, reason, order, n)) == if n <= k then [] else order[k..Capped(n)]
  {
    hide Recorded;
    if n > 0 {
      MissingStages(execution, reason, order, k, n - 1);
      RecordedExactly(execution, order, k, n - 1);
    }
  }

  lemma FilledStages(execution: Execution, reason: string, k: nat)
    requires k <= 6 && StagesOf(execution) == STAGE_ORDER[..k]
    ensures StagesOf(Filled(execution, reason)) == STAGE_ORDER[..6]
  {
    StageOrderProper();
    MissingStages(execution, reason, STAGE_ORDER, k, |STAGE_ORDER|);
    assert STAGE_ORDER[..k] + STAGE_ORDER[k..6] == STAGE_ORDER[..6];
  }

  lemma ClosingStages(policy: ReviewPolicy, execution: Execution, coverage: Coverage, findings: seq<Finding>,
                      given: seq<DimensionOutcome>, mayPass: bool, errorDetail: Option<string>)
    requires StagesOf(execution) == STAGE_ORDER[..6]
    ensures StagesOf(CompleteReport(policy, execution, coverage, findings, given, mayPass, errorDetail).execution) ==
            STAGE_ORDER
  {
    var whole := CompleteReport(policy, execution, coverage, findings, given, mayPass, errorDetail).execution;
    assert StagesOf(whole) == StagesOf(execution) + [CheckCompleteness, EvaluateStage, Publish];
    assert STAGE_ORDER == STAGE_ORDER[..6] + [CheckCompleteness, EvaluateStage, Publish];
  }

  lemma AppendStage(execution: Execution, outcome: StageOutcome, k: nat)
    requires k < |STAGE_ORDER| && StagesOf(execution) == STAGE_ORDER[..k] && outcome.stage == STAGE_ORDER[k]
    ensures StagesOf(execution + [outcome]) == STAGE_ORDER[..k + 1]
  {
  }

  lemma AbortedStages(x: Inputs, k: nat, message: string, reason: string, coverage: Coverage)
    requires 1 <= k < 6
    ensures StagesOf(Aborted(x, k, message, reason, coverage).execution) == STAGE_ORDER
  {
    var failed := FailedAt(STAGE_ORDER[k], message);
    ThroughStages(x, k);
    AppendStage(Through(x, k), failed, k);
    FilledStages(Through(x, k) + [failed], reason, k + 1);
    ClosingStages(x.policy, Filled(Through(x, k) + [failed], reason), coverage, [], [], false, Some(message));
  }

  lemma ConcludedStages(x: Inputs, coverage: Coverage, runs: seq<DimensionRunResult>)
    requires x.prepared.Done? && x.scene.Done?
    ensures StagesOf(Concluded(x, coverage, runs).execution) == STAGE_ORDER
  {
    hide VerifyAndDeduplicate, EvidenceOf, DraftsOf, CompleteReport, Filled, Through;
    var outcomes := OutcomesOf(runs);
    var ran := if AllCompleted(outcomes) then Ended(RunDimensions) else FailedAt(RunDimensions, Incomplete);
    var execution := Through(x, 4) + [ran];
    ThroughStages(x, 4);
    AppendStage(Through(x, 4), ran, 4);
    if x.verification.Raises? {
      var failed := FailedAt(VerifyDedup, x.verification.message);
      AppendStage(execution, failed, 5);
      FilledStages(execution + [failed], "short-circuited after verify-dedup failure", 6);
      ClosingStages(x.policy, Filled(execution + [failed], "short-circuited after verify-dedup failure"), coverage, [],
        outcomes, false, Some(x.verification.message));
    } else {
      var findings := VerifyAndDeduplicate(EvidenceOf(x), DraftsOf(runs));
      AppendStage(execution, VerifiedStage(|findings|), 5);
      ClosingStages(x.policy, execution + [VerifiedStage(|findings|)], coverage, findings, outcomes,
        true, if AllCompleted(outcomes) then None else Some(Incomplete));
    }
  }

  /** Whatever fails and wherever, the report lists the nine stages once each, in order. */
  lemma NineStagesInOrder(x: Inputs)
    requires x.Complete()
    ensures StagesOf(Review(x).execution) == STAGE_ORDER
    ensures forall i, j :: 0 <= i < j < |STAGE_ORDER| ==> STAGE_ORDER[i] != STAGE_ORDER[j]
  {
    hide Aborted, Concluded, Gather, DimensionsProblem, RunAll, CompleteReport;
    if x.candidate.Raises? {
      AbortedStages(x, 1, x.candidate.message, "short-circuited after construct-merge failure", NoCoverage);
    } else if x.prepared.Raises? {
      AbortedStages(x, 2, x.prepared.message, "short-circuited after prepare-review-worktree failure", NoCoverage);
    } else if x.scene.Raises? {
      AbortedStages(x, 3, x.scene.message, "short-circuited after gather-context failure", NoCoverage);
    } else {
      var coverage := Gather(x.scene.value).coverage;
      if !coverage.complete {
        var reason := "short-circuited: required coverage is incomplete";
        ThroughStages(x, 4);
        FilledStages(Through(x, 4), reason, 4);
        ClosingStages(x.policy, Filled(Through(x, 4), reason), coverage, [], [], false,
          Some(CoverageErrorDetail(coverage)));
      } else if DimensionsProblem(x).Some? {
        AbortedStages(x, 4, DimensionsProblem(x).value, "short-circuited after run-dimensions failure", coverage);
      } else {
        ConcludedStages(x, coverage, RunAll(x.CallPlan()));
      }
    }
  }

  // ---- a gate that is not Error -----------------------------------------------------------------

  predicate Distinct(ids: seq<string>) {
    forall i, j :: 0 <= i < j < |ids| ==> ids[i] != ids[j]
  }

  /** Everything that has to go well went well. */
  predicate Ready(x: Inputs)
    requires x.Complete()
  {
    && x.candidate.Done? && x.prepared.Done? && x.scene.Done?
    && Gather(x.scene.value).coverage.complete
    && DimensionsProblem(x).None?
    && AllCompleted(OutcomesOf(RunAll(x.CallPlan())))
    && x.verification.Done?
  }

  predicate WellNamed(policy: ReviewPolicy) {
    policy.requiredDimensions != [] && Distinct(policy.requiredDimensions)
  }

  /** Outcomes in the policy's order are complete exactly when the policy repeats nothing and all completed. */
  lemma OutcomesComplete(policy: ReviewPolicy, outcomes: seq<DimensionOutcome>)
    requires |outcomes| == |policy.requiredDimensions|
    requires forall i :: 0 <= i < |outcomes| ==> outcomes[i].dimensionId == policy.requiredDimensions[i]
    ensures DimensionsComplete(policy, outcomes) <==> WellNamed(policy) && AllCompleted(outcomes)
  {
    if DimensionsComplete(policy, outcomes) {
      forall i | 0 <= i < |outcomes| ensures outcomes[i].status.Completed? {
        assert policy.requiredDimensions[i] in policy.requiredDimensions;
        var j :| 0 <= j < |outcomes| && outcomes[j].dimensionId == policy.requiredDimensions[i] &&
          outcomes[j].status.Completed?;
        assert i == j;
      }
      forall i, j | 0 <= i < j < |policy.requiredDimensions|
        ensures policy.requiredDimensions[i] != policy.requiredDimensions[j]
      {
        assert outcomes[i].dimensionId != outcomes[j].dimensionId;
      }
    }
    if WellNamed(policy) && AllCompleted(outcomes) {
      forall d | d in policy.requiredDimensions ensures Finished(outcomes, d) {
        var i :| 0 <= i < |policy.requiredDimensions| && policy.requiredDimensions[i] == d;
        assert outcomes[i].dimensionId == d;
      }
    }
  }

  lemma RunOutcomes(x: Inputs)
    requires x.Complete() && x.candidate.Done?
    ensures var outcomes := OutcomesOf(RunAll(x.CallPlan()));
      && |outcomes| == |x.policy.requiredDimensions|
      && forall i :: 0 <= i < |outcomes| ==> outcomes[i].dimensionId == x.policy.requiredDimensions[i]
  {
    ResultsMatchDimensions(x.CallPlan());
  }

  /** What the review found, once its findings are verified and merged. */
  function Validated(x: Inputs): seq<Finding>
    requires x.Complete() && x.candidate.Done? && x.prepared.Done? && x.scene.Done?
  {
    VerifyAndDeduplicate(EvidenceOf(x), DraftsOf(RunAll(x.CallPlan())))
  }

  /**
   * The gate is Error exactly when something did not complete; otherwise it is what the verified,
   * merged findings say.
   */
  lemma ErrorExactly(x: Inputs)
    requires x.Complete()
    ensures Review(x).gate != Error <==> Ready(x) && WellNamed(x.policy)
    ensures Review(x).gate != Error ==>
              Review(x).gate == FindingsGate(x.policy, Validated(x)) && Review(x).findings == Validated(x)
  {
    hide Gather, DimensionsProblem, RunAll, VerifyAndDeduplicate, DimensionsComplete, EvidenceOf, DraftsOf, Filled;
    hide Through;
    if x.candidate.Done? && x.prepared.Done? && x.scene.Done? && Gather(x.scene.value).coverage.complete &&
      DimensionsProblem(x).None? {
      var outcomes := OutcomesOf(RunAll(x.CallPlan()));
      RunOutcomes(x);
      OutcomesComplete(x.policy, outcomes);
      if outcomes == [] { assert AllNotStarted(x.policy) == []; }
    }
  }

  lemma EndedThroughout(x: Inputs)
    requires x.Complete() && Ready(x)
    ensures AllEnded(Review(x).execution)
    ensures OutcomesOf(RunAll(x.CallPlan())) != [] ==> Review(x).outcomes == OutcomesOf(RunAll(x.CallPlan()))
    ensures Review(x).coverage == Gather(x.scene.value).coverage
  {
    hide Gather, DimensionsProblem, RunAll, VerifyAndDeduplicate, EvidenceOf, DraftsOf, EvaluateGate, Through;
    ThroughStages(x, 4);
  }

  /**
   * A gate other than Error means a complete review: all nine stages completed, coverage complete,
   * and each required dimension completed exactly once.
   */
  lemma PassingMeansComplete(x: Inputs)
    requires x.Complete() && Review(x).gate != Error
    ensures AllEnded(Review(x).execution) && StagesOf(Review(x).execution) == STAGE_ORDER
    ensures Review(x).coverage.complete && AllReadable(x.scene.value)
    ensures EachOnce(Review(x).outcomes)
    ensures forall d :: d in x.policy.requiredDimensions ==> Finished(Review(x).outcomes, d)
    ensures |Review(x).outcomes| == |x.policy.requiredDimensions|
  {
    hide Review, Gather, DimensionsProblem, RunAll;
    ErrorExactly(x);
    NineStagesInOrder(x);
    EndedThroughout(x);
    CompleteExactly(x.scene.value);
    RunOutcomes(x);
    OutcomesComplete(x.policy, OutcomesOf(RunAll(x.CallPlan())));
  }

  // ---- no bypass, and evidence behind every block ------------------------------------------------

  predicate Unbypassed(fs: seq<Finding>) {
    forall i :: 0 <= i < |fs| ==> !fs[i].bypassApplied
  }

  lemma RunOneUnbypassed(plan: Plan, i: nat)
    requires plan.Complete() && i < |plan.dimensions|
    ensures Unbypassed(RunOne(plan, i).findings)
  {
  }

  lemma {:induction false} DraftsUnbypassed(runs: seq<DimensionRunResult>)
    requires forall i :: 0 <= i < |runs| ==> Unbypassed(runs[i].findings)
    ensures Unbypassed(DraftsOf(runs))
  {
    if |runs| > 0 { DraftsUnbypassed(runs[..|runs| - 1]); }
  }

  lemma {:induction false} ResultsUnbypassed(plan: Plan, n: nat)
    requires plan.Complete() && n <= |plan.dimensions|
    ensures forall i :: 0 <= i < |MeterAfter(plan, n).results| ==> Unbypassed(MeterAfter(plan, n).results[i].findings)
  {
    hide RunOne, Veto, MeasuredCost;
    if n > 0 {
      ResultsUnbypassed(plan, n - 1);
      RunOneUnbypassed(plan, n - 1);
    }
  }

  lemma OutputUnbypassed(c: Context, fs: seq<Finding>, i: nat)
    requires Unbypassed(fs) && i < |VerifyAndDeduplicate(c, fs)|
    ensures !VerifyAndDeduplicate(c, fs)[i].bypassApplied
  {
    hide VerifyAndDeduplicate, VerifyFinding;
    var group := OutputAt(c, fs, i);
    var v := group[0];
    var f :| f in fs && v == c.Verify(f);
    VerifyKeeps(c, f);
    assert v in group;
  }

  /** A review by itself never passes with bypass: bypasses are granted afterwards. */
  lemma NeverPassedWithBypass(x: Inputs)
    requires x.Complete()
    ensures Review(x).gate in {Passed, Blocked, Error}
  {
    hide Review, VerifyAndDeduplicate, RunAll, DraftsOf;
    ErrorExactly(x);
    if Review(x).gate != Error {
      var plan := x.CallPlan();
      ResultsUnbypassed(plan, |plan.dimensions|);
      assert RunAll(plan) == MeterAfter(plan, |plan.dimensions|).results by { RunAllUnfolds(plan); }
      DraftsUnbypassed(RunAll(plan));
      var out := Validated(x);
      forall f | f in out ensures !f.bypassApplied {
        var i :| 0 <= i < |out| && out[i] == f;
        OutputUnbypassed(EvidenceOf(x), DraftsOf(RunAll(plan)), i);
      }
    }
  }

  lemma RunAllUnfolds(plan: Plan)
    requires plan.Complete()
    ensures RunAll(plan) == MeterAfter(plan, |plan.dimensions|).results
  {
  }

  /** A block always rests on evidence: some blocking finding has spans, each backed by a trusted text. */
  lemma BlockedMeansEvidence(x: Inputs)
    requires x.Complete() && Review(x).gate == Blocked
    ensures exists f :: f in Review(x).findings && Blocks(f, x.policy) && f.band == Supported && |f.spans| > 0 &&
              (forall k :: 0 <= k < |f.spans| ==> Backed(f.spans[k], EvidenceOf(x).worktree, EvidenceOf(x).records))
  {
    hide Review, VerifyAndDeduplicate, RunAll, DraftsOf, EvidenceOf, Backed;
    ErrorExactly(x);
    var out := Validated(x);
    var f :| f in out && Blocks(f, x.policy) && !f.bypassApplied;
    var i :| 0 <= i < |out| && out[i] == f;
    OutputGrounded(EvidenceOf(x), DraftsOf(RunAll(x.CallPlan())), i);
  }

  /**
   * An Error report explains itself, except when everything completed and the policy names no dimension or one twice.
   */
  lemma UnexplainedErrors(x: Inputs)
    requires x.Complete()
    ensures Review(x).gate == Error && Review(x).errorDetail.None? <==> Ready(x) && !WellNamed(x.policy)
  {
    hide Gather, DimensionsProblem, RunAll, VerifyAndDeduplicate, DimensionsComplete, EvidenceOf, DraftsOf, Filled;
    hide Through;
    ErrorExactly(x);
  }
}
