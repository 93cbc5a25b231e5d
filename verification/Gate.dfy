/** The gate evaluator, and what merging duplicate findings does to it. */
module Gate {
  import opened Prelude
  import opened Identity
  import opened Ordering
  import opened Paths
  import opened EvidenceText
  import opened Findings
  import opened FindingsDedup

  datatype StageStatus = Completed | Failed | NotStarted

  datatype DimensionOutcome = DimensionOutcome(dimensionId: string, status: StageStatus, detail: Option<string>)

  datatype ReviewPolicy = ReviewPolicy(
    requiredDimensions: seq<string>,
    blockingSeverities: seq<Severity>,
    minimumBand: EvidenceBand)

  /** Insufficient evidence never blocks, whatever the policy says. */
  predicate Blocks(f: Finding, policy: ReviewPolicy) {
    && !f.band.Insufficient?
    && f.severity in policy.blockingSeverities
    && f.band.Rank() >= policy.minimumBand.Rank()
  }

  predicate EachOnce(outcomes: seq<DimensionOutcome>) {
    forall i, j :: 0 <= i < j < |outcomes| ==> outcomes[i].dimensionId != outcomes[j].dimensionId
  }

  predicate Finished(outcomes: seq<DimensionOutcome>, dimensionId: string) {
    exists i :: 0 <= i < |outcomes| && outcomes[i].dimensionId == dimensionId && outcomes[i].status.Completed?
  }

  /** Every recorded dimension is recorded once, and every required one was completed. */
  predicate DimensionsComplete(policy: ReviewPolicy, outcomes: seq<DimensionOutcome>) {
    && policy.requiredDimensions != []
    && EachOnce(outcomes)
    && forall d :: d in policy.requiredDimensions ==> Finished(outcomes, d)
  }

  function FindingsGate(policy: ReviewPolicy, findings: seq<Finding>): GateState {
    if exists f :: f in findings && Blocks(f, policy) && !f.bypassApplied then Blocked
    else if exists f :: f in findings && Blocks(f, policy) then PassedWithBypass
    else Passed
  }

  function EvaluateGate(policy: ReviewPolicy, outcomes: seq<DimensionOutcome>, coverageComplete: bool,
                        findings: seq<Finding>): GateState
  {
    if !DimensionsComplete(policy, outcomes) || !coverageComplete then Error
    else FindingsGate(policy, findings)
  }

  // ---- the evaluator as it runs ----------------------------------------------------------------

  /** The outcomes of one dimension, in order. */
  function RecordedFor(outcomes: seq<DimensionOutcome>, d: string): seq<DimensionOutcome> {
    if |outcomes| == 0 then []
    else
      RecordedFor(outcomes[..|outcomes| - 1], d) +
      if outcomes[|outcomes| - 1].dimensionId == d then [outcomes[|outcomes| - 1]] else []
  }

  lemma {:induction false} RecordedMembers(outcomes: seq<DimensionOutcome>, d: string)
    ensures forall o :: o in RecordedFor(outcomes, d) <==> o in outcomes && o.dimensionId == d
  {
    if |outcomes| > 0 {
      RecordedMembers(outcomes[..|outcomes| - 1], d);
      assert outcomes == outcomes[..|outcomes| - 1] + [outcomes[|outcomes| - 1]];
    }
  }

  lemma {:induction false} RecordedOnce(outcomes: seq<DimensionOutcome>, d: string)
    requires EachOnce(outcomes)
    ensures |RecordedFor(outcomes, d)| <= 1
  {
    if |outcomes| > 0 {
      var front := outcomes[..|outcomes| - 1];
      RecordedOnce(front, d);
      RecordedMembers(front, d);
      if |RecordedFor(front, d)| > 0 {
        assert RecordedFor(front, d)[0] in front;
      }
    }
  }

  lemma {:induction false} RecordedTwice(outcomes: seq<DimensionOutcome>, i: nat, j: nat)
    requires i < j < |outcomes| && outcomes[i].dimensionId == outcomes[j].dimensionId
    ensures |RecordedFor(outcomes, outcomes[i].dimensionId)| > 1
  {
    var front := outcomes[..|outcomes| - 1];
    if j < |outcomes| - 1 {
      RecordedTwice(front, i, j);
    } else {
      RecordedMembers(front, outcomes[i].dimensionId);
      assert front[i] in RecordedFor(front, outcomes[i].dimensionId);
    }
  }

  /** The dictionary holds, per dimension, its first n outcomes. */
  ghost predicate Collected(outcomes: seq<DimensionOutcome>, byDimension: map<string, seq<DimensionOutcome>>, n: nat)
    requires n <= |outcomes|
  {
    && (forall d :: d in byDimension ==> byDimension[d] == RecordedFor(outcomes[..n], d) && |byDimension[d]| > 0)
    && (forall d :: d !in byDimension ==> RecordedFor(outcomes[..n], d) == [])
  }

  method CollectOutcomes(outcomes: seq<DimensionOutcome>) returns (byDimension: map<string, seq<DimensionOutcome>>)
    ensures Collected(outcomes, byDimension, |outcomes|)
  {
    byDimension := map[];
    for i := 0 to |outcomes|
      invariant Collected(outcomes, byDimension, i)
    {
      var outcome := outcomes[i];
      var before := if outcome.dimensionId in byDimension then byDimension[outcome.dimensionId] else [];
      byDimension := byDimension[outcome.dimensionId := before + [outcome]];
      assert outcomes[..i + 1][..i] == outcomes[..i];
    }
  }

  lemma CollectedDecides(outcomes: seq<DimensionOutcome>, byDimension: map<string, seq<DimensionOutcome>>)
    requires Collected(outcomes, byDimension, |outcomes|)
    ensures (forall d :: d in byDimension ==> |byDimension[d]| == 1) <==> EachOnce(outcomes)
    ensures EachOnce(outcomes) ==>
              forall d :: Finished(outcomes, d) <==>
                d in byDimension && |byDimension[d]| > 0 && byDimension[d][0].status.Completed?
  {
    assert outcomes[..|outcomes|] == outcomes;
    if EachOnce(outcomes) {
      forall d
        ensures d in byDimension ==> |byDimension[d]| == 1
        ensures Finished(outcomes, d) <==>
                d in byDimension && |byDimension[d]| > 0 && byDimension[d][0].status.Completed?
      {
        RecordedOnce(outcomes, d);
        RecordedMembers(outcomes, d);
      }
    } else {
      var i, j :| 0 <= i < j < |outcomes| && outcomes[i].dimensionId == outcomes[j].dimensionId;
      RecordedTwice(outcomes, i, j);
      assert outcomes[i].dimensionId in byDimension;
    }
  }

  method RunEvaluator(policy: ReviewPolicy, outcomes: seq<DimensionOutcome>, coverageComplete: bool,
                      findings: seq<Finding>) returns (gate: GateState)
    ensures gate == EvaluateGate(policy, outcomes, coverageComplete, findings)
  {
    if policy.requiredDimensions == [] { return Error; }
    var byDimension := CollectOutcomes(outcomes);
    CollectedDecides(outcomes, byDimension);
    if exists d :: d in byDimension && |byDimension[d]| != 1 { return Error; }
    for i := 0 to |policy.requiredDimensions|
      invariant forall k :: 0 <= k < i ==> Finished(outcomes, policy.requiredDimensions[k])
    {
      var d := policy.requiredDimensions[i];
      if d !in byDimension || !byDimension[d][0].status.Completed? { return Error; }
    }
    if !coverageComplete { return Error; }
    var blocking := [];
    for i := 0 to |findings|
      invariant forall f :: f in blocking <==> f in findings[..i] && Blocks(f, policy)
    {
      assert findings[..i + 1] == findings[..i] + [findings[i]];
      if Blocks(findings[i], policy) { blocking := blocking + [findings[i]]; }
    }
    assert findings[..|findings|] == findings;
    if exists f :: f in blocking && !f.bypassApplied { return Blocked; }
    if blocking != [] {
      assert blocking[0] in blocking;
      return PassedWithBypass;
    }
    gate := Passed;
  }

  /** The policy acts on the finding: its severity blocks, and its evidence is what the policy asks for, or more. */
  predicate Enforced(f: Finding, policy: ReviewPolicy) {
    && f.severity in policy.blockingSeverities
    && match policy.minimumBand
       case Verified => f.band.Verified?
       case _ => f.band.Supported? || f.band.Verified?
  }

  /** Everything was reviewed: no dimension reported twice, each required one completed, coverage complete. */
  ghost predicate FullyReviewed(policy: ReviewPolicy, outcomes: seq<DimensionOutcome>, coverageComplete: bool) {
    && coverageComplete
    && policy.requiredDimensions != []
    && (forall i, j :: 0 <= i < |outcomes| && 0 <= j < |outcomes| && i != j ==>
          outcomes[i].dimensionId != outcomes[j].dimensionId)
    && (forall d :: d in policy.requiredDimensions ==>
          exists o :: o in outcomes && o.dimensionId == d && o.status == StageStatus.Completed)
  }

  lemma ReviewedMeansComplete(policy: ReviewPolicy, outcomes: seq<DimensionOutcome>, coverageComplete: bool)
    requires FullyReviewed(policy, outcomes, coverageComplete)
    ensures DimensionsComplete(policy, outcomes)
  {
    forall d | d in policy.requiredDimensions ensures Finished(outcomes, d) {
      var o :| o in outcomes && o.dimensionId == d && o.status == StageStatus.Completed;
      var i :| 0 <= i < |outcomes| && outcomes[i] == o;
    }
  }

  lemma CompleteMeansReviewed(policy: ReviewPolicy, outcomes: seq<DimensionOutcome>)
    requires DimensionsComplete(policy, outcomes)
    ensures FullyReviewed(policy, outcomes, true)
  {
    forall d | d in policy.requiredDimensions
      ensures exists o :: o in outcomes && o.dimensionId == d && o.status == StageStatus.Completed
    {
      var i :| 0 <= i < |outcomes| && outcomes[i].dimensionId == d && outcomes[i].status.Completed?;
      assert outcomes[i] in outcomes;
    }
    forall i, j | 0 <= i < |outcomes| && 0 <= j < |outcomes| && i != j
      ensures outcomes[i].dimensionId != outcomes[j].dimensionId
    {
      if i < j { assert outcomes[i].dimensionId != outcomes[j].dimensionId; }
      else { assert outcomes[j].dimensionId != outcomes[i].dimensionId; }
    }
  }

  /** When each of the four gates is reached. */
  lemma GateExactly(policy: ReviewPolicy, outcomes: seq<DimensionOutcome>, coverageComplete: bool,
                    findings: seq<Finding>)
    ensures EvaluateGate(policy, outcomes, coverageComplete, findings) ==
            if !FullyReviewed(policy, outcomes, coverageComplete) then Error
            else if exists i :: 0 <= i < |findings| && Enforced(findings[i], policy) && !findings[i].bypassApplied
            then Blocked
            else if exists i :: 0 <= i < |findings| && Enforced(findings[i], policy) then PassedWithBypass
            else Passed
  {
    forall f ensures Enforced(f, policy) <==> Blocks(f, policy) {}
    if DimensionsComplete(policy, outcomes) { CompleteMeansReviewed(policy, outcomes); }
    if FullyReviewed(policy, outcomes, coverageComplete) {
      ReviewedMeansComplete(policy, outcomes, coverageComplete);
    }
    forall i | 0 <= i < |findings| ensures findings[i] in findings {}
  }

  // ---- merging and the gate ------------------------------------------------------------------------

  /** Whatever is more severe than a blocking severity blocks too. */
  ghost predicate UpwardClosed(policy: ReviewPolicy) {
    forall low: Severity, high: Severity :: low in policy.blockingSeverities && low.Rank() <= high.Rank() ==>
      high in policy.blockingSeverities
  }

  /** The condition under which merging cannot hide a blocking finding. */
  ghost predicate MergeSafe(policy: ReviewPolicy) {
    UpwardClosed(policy) || policy.minimumBand.Verified?
  }

  lemma VerifyKeeps(c: Context, f: Finding)
    ensures var v := c.Verify(f);
      && v.severity == f.severity
      && v.bypassApplied == f.bypassApplied
      && v.fingerprint == CanonicalFingerprint(c.hash, f)
      && !v.band.Verified?
  {
  }

  /** Merging keeps a Blocked gate Blocked when the policy is merge-safe. */
  lemma MergingKeepsBlocked(c: Context, policy: ReviewPolicy, outcomes: seq<DimensionOutcome>, coverageComplete: bool,
                            fs: seq<Finding>)
    requires MergeSafe(policy)
    requires EvaluateGate(policy, outcomes, coverageComplete, VerifyAll(c, fs)) == Blocked
    ensures EvaluateGate(policy, outcomes, coverageComplete, VerifyAndDeduplicate(c, fs)) == Blocked
  {
    hide VerifyFinding, VerifyAndDeduplicate, VerifyAll;
    var vs := VerifyAll(c, fs);
    VerifyAllMembers(c, fs);
    var v :| v in vs && Blocks(v, policy) && !v.bypassApplied;
    var f :| f in fs && v == c.Verify(f);
    VerifyKeeps(c, f);
    NothingLost(c, fs, f);
    var out :| out in VerifyAndDeduplicate(c, fs) && Represents(c, out, f);
    assert Blocks(out, policy) && !out.bypassApplied;
  }

  // The witnesses below use one file "a" holding the line "x".

  const OneLine := Worktree("tree", (path: string) => Some("x"))

  function Claim(quotedText: string, severity: Severity, bypassed: bool): Finding {
    Finding("", severity, Supported, "", "", [Span("a", 1, 1, quotedText, "", ReviewWorktree, None, None)], None,
      bypassed, None)
  }

  lemma ClaimKey(quotedText: string)
    ensures NormalizePath("a") == Some("a")
    ensures LeastKey([Span("a", 1, 1, quotedText, "", ReviewWorktree, None, None)]) == Some(SpanKey("a", 1, 1))
  {
    assert ForwardSlashes("a") == "a";
    SplitPlain("a");
  }

  lemma ClaimGrounded(c: Context, quotedText: string, severity: Severity, bypassed: bool)
    requires c.worktree == Some(OneLine) && c.records == []
    ensures var v := c.Verify(Claim(quotedText, severity, bypassed));
      && v.severity == severity
      && v.bypassApplied == bypassed
      && v.fingerprint == c.hash("a", 1, 1, "", "")
      && v.band == if QuoteMatches("x", 1, 1, quotedText) then Supported else Insufficient
  {
    var f := Claim(quotedText, severity, bypassed);
    var span := f.spans[0];
    ClaimKey(quotedText);
    if QuoteMatches("x", 1, 1, quotedText) {
      var r := EvidenceRecord(ReviewWorktree, "tree", "a", None, "x");
      assert Grounds(r, span, c.worktree, c.records);
    } else {
      forall r ensures !Grounds(r, span, c.worktree, c.records) {}
    }
    SupportedMeansGrounded(c.hash, c.worktree, c.records, f);
  }

  lemma QuoteOfOneLine()
    ensures QuoteMatches("x", 1, 1, "x")
    ensures !QuoteMatches("x", 1, 1, "yy")
  {
    assert Breakless("x");
    LineRangeOfLines(["x"], false, 1, 1);
    assert JoinLines(["x"]) + "" == "x";
    assert ["x"][0..1] == ["x"];
    assert OccursAt("x", "x", 0);
    assert NormalizeLineEndings("yy") == "yy";
    forall i ensures !OccursAt("x", "yy", i) {}
  }

  /** Findings that share one fingerprint come out as one. */
  lemma MergedIntoOne(c: Context, fs: seq<Finding>, shared: string)
    requires |fs| > 0 && forall f :: f in fs ==> CanonicalFingerprint(c.hash, f) == shared
    ensures |VerifyAndDeduplicate(c, fs)| == 1
    ensures VerifyAndDeduplicate(c, fs)[0].fingerprint == shared
  {
    hide VerifyFinding, VerifyAndDeduplicate, VerifyAll, CanonicalFingerprint;
    FingerprintsExact(c, fs);
    var produced := FingerprintsOf(VerifyAndDeduplicate(c, fs));
    assert fs[0] in fs;
    AscendingUnique(produced, [shared]);
    assert VerifyAndDeduplicate(c, fs)[0].fingerprint == produced[0];
  }

  /** Two findings of one place, as they come out of verification and out of the merge. */
  lemma TwoClaims(c: Context, fs: seq<Finding>, quotedText: string, low: Severity, high: Severity, bypassed: bool)
    requires c.worktree == Some(OneLine) && c.records == []
    requires fs == [Claim("x", low, bypassed), Claim(quotedText, high, false)] && low.Rank() <= high.Rank()
    ensures forall v :: v in VerifyAll(c, fs) <==> v == c.Verify(fs[0]) || v == c.Verify(fs[1])
    ensures var out := VerifyAndDeduplicate(c, fs);
      |out| == 1 && out[0].severity == high && out[0].band == Supported && !out[0].bypassApplied
  {
    hide VerifyFinding, VerifyAndDeduplicate, VerifyAll, QuoteMatches, CanonicalFingerprint, Merge;
    VerifyAllMembers(c, fs);
    assert forall f :: f in fs <==> f == fs[0] || f == fs[1];
    QuoteOfOneLine();
    ClaimGrounded(c, "x", low, bypassed);
    ClaimGrounded(c, quotedText, high, false);
    VerifyKeeps(c, fs[0]);
    VerifyKeeps(c, fs[1]);
    MergedIntoOne(c, fs, c.hash("a", 1, 1, "", ""));
    var group := OutputAt(c, fs, 0);
    MergedPair(c, group, c.Verify(fs[0]), c.Verify(fs[1]));
  }

  lemma MergedPair(c: Context, group: seq<Finding>, first: Finding, second: Finding)
    requires first.severity.Rank() <= second.severity.Rank() && first.band == Supported && !second.band.Verified?
    requires !second.bypassApplied
    requires forall v :: v in group <==> v == first || v == second
    ensures |group| > 0
    ensures var m := Merge(c, group);
      m.severity == second.severity && m.band == Supported && !m.bypassApplied
  {
    assert first in group && second in group;
    assert StrongestSeverity(group).Rank() == second.severity.Rank();
  }

  /**
   * Without merge-safety the merge can turn Blocked into Passed: a blocking finding disappears
   * behind a more severe duplicate whose severity does not block.
   */
  lemma MergingCanUnblock(hash: Hash, dump: Finding -> string, policy: ReviewPolicy, outcomes: seq<DimensionOutcome>)
    returns (c: Context, fs: seq<Finding>)
    requires !MergeSafe(policy)
    requires DimensionsComplete(policy, outcomes)
    ensures c.hash == hash && c.dump == dump
    ensures EvaluateGate(policy, outcomes, true, VerifyAll(c, fs)) == Blocked
    ensures EvaluateGate(policy, outcomes, true, VerifyAndDeduplicate(c, fs)) == Passed
  {
    hide VerifyFinding, VerifyAndDeduplicate, VerifyAll, QuoteMatches, CanonicalFingerprint;
    var low: Severity, high: Severity :| low in policy.blockingSeverities && low.Rank() <= high.Rank() &&
      high !in policy.blockingSeverities;
    c := Context(hash, dump, Some(OneLine), []);
    fs := [Claim("x", low, false), Claim("x", high, false)];
    QuoteOfOneLine();
    ClaimGrounded(c, "x", low, false);
    TwoClaims(c, fs, "x", low, high, false);
    assert Blocks(c.Verify(fs[0]), policy);
  }

  ghost predicate NeverUnblocks(hash: Hash, dump: Finding -> string, policy: ReviewPolicy,
                                outcomes: seq<DimensionOutcome>)
  {
    forall c: Context, fs {:trigger VerifyAll(c, fs)} :: c.hash == hash && c.dump == dump ==>
      (EvaluateGate(policy, outcomes, true, VerifyAll(c, fs)) == Blocked ==>
        EvaluateGate(policy, outcomes, true, VerifyAndDeduplicate(c, fs)) == Blocked)
  }

  /** Merging never weakens the gate exactly when the policy is merge-safe. */
  lemma MergeSafeExactly(hash: Hash, dump: Finding -> string, policy: ReviewPolicy, outcomes: seq<DimensionOutcome>)
    requires DimensionsComplete(policy, outcomes)
    ensures NeverUnblocks(hash, dump, policy, outcomes) <==> MergeSafe(policy)
  {
    if MergeSafe(policy) {
      forall c: Context, fs | c.hash == hash && c.dump == dump &&
        EvaluateGate(policy, outcomes, true, VerifyAll(c, fs)) == Blocked
        ensures EvaluateGate(policy, outcomes, true, VerifyAndDeduplicate(c, fs)) == Blocked
      {
        MergingKeepsBlocked(c, policy, outcomes, true, fs);
      }
    } else {
      var c, fs := MergingCanUnblock(hash, dump, policy, outcomes);
      assert EvaluateGate(policy, outcomes, true, VerifyAndDeduplicate(c, fs)) != Blocked;
    }
  }

  // ---- merging the other way: a gate that becomes stricter ------------------------------------------

  /** A merged finding takes its evidence from one verified finding and its severity from another. */
  lemma MergedFrom(c: Context, fs: seq<Finding>, out: Finding) returns (strong: Finding, severe: Finding)
    requires out in VerifyAndDeduplicate(c, fs)
    ensures strong in VerifyAll(c, fs) && severe in VerifyAll(c, fs)
    ensures strong.band == out.band && severe.severity == out.severity
    ensures strong.severity.Rank() <= out.severity.Rank()
    ensures !out.band.Verified?
  {
    hide VerifyFinding, VerifyAndDeduplicate, VerifyAll, Representative;
    var i :| 0 <= i < |VerifyAndDeduplicate(c, fs)| && VerifyAndDeduplicate(c, fs)[i] == out;
    var group := OutputAt(c, fs, i);
    strong :| strong in group && strong.band == out.band;
    severe :| severe in group && severe.severity == out.severity;
    var f :| f in fs && strong == c.Verify(f);
    VerifyKeeps(c, f);
  }

  /** Nothing this policy sees can block: no severity blocks, or only evidence no finding ever has. */
  predicate BlocksNothing(policy: ReviewPolicy) {
    policy.minimumBand.Verified? || policy.blockingSeverities == []
  }

  /**
   * As soon as any severity blocks, the merge can block what did not block apart: the finding with
   * the evidence is bypassed, and its duplicate without evidence is not.
   */
  lemma MergingCanBlock(hash: Hash, dump: Finding -> string, policy: ReviewPolicy, outcomes: seq<DimensionOutcome>)
    returns (c: Context, fs: seq<Finding>)
    requires DimensionsComplete(policy, outcomes)
    requires !BlocksNothing(policy)
    ensures c.hash == hash && c.dump == dump
    ensures EvaluateGate(policy, outcomes, true, VerifyAll(c, fs)) == PassedWithBypass
    ensures EvaluateGate(policy, outcomes, true, VerifyAndDeduplicate(c, fs)) == Blocked
  {
    hide VerifyFinding, VerifyAndDeduplicate, VerifyAll, QuoteMatches, CanonicalFingerprint;
    var severity := policy.blockingSeverities[0];
    c := Context(hash, dump, Some(OneLine), []);
    fs := [Claim("x", severity, true), Claim("yy", severity, false)];
    QuoteOfOneLine();
    ClaimGrounded(c, "x", severity, true);
    ClaimGrounded(c, "yy", severity, false);
    TwoClaims(c, fs, "yy", severity, severity, true);
    assert Blocks(c.Verify(fs[0]), policy);
    assert VerifyAndDeduplicate(c, fs)[0] in VerifyAndDeduplicate(c, fs);
  }

  ghost predicate NeverNewlyBlocks(hash: Hash, dump: Finding -> string, policy: ReviewPolicy,
                                   outcomes: seq<DimensionOutcome>)
  {
    forall c: Context, fs {:trigger VerifyAll(c, fs)} :: c.hash == hash && c.dump == dump ==>
      (EvaluateGate(policy, outcomes, true, VerifyAndDeduplicate(c, fs)) == Blocked ==>
        EvaluateGate(policy, outcomes, true, VerifyAll(c, fs)) == Blocked)
  }

  /** Merging never blocks anew exactly when the policy blocks nothing at all. */
  lemma NeverNewlyBlocksExactly(hash: Hash, dump: Finding -> string, policy: ReviewPolicy,
                                outcomes: seq<DimensionOutcome>)
    requires DimensionsComplete(policy, outcomes)
    ensures NeverNewlyBlocks(hash, dump, policy, outcomes) <==> BlocksNothing(policy)
  {
    hide VerifyFinding, VerifyAndDeduplicate, VerifyAll;
    if BlocksNothing(policy) {
      forall c: Context, fs | c.hash == hash && c.dump == dump
        ensures EvaluateGate(policy, outcomes, true, VerifyAndDeduplicate(c, fs)) == Passed
      {
        forall out | out in VerifyAndDeduplicate(c, fs) ensures !Blocks(out, policy) {
          var _, _ := MergedFrom(c, fs, out);
        }
      }
    } else {
      var c, fs := MergingCanBlock(hash, dump, policy, outcomes);
      assert EvaluateGate(policy, outcomes, true, VerifyAll(c, fs)) != Blocked;
    }
  }

  /** Whatever is less severe than a blocking severity blocks too. */
  ghost predicate DownwardClosed(policy: ReviewPolicy) {
    forall low: Severity, high: Severity :: high in policy.blockingSeverities && low.Rank() <= high.Rank() ==>
      low in policy.blockingSeverities
  }

  /** Otherwise the evidence of one duplicate and the severity another only claims block together. */
  lemma MergingCanSpoilPassed(hash: Hash, dump: Finding -> string, policy: ReviewPolicy,
                              outcomes: seq<DimensionOutcome>) returns (c: Context, fs: seq<Finding>)
    requires DimensionsComplete(policy, outcomes)
    requires !DownwardClosed(policy) && !policy.minimumBand.Verified?
    ensures c.hash == hash && c.dump == dump
    ensures EvaluateGate(policy, outcomes, true, VerifyAll(c, fs)) == Passed
    ensures EvaluateGate(policy, outcomes, true, VerifyAndDeduplicate(c, fs)) == Blocked
  {
    hide VerifyFinding, VerifyAndDeduplicate, VerifyAll, QuoteMatches, CanonicalFingerprint;
    var low: Severity, high: Severity :| high in policy.blockingSeverities && low.Rank() <= high.Rank() &&
      low !in policy.blockingSeverities;
    c := Context(hash, dump, Some(OneLine), []);
    fs := [Claim("x", low, false), Claim("yy", high, false)];
    QuoteOfOneLine();
    ClaimGrounded(c, "x", low, false);
    ClaimGrounded(c, "yy", high, false);
    TwoClaims(c, fs, "yy", low, high, false);
    assert VerifyAndDeduplicate(c, fs)[0] in VerifyAndDeduplicate(c, fs);
  }

  ghost predicate PassedStaysPassed(hash: Hash, dump: Finding -> string, policy: ReviewPolicy,
                                    outcomes: seq<DimensionOutcome>)
  {
    forall c: Context, fs {:trigger VerifyAll(c, fs)} :: c.hash == hash && c.dump == dump ==>
      (EvaluateGate(policy, outcomes, true, VerifyAll(c, fs)) == Passed ==>
        EvaluateGate(policy, outcomes, true, VerifyAndDeduplicate(c, fs)) == Passed)
  }

  /**
   * Merging keeps every Passed gate Passed exactly when the blocking severities are downward closed or only verified
   * evidence blocks.
   */
  lemma PassedStaysPassedExactly(hash: Hash, dump: Finding -> string, policy: ReviewPolicy,
                                 outcomes: seq<DimensionOutcome>)
    requires DimensionsComplete(policy, outcomes)
    ensures PassedStaysPassed(hash, dump, policy, outcomes) <==> DownwardClosed(policy) || policy.minimumBand.Verified?
  {
    hide VerifyFinding, VerifyAndDeduplicate, VerifyAll;
    if DownwardClosed(policy) || policy.minimumBand.Verified? {
      forall c: Context, fs | c.hash == hash && c.dump == dump &&
        EvaluateGate(policy, outcomes, true, VerifyAll(c, fs)) == Passed
        ensures EvaluateGate(policy, outcomes, true, VerifyAndDeduplicate(c, fs)) == Passed
      {
        forall out | out in VerifyAndDeduplicate(c, fs) ensures !Blocks(out, policy) {
          var strong, _ := MergedFrom(c, fs, out);
          assert !Blocks(strong, policy);
        }
      }
    } else {
      var c, fs := MergingCanSpoilPassed(hash, dump, policy, outcomes);
      assert EvaluateGate(policy, outcomes, true, VerifyAndDeduplicate(c, fs)) != Passed;
    }
  }
}
