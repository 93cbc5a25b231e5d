/** The store as the server runs it: dictionaries and counters updated in place under one lock. */
module StoreClass {
  import opened Prelude
  import opened Identity
  import opened Store
  import opened StoreInvariants
  import opened StoreSteps
  import opened StoreValid
  import opened Ordering
  import opened AuditPaging

  /** The claimable positions below k. */
  ghost predicate Gathered(intents: seq<Intent>, now: int, candidates: seq<nat>, k: nat)
    requires k <= |intents|
  {
    && (forall i {:trigger candidates[i]} :: 0 <= i < |candidates| ==>
         candidates[i] < k && Claimable(intents[candidates[i]], now))
    && (forall i {:trigger intents[i]} :: 0 <= i < k && Claimable(intents[i], now) ==> i in candidates)
  }

  /** Each recorded revision is that of a live intent below k. */
  ghost predicate Reached(intents: seq<Intent>, newest: map<AttemptId, nat>, k: nat)
    requires k <= |intents|
  {
    forall a :: a in newest ==>
      (exists i :: 0 <= i < k && intents[i].status.Live() && intents[i].attempt == a &&
        intents[i].revision == newest[a])
  }

  /** No live intent below k exceeds the revision recorded for its Attempt. */
  ghost predicate Topped(intents: seq<Intent>, newest: map<AttemptId, nat>, k: nat)
    requires k <= |intents|
  {
    forall i {:trigger intents[i]} :: 0 <= i < k && intents[i].status.Live() ==>
      intents[i].attempt in newest && intents[i].revision <= newest[intents[i].attempt]
  }

  lemma NewestLiveExact(intents: seq<Intent>, now: int, newest: map<AttemptId, nat>, i: nat)
    requires Reached(intents, newest, |intents|) && Topped(intents, newest, |intents|)
    requires i < |intents| && Claimable(intents[i], now)
    ensures intents[i].attempt in newest
    ensures intents[i].revision == newest[intents[i].attempt] <==> Deliverable(intents, now, i)
  {
  }

  /** The candidate at position i has been considered: when deliverable, the choice is no later. */
  ghost predicate Considered(intents: seq<Intent>, now: int, chosen: Option<nat>, i: nat) {
    i < |intents| && (Deliverable(intents, now, i) ==> chosen.Some? && chosen.value <= i)
  }

  class InMemoryAuthoritativeAttemptStore {
    const env: Env
    var changeRequests: map<Locator, ChangeRequest>
    var attempts: map<AttemptId, Attempt>
    var jobs: map<AttemptId, Job>
    var jobOrder: seq<AttemptId>
    var deliveryAttempts: map<(int, string), Lease>
    var auditEvents: seq<AuditEvent>
    var nextAuditEventId: nat
    var bypasses: map<BypassKey, Bypass>
    var bypassOrder: seq<BypassKey>
    var nextBypassId: nat
    var standingCheckIntents: seq<Intent>
    var nextCheckIntentId: nat

    /** The abstract state the operations are specified on. */
    ghost function View(): Store
      reads this
    {
      Store(changeRequests, attempts, jobs, jobOrder, deliveryAttempts, auditEvents, bypasses, bypassOrder,
        standingCheckIntents)
    }

    /** The id counters are one ahead of what was issued, and the audit events are numbered in order. */
    ghost predicate Counted()
      reads this
    {
      && nextAuditEventId == |auditEvents| + 1
      && nextBypassId == |bypassOrder| + 1
      && nextCheckIntentId == |standingCheckIntents| + 1
      && Numbered(auditEvents)
    }

    ghost predicate Valid()
      reads this
    {
      Counted() && View().Valid()
    }

    constructor (env: Env)
      ensures Valid() && View() == Empty && this.env == env
    {
      this.env := env;
      changeRequests, attempts, jobs, jobOrder := map[], map[], map[], [];
      deliveryAttempts := map[];
      auditEvents, nextAuditEventId := [], 1;
      bypasses, bypassOrder, nextBypassId := map[], [], 1;
      standingCheckIntents, nextCheckIntentId := [], 1;
    }

    method RecordAuditEvent(now: int, kind: string, l: Locator, a: Option<AttemptId>, actor: Actor, payload: Payload)
      returns (ok: bool)
      requires Counted()
      modifies this`auditEvents, this`nextAuditEventId
      ensures Counted()
      ensures ok <==> env.Accepts(payload)
      ensures View() == if ok then old(View()).Log(now, kind, l, a, actor, payload) else old(View())
    {
      ok := env.Accepts(payload);
      if ok {
        auditEvents := auditEvents + [AuditEvent(nextAuditEventId, kind, now, l, a, actor, payload)];
        nextAuditEventId := nextAuditEventId + 1;
      }
    }

    method InvalidateBypasses(now: int, l: Locator, reason: string) returns (ok: bool)
      requires Counted() && forall key <- bypassOrder :: key in bypasses
      modifies this`bypasses, this`auditEvents, this`nextAuditEventId
      ensures Counted()
      ensures var step := ExpireBypasses(env, old(View()), now, l, reason, 0);
        View() == step.store && ok == step.result.Ok?
    {
      var i := 0;
      while i < |bypassOrder|
        invariant i <= |bypassOrder|
        invariant Counted() && forall key <- bypassOrder :: key in bypasses
        invariant ExpireBypasses(env, View(), now, l, reason, i) == ExpireBypasses(env, old(View()), now, l, reason, 0)
      {
        var key := bypassOrder[i];
        var b := bypasses[key];
        if b.changeRequest == l && b.active {
          bypasses := bypasses[key := ExpireBypass(b, now, reason)];
          ok := RecordAuditEvent(now, "bypass_invalidated", l, Some(b.attempt), Actor(b.actorId, Some(b.actorLogin)),
            BypassExpired(b.fingerprint, reason));
          if !ok { return; }
        }
        i := i + 1;
      }
      ok := true;
    }

    method SupersedeStandingCheckIntents(now: int, a: AttemptId)
      requires Counted()
      modifies this`standingCheckIntents
      ensures Counted()
      ensures View() == old(View()).(intents := SupersedeIntents(old(standingCheckIntents), now, a))
    {
      var i := 0;
      while i < |standingCheckIntents|
        invariant i <= |standingCheckIntents| == |old(standingCheckIntents)|
        invariant forall k :: 0 <= k < i ==>
                    standingCheckIntents[k] == SupersedeIntent(old(standingCheckIntents)[k], now, a)
        invariant forall k :: i <= k < |standingCheckIntents| ==>
                    standingCheckIntents[k] == old(standingCheckIntents)[k]
      {
        var intent := standingCheckIntents[i];
        if intent.attempt == a && (intent.status.Queued? || intent.status.InProgress?) {
          standingCheckIntents := standingCheckIntents[i :=
            intent.(status := SyncStatus.Superseded, updatedAt := now)];
        }
        i := i + 1;
      }
      assert standingCheckIntents == SupersedeIntents(old(standingCheckIntents), now, a);
    }

    /** newId is the identifier drawn for the Attempt; it must not have been drawn before. */
    method StartAuthoritativeAttempt(now: int, newId: AttemptId, l: Locator, key: RequestKey,
                                     expected: Option<AttemptId>, delivery: Option<string>) returns (r: Result<Lease>)
      requires Valid() && newId !in attempts
      modifies this
      ensures Valid()
      ensures var step := Start(env, old(View()), now, newId, l, key, expected, delivery);
        View() == step.store && r == step.result
    {
      StartValid(env, View(), now, newId, l, key, expected, delivery);
      if delivery.Some? {
        if delivery.value == "" { return Raised(StateConflict(EmptyDelivery)); }
        if (l.installation, delivery.value) in deliveryAttempts {
          return Ok(deliveryAttempts[(l.installation, delivery.value)].(deliveryReplayed := true));
        }
      }
      var prior := if l in changeRequests then Some(changeRequests[l].authoritative) else None;
      if expected.Some? && prior != expected { return Raised(StateConflict(StaleExpectation)); }
      var ok := true;
      assert l in changeRequests ==> Designated(changeRequests, attempts, l);
      if prior.Some? { ok := RetirePrior(now, l, prior.value); }
      if !ok { return Raised(UnsafePayload); }
      var lease := DesignateAttempt(now, newId, l, key, prior, delivery);
      ok := RecordAuditEvent(now, "attempt_authoritative", l, Some(newId), NoActor, AuthorityGranted(prior, delivery));
      r := if ok then Ok(lease) else Raised(UnsafePayload);
    }

    method DesignateAttempt(now: int, newId: AttemptId, l: Locator, key: RequestKey, prior: Option<AttemptId>,
                            delivery: Option<string>) returns (lease: Lease)
      requires Counted()
      modifies this`changeRequests, this`attempts, this`jobs, this`jobOrder, this`deliveryAttempts
      ensures Counted()
      ensures lease == Lease(newId, l, key, prior, false, false)
      ensures View() == Designate(old(View()), now, newId, l, key, delivery, lease)
    {
      changeRequests := changeRequests[l := ChangeRequest(key, newId, None, None,
        if l in changeRequests then changeRequests[l].revision + 1 else 0)];
      attempts := attempts[newId := Attempt(l, key, AttemptStatus.Queued, None)];
      jobs, jobOrder := jobs[newId := Job(JobStatus.Queued, 0, now, None)], jobOrder + [newId];
      lease := Lease(newId, l, key, prior, false, false);
      if delivery.Some? {
        deliveryAttempts := deliveryAttempts[(l.installation, delivery.value) := lease];
      }
    }

    method RetirePrior(now: int, l: Locator, prior: AttemptId) returns (ok: bool)
      requires Valid() && prior in attempts
      modifies this`attempts, this`jobs, this`bypasses, this`auditEvents, this`nextAuditEventId,
               this`standingCheckIntents
      ensures Counted()
      ensures var step := Retire(env, old(View()), now, l, prior);
        View() == step.store && ok == step.result.Ok? && (!ok ==> step.Unsafe())
    {
      ExpireEffect(env, Demote(View(), prior), now, l, SupersededReason);
      attempts := attempts[prior := attempts[prior].(status := AttemptStatus.Superseded)];
      if jobs[prior].status.Queued? {
        jobs := jobs[prior := jobs[prior].(status := JobStatus.Superseded)];
      }
      ok := InvalidateBypasses(now, l, SupersededReason);
      if ok { SupersedeStandingCheckIntents(now, prior); }
    }

    method RecordReviewIdentity(a: AttemptId, identity: ReviewIdentity) returns (r: Result<()>)
      requires Valid()
      modifies this`attempts
      ensures Valid()
      ensures var step := RecordIdentity(old(View()), a, identity);
        View() == step.store && r == step.result
    {
      RecordIdentityValid(View(), a, identity);
      if a !in attempts { return Raised(StateConflict(UnknownAttempt)); }
      var attempt := attempts[a];
      if !Matches(identity, attempt.key) { return Raised(StateConflict(IdentityMismatch)); }
      if attempt.identity.Some? && attempt.identity.value != identity {
        return Raised(StateConflict(IdentityImmutable));
      }
      attempts := attempts[a := attempt.(identity := Some(identity))];
      r := Ok(());
    }

    method ClaimAttemptJob(now: int, a: AttemptId) returns (r: Result<Option<Lease>>)
      requires Valid()
      modifies this`attempts, this`jobs, this`auditEvents, this`nextAuditEventId
      ensures Valid()
      ensures var step := Claim(env, old(View()), now, a);
        View() == step.store && r == step.result
    {
      ClaimValid(env, View(), now, a);
      if a !in attempts || a !in jobs { return Ok(None); }
      assert Located(attempts, changeRequests, a);
      var recovered := false;
      if jobs[a].status.Running? {
        if !(now - jobs[a].updatedAt > env.leaseTicks) { return Ok(None); }
        PutBack(now, a);
        recovered := true;
      }
      if !jobs[a].status.Queued? { return Ok(None); }
      r := TakeJob(now, a, recovered);
    }

    method PutBack(now: int, a: AttemptId)
      requires Counted() && a in attempts && a in jobs
      modifies this`jobs, this`auditEvents, this`nextAuditEventId
      ensures Counted() && View() == Reclaim(old(View()), now, a)
    {
      var retries := jobs[a].retries + 1;
      jobs := jobs[a := jobs[a].(status := JobStatus.Queued, retries := retries)];
      var logged :=
        RecordAuditEvent(now, "job_lease_recovered", attempts[a].changeRequest, Some(a), NoActor, RetryCount(retries));
    }

    method TakeJob(now: int, a: AttemptId, recovered: bool) returns (r: Result<Option<Lease>>)
      requires Counted() && a in attempts && a in jobs && attempts[a].changeRequest in changeRequests
      modifies this`attempts, this`jobs
      ensures Counted()
      ensures var step := TakeQueued(old(View()), now, a, recovered);
        View() == step.store && r == step.result
    {
      var attempt := attempts[a];
      if changeRequests[attempt.changeRequest].authoritative != a {
        jobs := jobs[a := jobs[a].(status := JobStatus.Superseded, updatedAt := now)];
        attempts := attempts[a := attempt.(status := AttemptStatus.Superseded)];
        return Ok(None);
      }
      jobs := jobs[a := jobs[a].(status := JobStatus.Running, updatedAt := now)];
      attempts := attempts[a := attempt.(status := AttemptStatus.Running)];
      r := Ok(Some(Lease(a, attempt.changeRequest, attempt.key, None, false, recovered)));
    }

    method MarkJobRetryable(now: int, a: AttemptId, error: string) returns (r: Result<()>)
      requires Valid()
      modifies this`jobs, this`auditEvents, this`nextAuditEventId
      ensures Valid()
      ensures var step := MarkRetryable(env, old(View()), now, a, error);
        View() == step.store && r == step.result
    {
      MarkRetryableValid(env, View(), now, a, error);
      if a !in jobs || !jobs[a].status.Running? { return Ok(()); }
      var job := jobs[a];
      var detail := ScrubJobError(env, error);
      jobs := jobs[a :=
        job.(status := JobStatus.Retryable, retries := job.retries + 1, lastError := Some(detail), updatedAt := now)];
      var ok := RecordAuditEvent(now, "job_retryable", attempts[a].changeRequest, Some(a), NoActor,
        RetryError(job.retries + 1, detail));
      r := if ok then Ok(()) else Raised(UnsafePayload);
    }

    method RecoverInterruptedJobs(now: int, maxAttempts: int, leaseTicks: int) returns (r: Result<RecoveryReport>)
      requires Valid()
      modifies this`jobs, this`auditEvents, this`nextAuditEventId
      ensures Valid()
      ensures var step := Recover(env, old(View()), now, maxAttempts, leaseTicks, 0, NothingRecovered);
        View() == step.store && r == step.result
    {
      ghost var s := View();
      RecoverValid(env, s, now, maxAttempts, leaseTicks);
      var report := NothingRecovered;
      var i := 0;
      while i < |jobOrder|
        invariant i <= |jobOrder| && Counted()
        invariant forall a <- jobOrder :: a in jobs && a in attempts
        invariant Recover(env, View(), now, maxAttempts, leaseTicks, i, report) ==
                  Recover(env, s, now, maxAttempts, leaseTicks, 0, NothingRecovered)
      {
        ghost var one := RecoverJob(env, View(), now, maxAttempts, leaseTicks, jobOrder[i], report);
        RecoverJobKeys(env, View(), now, maxAttempts, leaseTicks, jobOrder[i], report);
        r := RecoverOne(now, maxAttempts, leaseTicks, jobOrder[i], report);
        assert View() == one.store && r == one.result;
        if r.Raised? { return; }
        report := r.value;
        i := i + 1;
      }
      r := Ok(report);
    }

    method RecoverOne(now: int, maxAttempts: int, leaseTicks: int, a: AttemptId, report: RecoveryReport)
      returns (r: Result<RecoveryReport>)
      requires Counted() && a in jobs && a in attempts
      modifies this`jobs, this`auditEvents, this`nextAuditEventId
      ensures Counted()
      ensures var step := RecoverJob(env, old(View()), now, maxAttempts, leaseTicks, a, report);
        View() == step.store && r == step.result
    {
      var job := jobs[a];
      var l := attempts[a].changeRequest;
      var ok := true;
      r := Ok(report);
      if job.status.Retryable? {
        if job.retries >= maxAttempts {
          jobs := jobs[a := job.(status := JobStatus.Failed, updatedAt := now)];
          r := Ok(report.(exhausted := report.exhausted + [a]));
          ok := RecordAuditEvent(now, "job_failed", l, Some(a), NoActor, RetriesExhausted(job.retries, job.lastError));
        } else {
          jobs := jobs[a := job.(status := JobStatus.Queued, updatedAt := now)];
          r := Ok(report.(requeued := report.requeued + [a]));
        }
      } else if job.status.Running? {
        if !(now - job.updatedAt > leaseTicks) { return; }
        var stale := job.(retries := job.retries + 1, updatedAt := now);
        if stale.retries >= maxAttempts {
          jobs := jobs[a := stale.(status := JobStatus.Failed)];
          r := Ok(report.(exhausted := report.exhausted + [a]));
          ok := RecordAuditEvent(now, "job_failed", l, Some(a), NoActor, LeaseExhausted(stale.retries));
        } else {
          jobs := jobs[a := stale.(status := JobStatus.Queued)];
          r := Ok(report.(leaseRecovered := report.leaseRecovered + [a]));
          ok := RecordAuditEvent(now, "job_lease_recovered", l, Some(a), NoActor, RetryCount(stale.retries));
        }
      }
      if !ok { r := Raised(UnsafePayload); }
    }

    method EndJob(now: int, a: AttemptId)
      requires a in jobs
      modifies this`jobs
      ensures View() == CompleteJob(old(View()), now, a)
    {
      var job := jobs[a];
      if job.status.Queued? || job.status.Running? || job.status.Retryable? {
        jobs := jobs[a := job.(status := JobStatus.Completed, updatedAt := now)];
      }
    }

    method PublishIfAuthoritative(now: int, a: AttemptId, key: RequestKey, identity: Option<ReviewIdentity>,
                                  gate: GateState)
      returns (r: Result<PublishResult>)
      requires Valid()
      modifies this`changeRequests, this`attempts, this`jobs, this`auditEvents, this`nextAuditEventId
      ensures Valid()
      ensures var step := Publish(env, old(View()), now, a, key, identity, gate);
        View() == step.store && r == step.result
    {
      PublishValid(env, View(), now, a, key, identity, gate);
      if a !in attempts { return Raised(StateConflict(UnknownAttempt)); }
      assert Located(attempts, changeRequests, a);
      var attempt := attempts[a];
      var l := attempt.changeRequest;
      var current := changeRequests[l];
      var identityMatches := identity == attempt.identity;
      if identity.Some? { identityMatches := identityMatches && Matches(identity.value, key); }
      var inputsMatch := current.authoritative == a && current.key == key && attempt.key == key && identityMatches;
      assert inputsMatch == PublicationInputsMatch(View(), a, key, identity);
      if attempt.status.Published? {
        if !inputsMatch || current.standing != Some(a) { return Raised(StateConflict(NoLongerStanding)); }
        if current.gate.None? { return Raised(StateConflict(MissingGate)); }
        if current.gate.value != gate { return Raised(StateConflict(GateFixed)); }
        return Ok(PublishResult(DecisionPublished, current.gate));
      }
      if !attempt.status.Running? {
        if inputsMatch { return Raised(StateConflict(NotRunning)); }
        if attempt.status.AuditOnly? { return Ok(PublishResult(DecisionSuperseded, None)); }
      }
      if !inputsMatch { r := KeepOutcomeForAudit(now, a); } else { r := InstallDecision(now, a, gate); }
    }

    method KeepOutcomeForAudit(now: int, a: AttemptId) returns (r: Result<PublishResult>)
      requires Counted() && a in attempts && a in jobs
      modifies this`attempts, this`jobs, this`auditEvents, this`nextAuditEventId
      ensures Counted()
      ensures var step := KeepForAudit(env, old(View()), now, a);
        View() == step.store && r == step.result
    {
      var attempt := attempts[a];
      attempts := attempts[a := attempt.(status := AttemptStatus.AuditOnly)];
      EndJob(now, a);
      var logged :=
        RecordAuditEvent(now, "attempt_publish_superseded", attempt.changeRequest, Some(a), NoActor, PublishSuperseded);
      r := Ok(PublishResult(DecisionSuperseded, None));
    }

    method InstallDecision(now: int, a: AttemptId, gate: GateState) returns (r: Result<PublishResult>)
      requires Counted() && a in attempts && a in jobs && attempts[a].changeRequest in changeRequests
      modifies this`changeRequests, this`attempts, this`jobs, this`auditEvents, this`nextAuditEventId
      ensures Counted()
      ensures var step := Decide(env, old(View()), now, a, gate);
        View() == step.store && r == step.result
    {
      var attempt := attempts[a];
      var l := attempt.changeRequest;
      attempts := attempts[a := attempt.(status := AttemptStatus.Published)];
      EndJob(now, a);
      changeRequests := changeRequests[l := changeRequests[l].(standing := Some(a), gate := Some(gate),
        revision := changeRequests[l].revision + 1)];
      var logged := RecordAuditEvent(now, "standing_decision_published", l, Some(a), NoActor, GatePublished(gate));
      r := Ok(PublishResult(DecisionPublished, Some(gate)));
    }

    method FinalizeAttemptJob(now: int, a: AttemptId, status: JobStatus, reason: string) returns (r: Result<()>)
      requires Valid()
      modifies this`jobs, this`auditEvents, this`nextAuditEventId
      ensures Valid()
      ensures var step := Finalize(env, old(View()), now, a, status, reason);
        View() == step.store && r == step.result
    {
      FinalizeValid(env, View(), now, a, status, reason);
      if !status.Completed? && !status.Failed? { return Raised(StateConflict(NotTerminal)); }
      if a !in jobs || jobs[a].status.Completed? || jobs[a].status.Failed? || jobs[a].status.Superseded? {
        return Ok(());
      }
      var detail := ScrubJobError(env, reason);
      jobs := jobs[a := jobs[a].(status := status, lastError := Some(detail), updatedAt := now)];
      var ok := RecordAuditEvent(now, "job_finalized", attempts[a].changeRequest, Some(a), NoActor,
        Finalized(status, detail));
      r := if ok then Ok(()) else Raised(UnsafePayload);
    }

    /** Clear the standing decision and expire the bypasses that belonged to it. */
    method WithdrawDecision(now: int, l: Locator, reason: string) returns (ok: bool)
      requires Valid() && l in changeRequests
      modifies this`changeRequests, this`bypasses, this`auditEvents, this`nextAuditEventId
      ensures Counted()
      ensures var step := ExpireBypasses(env, ClearStanding(old(View()), l), now, l, reason, 0);
        View() == step.store && ok == step.result.Ok? && (!ok ==> step.result == Raised(UnsafePayload))
    {
      hide ExpireBypasses;
      ExpireEffect(env, ClearStanding(View(), l), now, l, reason);
      var current := changeRequests[l];
      changeRequests := changeRequests[l := current.(standing := None, gate := None, revision := current.revision + 1)];
      ok := InvalidateBypasses(now, l, reason);
    }

    method InvalidateStandingDecision(now: int, l: Locator, reason: string) returns (r: Result<()>)
      requires Valid()
      modifies this
      ensures Valid()
      ensures var step := Invalidate(env, old(View()), now, l, reason);
        View() == step.store && r == step.result
    {
      hide ExpireBypasses, SupersedeIntents;
      InvalidateValid(env, View(), now, l, reason);
      if l !in changeRequests { return Ok(()); }
      var priorStanding := changeRequests[l].standing;
      var ok := WithdrawDecision(now, l, reason);
      if !ok { return Raised(UnsafePayload); }
      if priorStanding.Some? { SupersedeStandingCheckIntents(now, priorStanding.value); }
      ok := RecordAuditEvent(now, "standing_decision_invalidated", l, priorStanding, NoActor,
        DecisionInvalidated(reason));
      r := if ok then Ok(()) else Raised(UnsafePayload);
    }

    method ActiveBypassFingerprints(a: AttemptId) returns (active: seq<string>)
      requires forall key <- bypassOrder :: key in bypasses
      ensures active == ActiveFingerprints(View(), a, |bypassOrder|)
    {
      active := [];
      for i := 0 to |bypassOrder|
        invariant active == ActiveFingerprints(View(), a, i)
      {
        var b := bypasses[bypassOrder[i]];
        if b.attempt == a && b.active { active := active + [b.fingerprint]; }
      }
    }

    method Remaining(blocking: seq<string>, active: seq<string>) returns (remaining: seq<string>)
      ensures remaining == Uncovered(blocking, active)
    {
      remaining := [];
      for i := 0 to |blocking|
        invariant remaining == Uncovered(blocking[..i], active)
      {
        assert blocking[..i + 1][..i] == blocking[..i];
        if blocking[i] !in active { remaining := remaining + [blocking[i]]; }
      }
      assert blocking[..|blocking|] == blocking;
    }

    method LatestCheckSyncStatus(a: AttemptId) returns (status: SyncStatus)
      ensures status == LatestSyncStatus(standingCheckIntents, a)
    {
      var latest: Option<nat> := None;
      for i := 0 to |standingCheckIntents|
        invariant latest == LatestIntent(standingCheckIntents, a, i)
      {
        if standingCheckIntents[i].attempt == a &&
           (latest.None? || standingCheckIntents[latest.value].revision < standingCheckIntents[i].revision) {
          latest := Some(i);
        }
      }
      status := if latest.None? then NotApplicable else standingCheckIntents[latest.value].status;
    }

    method ApplyFindingBypass(now: int, q: BypassRequest) returns (r: Result<BypassResult>)
      requires Valid()
      modifies this
      ensures Valid()
      ensures var step := ApplyBypass(env, old(View()), now, q);
        View() == step.store && r == step.result
    {
      ApplyBypassValid(env, View(), now, q);
      BypassCases(env, View(), now, q);
      if q.attempt !in attempts || attempts[q.attempt].changeRequest != q.changeRequest {
        return Raised(StateConflict(UnknownAttempt));
      }
      assert Located(attempts, changeRequests, q.attempt);
      var current := changeRequests[q.changeRequest];
      if current.authoritative != q.attempt || current.standing != Some(q.attempt) {
        return Raised(StateConflict(NotStandingAuthority));
      }
      if attempts[q.attempt].identity != Some(q.identity) { return Raised(StateConflict(IdentityChanged)); }
      var key := (q.attempt, q.fingerprint);
      if key in bypasses {
        r := Replay(q);
        return;
      }
      if current.gate != Some(Blocked) { return Raised(StateConflict(NotBlocked)); }
      r := Grant(now, q);
    }

    /** A first acceptance of the finding: store the record, log it, and settle the gate. */
    method Grant(now: int, q: BypassRequest) returns (r: Result<BypassResult>)
      requires Valid() && Grantable(View(), q)
      modifies this
      ensures Counted()
      ensures var s := old(View());
        if !env.Accepts(GrantPayload(q)) then View() == Granted(s, now, q) && r == Raised(UnsafePayload)
        else
          GrantedLog(s, now, q).Valid() &&
          var step := SettleGate(GrantedLog(s, now, q), now, q, GrantRecord(s, now, q));
          View() == step.store && r == step.result
    {
      ghost var s := View();
      GrantedValid(s, now, q);
      var key := (q.attempt, q.fingerprint);
      var record := Bypass(nextBypassId, q.changeRequest, q.attempt, q.fingerprint, q.actorId, q.actorLogin, q.reason,
        q.identity, q.policySha256, q.riskSnapshot, q.riskDigest, true, None, now, None);
      nextBypassId := nextBypassId + 1;
      bypasses, bypassOrder := bypasses[key := record], bypassOrder + [key];
      assert View() == Granted(s, now, q);
      var ok := RecordAuditEvent(now, "bypass_authorized", q.changeRequest, Some(q.attempt),
        Actor(q.actorId, Some(q.actorLogin)), GrantPayload(q));
      if !ok { return Raised(UnsafePayload); }
      assert View() == GrantedLog(s, now, q);
      r := SettleStandingGate(now, q, record);
    }

    method Replay(q: BypassRequest) returns (r: Result<BypassResult>)
      requires q.changeRequest in changeRequests && (q.attempt, q.fingerprint) in bypasses
      requires forall key <- bypassOrder :: key in bypasses
      ensures var b := bypasses[(q.attempt, q.fingerprint)];
        var current := changeRequests[q.changeRequest];
        var active := ActiveFingerprints(View(), q.attempt, |bypassOrder|);
        r == if b.active && b.actorId == q.actorId && b.actorLogin == q.actorLogin && b.reason == q.reason then
            Ok(BypassResult(b, current.gate, current.revision, active, |Uncovered(q.blocking, active)|,
              LatestSyncStatus(standingCheckIntents, q.attempt), false, true))
          else Raised(StateConflict(DifferentBypass))
    {
      var b := bypasses[(q.attempt, q.fingerprint)];
      if b.active && b.actorId == q.actorId && b.actorLogin == q.actorLogin && b.reason == q.reason {
        var active := ActiveBypassFingerprints(q.attempt);
        var remaining := Remaining(q.blocking, active);
        var status := LatestCheckSyncStatus(q.attempt);
        var current := changeRequests[q.changeRequest];
        return Ok(BypassResult(b, current.gate, current.revision, active, |remaining|, status, false, true));
      }
      r := Raised(StateConflict(DifferentBypass));
    }

    method TransitionGate(now: int, q: BypassRequest)
      requires Counted() && q.changeRequest in changeRequests
      modifies this`changeRequests, this`auditEvents, this`nextAuditEventId
      ensures Counted()
      ensures View() == MoveGate(old(View()), now, q, true)
    {
      var l := q.changeRequest;
      changeRequests := changeRequests[l := changeRequests[l].(gate := Some(PassedWithBypass))];
      var logged := RecordAuditEvent(now, "gate_transition", l, Some(q.attempt), Actor(q.actorId, Some(q.actorLogin)),
        GateTransition(Blocked, PassedWithBypass));
    }

    /** Bump the revision, supersede the Attempt's live intents and queue one for the new revision. */
    method EnqueueStandingCheckIntent(now: int, q: BypassRequest, gate: GateState, accepted: nat, remaining: nat)
      requires Counted() && q.changeRequest in changeRequests
      modifies this`changeRequests, this`auditEvents, this`nextAuditEventId, this`standingCheckIntents,
               this`nextCheckIntentId
      ensures Counted()
      ensures View() == Revise(old(View()), now, q, gate, accepted, remaining)
    {
      hide SupersedeIntents;
      var l := q.changeRequest;
      var revision := changeRequests[l].revision + 1;
      changeRequests := changeRequests[l := changeRequests[l].(revision := revision)];
      SupersedeStandingCheckIntents(now, q.attempt);
      var status := if q.checkRun.Some? then SyncStatus.Queued else NotApplicable;
      standingCheckIntents := standingCheckIntents +
        [Intent(q.attempt, revision, q.checkRun, status, 0, None, None, None, gate, accepted, remaining, now, now)];
      nextCheckIntentId := nextCheckIntentId + 1;
      var logged :=
        RecordAuditEvent(now, "check_sync_queued", l, Some(q.attempt), NoActor, SyncQueued(revision, status));
    }

    method SettleStandingGate(now: int, q: BypassRequest, record: Bypass) returns (r: Result<BypassResult>)
      requires Counted() && q.changeRequest in changeRequests && changeRequests[q.changeRequest].gate == Some(Blocked)
      requires forall key <- bypassOrder :: key in bypasses
      modifies this`changeRequests, this`auditEvents, this`nextAuditEventId, this`standingCheckIntents,
               this`nextCheckIntentId
      ensures Counted()
      ensures var step := SettleGate(old(View()), now, q, record);
        View() == step.store && r == step.result
    {
      var active := ActiveBypassFingerprints(q.attempt);
      var remaining := Remaining(q.blocking, active);
      if |remaining| == 0 { TransitionGate(now, q); }
      assert View() == MoveGate(old(View()), now, q, remaining == []);
      var current := changeRequests[q.changeRequest];
      EnqueueStandingCheckIntent(now, q, current.gate.value, |active|, |remaining|);
      r := Ok(BypassResult(record, current.gate, current.revision + 1, active, |remaining|, FirstSyncStatus(q.checkRun),
        |remaining| == 0, false));
    }

    method AppendAuditEvent(now: int, kind: string, l: Locator, a: Option<AttemptId>, actor: Actor, content: string)
      returns (r: Result<()>)
      requires Valid()
      modifies this`auditEvents, this`nextAuditEventId
      ensures Valid()
      ensures var step := Append(env, old(View()), now, kind, l, a, actor, content);
        View() == step.store && r == step.result
    {
      SyncValid(View(), Append(env, View(), now, kind, l, a, actor, content).store);
      var ok := RecordAuditEvent(now, kind, l, a, actor, Appended(content));
      r := if ok then Ok(()) else Raised(UnsafePayload);
    }

    method MatchingEvents(cursor: Option<int>, f: Filter) returns (matching: seq<AuditEvent>)
      ensures matching == Filtered(auditEvents, |auditEvents|, cursor, f)
    {
      matching := [];
      for i := 0 to |auditEvents|
        invariant matching == Filtered(auditEvents, i, cursor, f)
      {
        if Wanted(auditEvents[i], cursor, f) { matching := matching + [auditEvents[i]]; }
      }
    }

    /** One page of the audit trail: filter, sort newest first, cut, and name the next cursor. */
    method ListAuditEvents(cursor: Option<int>, limit: int, f: Filter) returns (r: PageResult)
      requires Valid()
      ensures r == ListPage(auditEvents, cursor, limit, f)
      ensures cursor.None? || cursor.value >= 1 ==>
        r.Listed? && Begins(r.page, auditEvents, Below(auditEvents, cursor), f, ClampPageSize(limit))
    {
      if cursor.Some? && cursor.value < 1 { return InvalidCursor; }
      PageExact(auditEvents, cursor, limit, f);
      var matching := MatchingEvents(cursor, f);
      matching := Sort(matching, NewestFirst);
      var pageSize := ClampPageSize(limit);
      if |matching| > pageSize {
        r := Listed(Page(matching[..pageSize], Some(matching[pageSize - 1].id)));
      } else {
        r := Listed(Page(matching, None));
      }
    }

    /** The claimable intents, and per Attempt the greatest revision any of its live intents carries. */
    method ScanIntents(now: int) returns (candidates: seq<nat>, newest: map<AttemptId, nat>)
      ensures Gathered(standingCheckIntents, now, candidates, |standingCheckIntents|)
      ensures Reached(standingCheckIntents, newest, |standingCheckIntents|)
      ensures Topped(standingCheckIntents, newest, |standingCheckIntents|)
    {
      candidates, newest := [], map[];
      for i := 0 to |standingCheckIntents|
        invariant Gathered(standingCheckIntents, now, candidates, i)
        invariant Reached(standingCheckIntents, newest, i)
      {
        var intent := standingCheckIntents[i];
        if Claimable(intent, now) {
          candidates := candidates + [i];
          newest := newest[intent.attempt := intent.revision];
        }
      }
      for i := 0 to |standingCheckIntents|
        invariant Reached(standingCheckIntents, newest, |standingCheckIntents|)
        invariant Topped(standingCheckIntents, newest, i)
      {
        var intent := standingCheckIntents[i];
        if intent.status.Live() {
          var seen := if intent.attempt in newest then newest[intent.attempt] else 0;
          newest := newest[intent.attempt := if intent.revision > seen then intent.revision else seen];
        }
      }
    }

    /** The claimable intent with the smallest id among those that state their Attempt's newest live revision. */
    method PickDeliverable(now: int) returns (chosen: Option<nat>)
      ensures chosen == FirstDeliverable(standingCheckIntents, now, 0)
    {
      var candidates, newest := ScanIntents(now);
      chosen := None;
      for i := 0 to |candidates|
        invariant chosen.Some? ==>
                    chosen.value < |standingCheckIntents| && Deliverable(standingCheckIntents, now, chosen.value)
        invariant forall k {:trigger candidates[k]} :: 0 <= k < i ==>
                    Considered(standingCheckIntents, now, chosen, candidates[k])
      {
        var k := candidates[i];
        var intent := standingCheckIntents[k];
        NewestLiveExact(standingCheckIntents, now, newest, k);
        if intent.revision == newest[intent.attempt] && (chosen.None? || k < chosen.value) {
          chosen := Some(k);
        }
      }
    }

    /** The position of the claimed intent; its id is one more. */
    method ClaimStandingCheckSync(now: int, leaseTicks: int) returns (r: Result<Option<nat>>)
      requires Valid()
      modifies this`standingCheckIntents
      ensures Valid()
      ensures var step := ClaimSync(old(View()), now, leaseTicks);
        View() == step.store && r == step.result
    {
      SyncValid(View(), ClaimSync(View(), now, leaseTicks).store);
      var chosen := PickDeliverable(now);
      if chosen.None? { return Ok(None); }
      standingCheckIntents := standingCheckIntents[chosen.value :=
        ClaimedIntent(standingCheckIntents[chosen.value], now, leaseTicks)];
      r := Ok(chosen);
    }

    method MarkStandingCheckSync(now: int, intentId: int, status: SyncStatus, lastError: Option<string>,
                                 nextRetryAt: Option<int>)
      requires Valid()
      modifies this`standingCheckIntents
      ensures Valid()
      ensures View() == MarkSync(old(View()), now, intentId, status, lastError, nextRetryAt).store
    {
      SyncValid(View(), MarkSync(View(), now, intentId, status, lastError, nextRetryAt).store);
      if 1 <= intentId <= |standingCheckIntents| {
        var intent := standingCheckIntents[intentId - 1];
        standingCheckIntents := standingCheckIntents[intentId - 1 := intent.(status := status, lastError := lastError,
          nextRetryAt := nextRetryAt, leaseExpiresAt := None, updatedAt := now)];
      }
    }
  }
}
