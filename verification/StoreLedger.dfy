/** Each operation that revises a change request logs exactly one revision event for it. */
module StoreLedger {
  import opened Prelude
  import opened Identity
  import opened Store
  import opened StoreInvariants
  import opened StoreSteps
  import opened StoreValid
  import opened StoreOutbox

  ghost predicate SameRevisions(s: Store, t: Store) {
    && t.changeRequests.Keys == s.changeRequests.Keys
    && forall l {:trigger t.changeRequests[l]} :: l in s.changeRequests ==>
         t.changeRequests[l].revision == s.changeRequests[l].revision
  }

  lemma LedgerKept(s: Store, t: Store)
    requires Ledger(s) && SameRevisions(s, t) && SameRevisionEvents(t.audit, s.audit)
    ensures Ledger(t)
  {
  }

  /** One more revision of l, and one more revision event for it. */
  ghost predicate Revises(s: Store, t: Store, l: Locator) {
    && l in t.changeRequests
    && t.changeRequests == s.changeRequests[l := t.changeRequests[l]]
    && t.changeRequests[l].revision == (if l in s.changeRequests then s.changeRequests[l].revision + 1 else 0)
    && forall m :: RevisionEvents(t.audit, m) == RevisionEvents(s.audit, m) + if m == l then 1 else 0
  }

  lemma LedgerRevised(s: Store, t: Store, l: Locator)
    requires Ledger(s) && Revises(s, t, l)
    ensures Ledger(t)
  {
  }

  lemma StartLedger(env: Env, s: Store, now: int, newId: AttemptId, l: Locator, key: RequestKey,
                    expected: Option<AttemptId>, delivery: Option<string>)
    requires s.Valid() && Ledger(s)
    ensures var step := Start(env, s, now, newId, l, key, expected, delivery);
      !step.Unsafe() ==> Ledger(step.store)
  {
    hide Start, Vacate, Ledger;
    var step := Start(env, s, now, newId, l, key, expected, delivery);
    StartCases(env, s, now, newId, l, key, expected, delivery);
    if !step.Unsafe() && step.store != s {
      VacateResult(env, s, now, l);
      VacatePlaces(env, s, now, l);
      LogCounts(AfterDesignation(env, s, now, newId, l, key, delivery), now, "attempt_authoritative", l, Some(newId),
        NoActor, AuthorityGranted(Prior(s, l), delivery));
      LedgerRevised(s, step.store, l);
    }
  }

  lemma LoggedKept(s: Store, t: Store, now: int, kind: string, l: Locator, a: Option<AttemptId>, actor: Actor,
                   payload: Payload)
    requires Ledger(s) && t.changeRequests == s.changeRequests && !RevisionKind(kind)
    requires t.audit == s.Log(now, kind, l, a, actor, payload).audit
    ensures Ledger(t)
  {
    LogCounts(s, now, kind, l, a, actor, payload);
    LedgerKept(s, t);
  }

  lemma QuietKept(s: Store, t: Store)
    requires Ledger(s) && t.changeRequests == s.changeRequests && t.audit == s.audit
    ensures Ledger(t)
  {
  }

  lemma ClaimLedger(env: Env, s: Store, now: int, a: AttemptId)
    requires s.Linked() && Ledger(s)
    ensures Ledger(Claim(env, s, now, a).store)
  {
    var t := Claim(env, s, now, a).store;
    if t.audit == s.audit { QuietKept(s, t); } else {
      LoggedKept(s, t, now, "job_lease_recovered", s.attempts[a].changeRequest, Some(a), NoActor,
        RetryCount(s.jobs[a].retries + 1));
    }
  }

  lemma MarkRetryableLedger(env: Env, s: Store, now: int, a: AttemptId, error: string)
    requires s.Linked() && Ledger(s)
    ensures Ledger(MarkRetryable(env, s, now, a, error).store)
  {
    var t := MarkRetryable(env, s, now, a, error).store;
    if t.audit == s.audit { QuietKept(s, t); } else {
      LoggedKept(s, t, now, "job_retryable", s.attempts[a].changeRequest, Some(a), NoActor,
        RetryError(s.jobs[a].retries + 1, ScrubJobError(env, error)));
    }
  }

  lemma FinalizeLedger(env: Env, s: Store, now: int, a: AttemptId, status: JobStatus, reason: string)
    requires s.Linked() && Ledger(s)
    ensures Ledger(Finalize(env, s, now, a, status, reason).store)
  {
    var t := Finalize(env, s, now, a, status, reason).store;
    if t.audit == s.audit { QuietKept(s, t); } else {
      LoggedKept(s, t, now, "job_finalized", s.attempts[a].changeRequest, Some(a), NoActor,
        Finalized(status, ScrubJobError(env, reason)));
    }
  }

  lemma RecoverJobLedger(env: Env, s: Store, now: int, maxAttempts: int, leaseTicks: int, a: AttemptId,
                         report: RecoveryReport)
    requires a in s.jobs && a in s.attempts && Ledger(s)
    ensures Ledger(RecoverJob(env, s, now, maxAttempts, leaseTicks, a, report).store)
  {
    var job := s.jobs[a];
    var l := s.attempts[a].changeRequest;
    var t := RecoverJob(env, s, now, maxAttempts, leaseTicks, a, report).store;
    if t.audit == s.audit { QuietKept(s, t); } else if job.status.Retryable? {
      LoggedKept(s, t, now, "job_failed", l, Some(a), NoActor, RetriesExhausted(job.retries, job.lastError));
    } else if job.retries + 1 >= maxAttempts {
      LoggedKept(s, t, now, "job_failed", l, Some(a), NoActor, LeaseExhausted(job.retries + 1));
    } else {
      LoggedKept(s, t, now, "job_lease_recovered", l, Some(a), NoActor, RetryCount(job.retries + 1));
    }
  }

  lemma {:induction false} RecoverLedger(env: Env, s: Store, now: int, maxAttempts: int, leaseTicks: int, k: nat,
                                         report: RecoveryReport)
    requires Ledger(s)
    requires forall a <- s.jobOrder :: a in s.jobs && a in s.attempts
    ensures Ledger(Recover(env, s, now, maxAttempts, leaseTicks, k, report).store)
    decreases |s.jobOrder| - k
  {
    if k < |s.jobOrder| {
      var a := s.jobOrder[k];
      var one := RecoverJob(env, s, now, maxAttempts, leaseTicks, a, report);
      RecoverJobLedger(env, s, now, maxAttempts, leaseTicks, a, report);
      RecoverJobKeys(env, s, now, maxAttempts, leaseTicks, a, report);
      if one.result.Ok? {
        RecoverLedger(env, one.store, now, maxAttempts, leaseTicks, k + 1, one.result.value);
      }
    }
  }

  lemma DecideLedger(env: Env, s: Store, now: int, a: AttemptId, gate: GateState)
    requires Ledger(s) && a in s.attempts && a in s.jobs && s.attempts[a].changeRequest in s.changeRequests
    ensures Ledger(Decide(env, s, now, a, gate).store)
  {
    var l := s.attempts[a].changeRequest;
    LogCounts(s, now, "standing_decision_published", l, Some(a), NoActor, GatePublished(gate));
    LedgerRevised(s, Decide(env, s, now, a, gate).store, l);
  }

  lemma PublishLedger(env: Env, s: Store, now: int, a: AttemptId, key: RequestKey, identity: Option<ReviewIdentity>,
                      gate: GateState)
    requires s.Linked() && Ledger(s)
    ensures Ledger(Publish(env, s, now, a, key, identity, gate).store)
  {
    PublishCases(env, s, now, a, key, identity, gate);
    if a in s.attempts {
      var kept := KeepForAudit(env, s, now, a).store;
      LoggedKept(s, kept, now, "attempt_publish_superseded", s.attempts[a].changeRequest, Some(a), NoActor,
        PublishSuperseded);
      DecideLedger(env, s, now, a, gate);
    }
  }

  lemma InvalidateLedger(env: Env, s: Store, now: int, l: Locator, reason: string)
    requires s.Indexed() && Ledger(s)
    ensures var step := Invalidate(env, s, now, l, reason);
      !step.Unsafe() ==> Ledger(step.store)
  {
    var step := Invalidate(env, s, now, l, reason);
    if l in s.changeRequests && !step.Unsafe() {
      var standing := s.changeRequests[l].standing;
      var expired := ExpireBypasses(env, ClearStanding(s, l), now, l, reason, 0).store;
      ExpireEffect(env, ClearStanding(s, l), now, l, reason);
      LogCounts(SupersedeFor(expired, now, standing), now, "standing_decision_invalidated", l, standing, NoActor,
        DecisionInvalidated(reason));
      LedgerRevised(s, step.store, l);
    }
  }

  lemma MoveGateCounts(s: Store, now: int, r: BypassRequest, covered: bool)
    requires r.changeRequest in s.changeRequests
    ensures SameRevisionEvents(MoveGate(s, now, r, covered).audit, s.audit)
  {
    LogCounts(s, now, "gate_transition", r.changeRequest, Some(r.attempt), Actor(r.actorId, Some(r.actorLogin)),
      GateTransition(Blocked, PassedWithBypass));
  }

  lemma ReviseCounts(s: Store, now: int, r: BypassRequest, gate: GateState, accepted: nat, remaining: nat)
    requires r.changeRequest in s.changeRequests
    ensures SameRevisionEvents(Revise(s, now, r, gate, accepted, remaining).audit, s.audit)
  {
    LogCounts(s, now, "check_sync_queued", r.changeRequest, Some(r.attempt), NoActor,
      SyncQueued(s.changeRequests[r.changeRequest].revision + 1, FirstSyncStatus(r.checkRun)));
  }

  lemma SettleCounts(s: Store, now: int, r: BypassRequest, record: Bypass)
    requires r.changeRequest in s.changeRequests
    requires forall key <- s.bypassOrder :: key in s.bypasses
    ensures SameRevisionEvents(SettleGate(s, now, r, record).store.audit, s.audit)
  {
    var active := ActiveFingerprints(s, r.attempt, |s.bypassOrder|);
    var remaining := Uncovered(r.blocking, active);
    var moved := MoveGate(s, now, r, remaining == []);
    MoveGateCounts(s, now, r, remaining == []);
    ReviseCounts(moved, now, r, moved.changeRequests[r.changeRequest].gate.GetOr(Blocked), |active|, |remaining|);
  }

  lemma ApplyBypassLedger(env: Env, s: Store, now: int, r: BypassRequest)
    requires s.Valid() && Ledger(s)
    ensures var step := ApplyBypass(env, s, now, r);
      !step.Unsafe() ==> Ledger(step.store)
  {
    var step := ApplyBypass(env, s, now, r);
    if !step.Unsafe() && step.store != s {
      assert Located(s.attempts, s.changeRequests, r.attempt);
      GrantLedger(s, now, r);
    }
  }

  lemma GrantLedger(s: Store, now: int, r: BypassRequest)
    requires Ledger(s) && s.Indexed() && r.changeRequest in s.changeRequests
    requires (r.attempt, r.fingerprint) !in s.bypasses
    ensures Ledger(SettleGate(GrantedLog(s, now, r), now, r, GrantRecord(s, now, r)).store)
  {
    hide Ledger;
    var granted := Granted(s, now, r);
    LogCounts(granted, now, "bypass_authorized", r.changeRequest, Some(r.attempt), Actor(r.actorId, Some(r.actorLogin)),
      BypassGranted(r.fingerprint, r.reason, r.riskDigest));
    var logged := GrantedLog(s, now, r);
    SettleCounts(logged, now, r, GrantRecord(s, now, r));
    LedgerRevised(s, SettleGate(logged, now, r, GrantRecord(s, now, r)).store, r.changeRequest);
  }

  /** An appended event keeps the ledger balanced exactly when it does not pose as a revision event. */
  lemma AppendLedger(env: Env, s: Store, now: int, kind: string, l: Locator, a: Option<AttemptId>, actor: Actor,
                     content: string)
    requires Ledger(s) && env.Accepts(Appended(content))
    ensures Ledger(Append(env, s, now, kind, l, a, actor, content).store) <==> !RevisionKind(kind)
  {
    var t := Append(env, s, now, kind, l, a, actor, content).store;
    LogCounts(s, now, kind, l, a, actor, Appended(content));
    if !RevisionKind(kind) {
      LedgerKept(s, t);
    } else {
      assert RevisionEvents(t.audit, l) == RevisionEvents(s.audit, l) + 1;
    }
  }
}
