/** Every step, even one cut short by a refused payload, keeps the links between the dictionaries. */
module StoreValid {
  import opened Prelude
  import opened Identity
  import opened Store
  import opened StoreInvariants
  import opened StoreSteps

  lemma OrderedAppend<K(!new), V>(dictionary: map<K, V>, order: seq<K>, k: K, v: V)
    requires Ordered(dictionary, order) && k !in dictionary
    ensures Ordered(dictionary[k := v], order + [k])
  {
  }

  ghost predicate SameKeys(s: Store, t: Store) {
    && SameLinks(s, t)
    && t.bypasses.Keys == s.bypasses.Keys
    && t.jobOrder == s.jobOrder
    && t.bypassOrder == s.bypassOrder
  }

  /** Only jobs, the Attempts themselves and the audit trail differ. */
  ghost predicate OnlyJobs(s: Store, t: Store) {
    && SameKeys(s, t)
    && t.changeRequests == s.changeRequests
    && t.deliveries == s.deliveries
    && t.bypasses == s.bypasses
    && t.intents == s.intents
  }

  lemma ValidKept(s: Store, t: Store)
    requires s.Valid() && SameKeys(s, t)
    ensures t.Valid()
  {
    LinksKept(s, t);
  }

  lemma StartValid(env: Env, s: Store, now: int, newId: AttemptId, l: Locator, key: RequestKey,
                   expected: Option<AttemptId>, delivery: Option<string>)
    requires s.Valid() && newId !in s.attempts
    ensures Start(env, s, now, newId, l, key, expected, delivery).store.Valid()
  {
    hide Start, Vacate;
    var t := Start(env, s, now, newId, l, key, expected, delivery).store;
    var r := Vacate(env, s, now, l).store;
    StartCases(env, s, now, newId, l, key, expected, delivery);
    VacateKeys(env, s, now, l);
    ValidKept(s, r);
    if t != s && t != r {
      var d := AfterDesignation(env, s, now, newId, l, key, delivery);
      DesignateValid(r, now, newId, l, key, delivery, NewLease(s, newId, l, key));
      TrailKeys(d, t);
      ValidKept(d, t);
    }
  }

  lemma DesignateValid(r: Store, now: int, newId: AttemptId, l: Locator, key: RequestKey,
                       delivery: Option<string>, lease: Lease)
    requires r.Valid() && newId !in r.attempts
    ensures Designate(r, now, newId, l, key, delivery, lease).Valid()
  {
    DesignateLinked(r, now, newId, l, key, delivery, lease);
    OrderedAppend(r.jobs, r.jobOrder, newId, Job(JobStatus.Queued, 0, now, None));
  }

  /** Intents and the audit trail are not linked to anything. */
  lemma TrailKeys(s: Store, t: Store)
    requires t == s.(intents := t.intents, audit := t.audit)
    ensures SameKeys(s, t)
  {
  }

  lemma VacateKeys(env: Env, s: Store, now: int, l: Locator)
    requires s.Valid()
    ensures SameKeys(s, Vacate(env, s, now, l).store)
  {
    hide ExpireBypasses;
    if l in s.changeRequests {
      assert Designated(s.changeRequests, s.attempts, l);
      ExpireEffect(env, Demote(s, s.changeRequests[l].authoritative), now, l, SupersededReason);
    }
  }

  // Every other operation but a granted bypass leaves all keys as they are.

  lemma TouchKeys(s: Store, t: Store, a: AttemptId)
    requires Touches(s, t, a) && t.jobOrder == s.jobOrder && t.bypassOrder == s.bypassOrder
    ensures SameKeys(s, t)
  {
  }

  lemma TakeQueuedKeys(s: Store, now: int, a: AttemptId, recovered: bool)
    requires a in s.attempts && a in s.jobs && s.attempts[a].changeRequest in s.changeRequests
    ensures OnlyJobs(s, TakeQueued(s, now, a, recovered).store)
  {
    TouchKeys(s, TakeQueued(s, now, a, recovered).store, a);
  }

  lemma ClaimKeys(env: Env, s: Store, now: int, a: AttemptId)
    requires s.Linked()
    ensures OnlyJobs(s, Claim(env, s, now, a).store)
  {
    ClaimCases(env, s, now, a);
    if a in s.attempts {
      TakeQueuedKeys(s, now, a, false);
      var r := Reclaim(s, now, a);
      assert OnlyJobs(s, r);
      TakeQueuedKeys(r, now, a, true);
    }
  }

  /** Only the record of one Attempt differs, and it keeps its change request. */
  lemma AttemptKeys(s: Store, t: Store, a: AttemptId)
    requires a in s.attempts && a in t.attempts && t == s.(attempts := s.attempts[a := t.attempts[a]])
    requires t.attempts[a].changeRequest == s.attempts[a].changeRequest
    ensures OnlyJobs(s, t)
  {
  }

  /** Only the record of one job and the audit trail differ. */
  lemma JobKeys(s: Store, t: Store, a: AttemptId)
    requires JobTouched(s, t, a)
    ensures OnlyJobs(s, t)
  {
  }

  lemma TrailOnly(s: Store, t: Store)
    requires t == s.(audit := t.audit)
    ensures OnlyJobs(s, t)
  {
  }

  lemma OnlyJobsSame(s: Store)
    ensures OnlyJobs(s, s)
  {
  }

  lemma RecordIdentityKeys(s: Store, a: AttemptId, identity: ReviewIdentity)
    ensures OnlyJobs(s, RecordIdentity(s, a, identity).store)
  {
    hide OnlyJobs;
    var t := RecordIdentity(s, a, identity).store;
    if t == s { OnlyJobsSame(s); } else { AttemptKeys(s, t, a); }
  }

  lemma MarkRetryableKeys(env: Env, s: Store, now: int, a: AttemptId, error: string)
    requires s.Linked()
    ensures OnlyJobs(s, MarkRetryable(env, s, now, a, error).store)
  {
    hide OnlyJobs, ScrubJobError;
    var t := MarkRetryable(env, s, now, a, error).store;
    if t == s { OnlyJobsSame(s); } else { JobKeys(s, t, a); }
  }

  lemma FinalizeKeys(env: Env, s: Store, now: int, a: AttemptId, status: JobStatus, reason: string)
    requires s.Linked()
    ensures OnlyJobs(s, Finalize(env, s, now, a, status, reason).store)
  {
    hide OnlyJobs, ScrubJobError;
    var t := Finalize(env, s, now, a, status, reason).store;
    if t == s { OnlyJobsSame(s); } else { JobKeys(s, t, a); }
  }

  lemma RecoverJobKeys(env: Env, s: Store, now: int, maxAttempts: int, leaseTicks: int, a: AttemptId,
                       report: RecoveryReport)
    requires a in s.jobs && a in s.attempts
    ensures OnlyJobs(s, RecoverJob(env, s, now, maxAttempts, leaseTicks, a, report).store)
  {
    hide OnlyJobs, RecoverJob;
    RecoverJobTouches(env, s, now, maxAttempts, leaseTicks, a, report);
    var t := RecoverJob(env, s, now, maxAttempts, leaseTicks, a, report).store;
    if t == s { OnlyJobsSame(s); } else { JobKeys(s, t, a); }
  }

  lemma {:induction false} RecoverKeys(env: Env, s: Store, now: int, maxAttempts: int, leaseTicks: int, k: nat,
                                       report: RecoveryReport)
    requires forall a <- s.jobOrder :: a in s.jobs && a in s.attempts
    ensures OnlyJobs(s, Recover(env, s, now, maxAttempts, leaseTicks, k, report).store)
    decreases |s.jobOrder| - k
  {
    if k < |s.jobOrder| {
      var a := s.jobOrder[k];
      var one := RecoverJob(env, s, now, maxAttempts, leaseTicks, a, report);
      RecoverJobKeys(env, s, now, maxAttempts, leaseTicks, a, report);
      if one.result.Ok? {
        RecoverKeys(env, one.store, now, maxAttempts, leaseTicks, k + 1, one.result.value);
      }
    }
  }

  lemma ChangeRequestTouchKeys(s: Store, t: Store, l: Locator)
    requires l in s.changeRequests && l in t.changeRequests
    requires t.changeRequests == s.changeRequests[l := t.changeRequests[l]]
    requires t.changeRequests[l].authoritative == s.changeRequests[l].authoritative
    requires t.attempts == s.attempts && t.jobs.Keys == s.jobs.Keys && t.jobOrder == s.jobOrder
    requires t.bypasses.Keys == s.bypasses.Keys && t.bypassOrder == s.bypassOrder
    ensures SameKeys(s, t)
  {
  }

  lemma KeepForAuditKeys(env: Env, s: Store, now: int, a: AttemptId)
    requires a in s.attempts && a in s.jobs
    ensures SameKeys(s, KeepForAudit(env, s, now, a).store)
  {
    TouchKeys(s, KeepForAudit(env, s, now, a).store, a);
  }

  lemma DecideKeys(env: Env, s: Store, now: int, a: AttemptId, gate: GateState)
    requires a in s.attempts && a in s.jobs && s.attempts[a].changeRequest in s.changeRequests
    ensures SameKeys(s, Decide(env, s, now, a, gate).store)
  {
    var t := Decide(env, s, now, a, gate).store;
    var middle := t.(changeRequests := s.changeRequests);
    TouchKeys(s, middle, a);
    ChangeRequestTouchKeys(middle, t, s.attempts[a].changeRequest);
  }

  lemma PublishKeys(env: Env, s: Store, now: int, a: AttemptId, key: RequestKey, identity: Option<ReviewIdentity>,
                    gate: GateState)
    requires s.Linked()
    ensures SameKeys(s, Publish(env, s, now, a, key, identity, gate).store)
  {
    PublishCases(env, s, now, a, key, identity, gate);
    if a in s.attempts {
      assert Located(s.attempts, s.changeRequests, a);
      KeepForAuditKeys(env, s, now, a);
      DecideKeys(env, s, now, a, gate);
    }
  }

  lemma ClearedKeys(env: Env, s: Store, now: int, l: Locator, reason: string)
    requires s.Indexed() && l in s.changeRequests
    ensures SameKeys(s, ExpireBypasses(env, ClearStanding(s, l), now, l, reason, 0).store)
  {
    ExpireEffect(env, ClearStanding(s, l), now, l, reason);
    ChangeRequestTouchKeys(s, ExpireBypasses(env, ClearStanding(s, l), now, l, reason, 0).store, l);
  }

  lemma InvalidateTrail(env: Env, s: Store, now: int, l: Locator, reason: string)
    requires s.Indexed() && l in s.changeRequests
    ensures var t := Invalidate(env, s, now, l, reason).store;
      t == ExpireBypasses(env, ClearStanding(s, l), now, l, reason, 0).store.(intents := t.intents, audit := t.audit)
  {
    hide ExpireBypasses;
  }

  lemma InvalidateKeys(env: Env, s: Store, now: int, l: Locator, reason: string)
    requires s.Indexed()
    ensures SameKeys(s, Invalidate(env, s, now, l, reason).store)
  {
    if l in s.changeRequests {
      hide Invalidate, ExpireBypasses, SameKeys;
      var cleared := ClearStanding(s, l);
      var expired := ExpireBypasses(env, cleared, now, l, reason, 0).store;
      var t := Invalidate(env, s, now, l, reason).store;
      ClearedKeys(env, s, now, l, reason);
      InvalidateTrail(env, s, now, l, reason);
      TrailKeys(expired, t);
      SameKeysTrans(s, expired, t);
    }
  }

  lemma SameKeysTrans(s: Store, t: Store, u: Store)
    requires SameKeys(s, t) && SameKeys(t, u)
    ensures SameKeys(s, u)
  {
  }

  lemma MoveGateKeys(s: Store, now: int, r: BypassRequest, covered: bool)
    requires r.changeRequest in s.changeRequests
    ensures SameKeys(s, MoveGate(s, now, r, covered))
  {
    ChangeRequestTouchKeys(s, MoveGate(s, now, r, covered), r.changeRequest);
  }

  lemma ReviseKeys(s: Store, now: int, r: BypassRequest, gate: GateState, accepted: nat, remaining: nat)
    requires r.changeRequest in s.changeRequests
    ensures SameKeys(s, Revise(s, now, r, gate, accepted, remaining))
  {
    ChangeRequestTouchKeys(s, Revise(s, now, r, gate, accepted, remaining), r.changeRequest);
  }

  lemma SettleGateKeys(s: Store, now: int, r: BypassRequest, record: Bypass)
    requires r.changeRequest in s.changeRequests
    requires forall key <- s.bypassOrder :: key in s.bypasses
    ensures SameKeys(s, SettleGate(s, now, r, record).store)
  {
    var active := ActiveFingerprints(s, r.attempt, |s.bypassOrder|);
    var remaining := Uncovered(r.blocking, active);
    MoveGateKeys(s, now, r, remaining == []);
    var moved := MoveGate(s, now, r, remaining == []);
    ReviseKeys(moved, now, r, moved.changeRequests[r.changeRequest].gate.GetOr(Blocked), |active|, |remaining|);
  }

  lemma GrantedValid(s: Store, now: int, r: BypassRequest)
    requires s.Valid() && Grantable(s, r)
    ensures Granted(s, now, r).Valid() && GrantedLog(s, now, r).Valid()
  {
    OrderedAppend(s.bypasses, s.bypassOrder, (r.attempt, r.fingerprint), GrantRecord(s, now, r));
    LinksKept(s, Granted(s, now, r));
    LinksKept(s, GrantedLog(s, now, r));
  }

  lemma ApplyBypassValid(env: Env, s: Store, now: int, r: BypassRequest)
    requires s.Valid()
    ensures ApplyBypass(env, s, now, r).store.Valid()
  {
    BypassCases(env, s, now, r);
    if Grantable(s, r) {
      var granted := GrantedLog(s, now, r);
      var record := GrantRecord(s, now, r);
      GrantedValid(s, now, r);
      SettleGateKeys(granted, now, r, record);
      ValidKept(granted, SettleGate(granted, now, r, record).store);
    }
  }

  lemma RecordIdentityValid(s: Store, a: AttemptId, identity: ReviewIdentity)
    requires s.Valid()
    ensures RecordIdentity(s, a, identity).store.Valid()
  {
    RecordIdentityKeys(s, a, identity);
    ValidKept(s, RecordIdentity(s, a, identity).store);
  }

  lemma ClaimValid(env: Env, s: Store, now: int, a: AttemptId)
    requires s.Valid()
    ensures Claim(env, s, now, a).store.Valid()
  {
    ClaimKeys(env, s, now, a);
    ValidKept(s, Claim(env, s, now, a).store);
  }

  lemma MarkRetryableValid(env: Env, s: Store, now: int, a: AttemptId, error: string)
    requires s.Valid()
    ensures MarkRetryable(env, s, now, a, error).store.Valid()
  {
    MarkRetryableKeys(env, s, now, a, error);
    ValidKept(s, MarkRetryable(env, s, now, a, error).store);
  }

  lemma RecoverValid(env: Env, s: Store, now: int, maxAttempts: int, leaseTicks: int)
    requires s.Valid()
    ensures Recover(env, s, now, maxAttempts, leaseTicks, 0, NothingRecovered).store.Valid()
  {
    RecoverKeys(env, s, now, maxAttempts, leaseTicks, 0, NothingRecovered);
    ValidKept(s, Recover(env, s, now, maxAttempts, leaseTicks, 0, NothingRecovered).store);
  }

  lemma PublishValid(env: Env, s: Store, now: int, a: AttemptId, key: RequestKey, identity: Option<ReviewIdentity>,
                     gate: GateState)
    requires s.Valid()
    ensures Publish(env, s, now, a, key, identity, gate).store.Valid()
  {
    PublishKeys(env, s, now, a, key, identity, gate);
    ValidKept(s, Publish(env, s, now, a, key, identity, gate).store);
  }

  lemma FinalizeValid(env: Env, s: Store, now: int, a: AttemptId, status: JobStatus, reason: string)
    requires s.Valid()
    ensures Finalize(env, s, now, a, status, reason).store.Valid()
  {
    FinalizeKeys(env, s, now, a, status, reason);
    ValidKept(s, Finalize(env, s, now, a, status, reason).store);
  }

  lemma InvalidateValid(env: Env, s: Store, now: int, l: Locator, reason: string)
    requires s.Valid()
    ensures Invalidate(env, s, now, l, reason).store.Valid()
  {
    InvalidateKeys(env, s, now, l, reason);
    ValidKept(s, Invalidate(env, s, now, l, reason).store);
  }

  lemma SyncValid(s: Store, t: Store)
    requires s.Valid() && t == s.(intents := t.intents, audit := t.audit)
    ensures t.Valid()
  {
    ValidKept(s, t);
  }
}
