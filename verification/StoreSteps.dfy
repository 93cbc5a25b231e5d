/** Each operation of the store, one at a time, keeps the invariants of StoreInvariants.dfy. */
module StoreSteps {
  import opened Prelude
  import opened Identity
  import opened Store
  import opened StoreInvariants

  // ---- taking authority -----------------------------------------------------------------

  ghost predicate AllExpired(before: map<BypassKey, Bypass>, after: map<BypassKey, Bypass>, l: Locator, now: int,
                             reason: string)
  {
    && Expired(before, after, l, now, reason)
    && forall key :: key in before && before[key].changeRequest == l ==> !after[key].active
  }

  /** What uninterrupted expiry does to the store. */
  lemma ExpireEffect(env: Env, s: Store, now: int, l: Locator, reason: string)
    requires Ordered(s.bypasses, s.bypassOrder)
    ensures var r := ExpireBypasses(env, s, now, l, reason, 0);
      && (r.result.Raised? ==> r.Unsafe())
      && r.store == s.(bypasses := r.store.bypasses, audit := r.store.audit)
      && SameRevisionEvents(r.store.audit, s.audit)
      && Expired(s.bypasses, r.store.bypasses, l, now, reason)
      && (r.result.Ok? ==> AllExpired(s.bypasses, r.store.bypasses, l, now, reason))
  {
    var r := ExpireBypasses(env, s, now, l, reason, 0);
    ExpireFrame(env, s, now, l, reason, 0);
    ExpireAll(env, s, now, l, reason, 0);
    if r.result.Ok? {
      forall key | key in s.bypasses && s.bypasses[key].changeRequest == l
        ensures !r.store.bypasses[key].active
      {
        assert key in s.bypassOrder;
        assert r.store.bypasses[key].changeRequest == l;
      }
    }
  }

  lemma RetireEffect(env: Env, s: Store, now: int, l: Locator, prior: AttemptId)
    requires s.Valid() && prior in s.attempts && Retire(env, s, now, l, prior).result.Ok?
    ensures var r := Retire(env, s, now, l, prior).store;
      && r == Demote(s, prior).(
           bypasses := r.bypasses, audit := r.audit, intents := SupersedeIntents(s.intents, now, prior))
      && SameRevisionEvents(r.audit, s.audit)
      && AllExpired(s.bypasses, r.bypasses, l, now, SupersededReason)
  {
    ExpireEffect(env, Demote(s, prior), now, l, SupersededReason);
  }

  /** Sound but for one change request, whose Attempts are all retired and bypasses all expired. */
  ghost predicate Vacant(s: Store, l: Locator) {
    && s.Linked()
    && (forall a {:trigger AttemptOk(s, a)} :: a in s.attempts && s.attempts[a].changeRequest != l ==> AttemptOk(s, a))
    && (forall a {:trigger Retired(s, a)} :: a in s.attempts && s.attempts[a].changeRequest == l ==> Retired(s, a))
    && (forall m {:trigger ChangeRequestOk(s, m)} :: m in s.changeRequests && m != l ==> ChangeRequestOk(s, m))
    && (forall key {:trigger BypassOk(s, key)} :: key in s.bypasses && s.bypasses[key].changeRequest != l ==>
         BypassOk(s, key))
    && (forall key {:trigger BypassRetired(s, key)} :: key in s.bypasses && s.bypasses[key].changeRequest == l ==>
         BypassRetired(s, key))
  }

  ghost predicate Retired(s: Store, a: AttemptId)
    requires s.Linked() && a in s.attempts
  {
    var attempt := s.attempts[a];
    && !attempt.Current()
    && (attempt.status.AuditOnly? ==> s.jobs[a].status.Terminal())
    && (attempt.identity.Some? ==> Matches(attempt.identity.value, attempt.key))
  }

  ghost predicate BypassRetired(s: Store, key: BypassKey)
    requires s.Linked() && key in s.bypasses
  {
    var b := s.bypasses[key];
    && key == (b.attempt, b.fingerprint)
    && b.attempt in s.attempts
    && s.attempts[b.attempt].changeRequest == b.changeRequest
    && !b.active
  }

  // ---- keeping what was true of an entity that did not change --------------------------------

  /** The same keys and the same references between the dictionaries. */
  ghost predicate SameLinks(s: Store, t: Store) {
    && t.changeRequests.Keys == s.changeRequests.Keys
    && t.attempts.Keys == s.attempts.Keys
    && t.jobs.Keys == s.jobs.Keys
    && (forall l :: l in s.changeRequests ==> t.changeRequests[l].authoritative == s.changeRequests[l].authoritative)
    && (forall a :: a in s.attempts ==> t.attempts[a].changeRequest == s.attempts[a].changeRequest)
  }

  lemma LinksKept(s: Store, t: Store)
    requires s.Linked() && SameLinks(s, t)
    ensures t.Linked()
  {
    forall l | l in t.changeRequests
      ensures Designated(t.changeRequests, t.attempts, l)
    {
      assert Designated(s.changeRequests, s.attempts, l);
    }
    forall a | a in t.attempts
      ensures Located(t.attempts, t.changeRequests, a)
    {
      assert Located(s.attempts, s.changeRequests, a);
    }
  }

  lemma AttemptKept(s: Store, t: Store, a: AttemptId)
    requires s.Linked() && t.Linked() && a in s.attempts && a in t.attempts
    requires t.attempts[a] == s.attempts[a] && t.jobs[a] == s.jobs[a]
    requires var l := s.attempts[a].changeRequest;
      l in s.changeRequests && l in t.changeRequests &&
        t.changeRequests[l].authoritative == s.changeRequests[l].authoritative
    requires AttemptOk(s, a)
    ensures AttemptOk(t, a)
  {
  }

  lemma ChangeRequestKept(s: Store, t: Store, l: Locator)
    requires s.Linked() && t.Linked() && l in s.changeRequests && l in t.changeRequests
    requires t.changeRequests[l] == s.changeRequests[l]
    requires var a := s.changeRequests[l].authoritative;
      a in s.attempts && a in t.attempts && t.attempts[a] == s.attempts[a]
    requires ChangeRequestOk(s, l)
    ensures ChangeRequestOk(t, l)
  {
  }

  lemma BypassKept(s: Store, t: Store, key: BypassKey)
    requires s.Linked() && t.Linked() && key in s.bypasses && key in t.bypasses
    requires t.bypasses[key] == s.bypasses[key] && BypassOk(s, key)
    requires var a := s.bypasses[key].attempt; a in t.attempts && t.attempts[a] == s.attempts[a]
    requires var l := s.bypasses[key].changeRequest;
      l in t.changeRequests && t.changeRequests[l].standing == s.changeRequests[l].standing
    ensures BypassOk(t, key)
  {
  }

  // ---- starting an Attempt -------------------------------------------------------------------

  lemma DesignateLinked(r: Store, now: int, newId: AttemptId, l: Locator, key: RequestKey,
                        delivery: Option<string>, lease: Lease)
    requires r.Linked() && newId !in r.attempts
    ensures Designate(r, now, newId, l, key, delivery, lease).Linked()
  {
    var t := Designate(r, now, newId, l, key, delivery, lease);
    forall m | m in t.changeRequests
      ensures Designated(t.changeRequests, t.attempts, m)
    {
      if m != l { assert Designated(r.changeRequests, r.attempts, m); }
    }
    forall a | a in t.attempts
      ensures Located(t.attempts, t.changeRequests, a)
    {
      if a != newId { assert Located(r.attempts, r.changeRequests, a); }
    }
  }

  lemma DesignateSound(r: Store, now: int, newId: AttemptId, l: Locator, key: RequestKey,
                       delivery: Option<string>, lease: Lease)
    requires Vacant(r, l) && newId !in r.attempts
    ensures Sound(Designate(r, now, newId, l, key, delivery, lease))
  {
    var t := Designate(r, now, newId, l, key, delivery, lease);
    DesignateLinked(r, now, newId, l, key, delivery, lease);
    assert AttemptsOk(t) by {
      forall a | a in t.attempts
        ensures AttemptOk(t, a)
      {
        if a != newId {
          assert Located(r.attempts, r.changeRequests, a);
          if r.attempts[a].changeRequest == l { assert Retired(r, a); } else { AttemptKept(r, t, a); }
        }
      }
    }
    assert ChangeRequestsOk(t) by {
      forall m | m in t.changeRequests
        ensures ChangeRequestOk(t, m)
      {
        if m != l {
          assert Designated(r.changeRequests, r.attempts, m);
          ChangeRequestKept(r, t, m);
        }
      }
    }
    assert BypassesOk(t) by {
      forall k | k in t.bypasses
        ensures BypassOk(t, k)
      {
        if r.bypasses[k].changeRequest == l { assert BypassRetired(r, k); } else {
          assert BypassOk(r, k);
          assert Located(r.attempts, r.changeRequests, k.0);
          BypassKept(r, t, k);
        }
      }
    }
  }

  lemma DemotedVacant(s: Store, r: Store, now: int, l: Locator)
    requires Sound(s) && l in s.changeRequests
    requires var prior := s.changeRequests[l].authoritative;
      && prior in s.attempts && prior in s.jobs
      && r == Demote(s, prior).(bypasses := r.bypasses, audit := r.audit, intents := r.intents)
    requires AllExpired(s.bypasses, r.bypasses, l, now, SupersededReason)
    ensures Vacant(r, l)
  {
    var prior := s.changeRequests[l].authoritative;
    assert ChangeRequestOk(s, l);
    LinksKept(s, r);
    forall a | a in r.attempts
      ensures r.attempts[a].changeRequest != l ==> AttemptOk(r, a)
      ensures r.attempts[a].changeRequest == l ==> Retired(r, a)
    {
      assert AttemptOk(s, a);
    }
    forall m | m in r.changeRequests && m != l
      ensures ChangeRequestOk(r, m)
    {
      assert Designated(s.changeRequests, s.attempts, m);
      assert ChangeRequestOk(s, m);
      ChangeRequestKept(s, r, m);
    }
    forall key | key in r.bypasses
      ensures r.bypasses[key].changeRequest != l ==> BypassOk(r, key)
      ensures r.bypasses[key].changeRequest == l ==> BypassRetired(r, key)
    {
      assert key in s.bypasses && BypassOk(s, key);
    }
  }

  lemma LogSound(s: Store, t: Store)
    requires Sound(s) && t == s.(audit := t.audit, deliveries := t.deliveries, intents := t.intents)
    ensures Sound(t)
  {
    LinksKept(s, t);
    assert AttemptsOk(t) by {
      forall a | a in t.attempts ensures AttemptOk(t, a) { assert AttemptOk(s, a); }
    }
    assert ChangeRequestsOk(t) by {
      forall l | l in t.changeRequests ensures ChangeRequestOk(t, l) { assert ChangeRequestOk(s, l); }
    }
    assert BypassesOk(t) by {
      forall key | key in t.bypasses ensures BypassOk(t, key) { assert BypassOk(s, key); }
    }
  }

  lemma VacateVacant(env: Env, s: Store, now: int, l: Locator)
    requires Sound(s) && s.Indexed() && Vacate(env, s, now, l).result.Ok?
    ensures Vacant(Vacate(env, s, now, l).store, l)
  {
    if l in s.changeRequests {
      var prior := s.changeRequests[l].authoritative;
      assert Designated(s.changeRequests, s.attempts, l);
      RetireEffect(env, s, now, l, prior);
      DemotedVacant(s, Retire(env, s, now, l, prior).store, now, l);
    } else {
      forall a | a in s.attempts
        ensures s.attempts[a].changeRequest != l && AttemptOk(s, a)
      {
        assert Located(s.attempts, s.changeRequests, a);
        assert AttemptOk(s, a);
      }
      forall key | key in s.bypasses
        ensures s.bypasses[key].changeRequest != l && BypassOk(s, key)
      {
        assert BypassOk(s, key);
      }
      assert ChangeRequestsOk(s);
    }
  }

  /** The new Attempt's lease, and the store with it designated. */
  function NewLease(s: Store, newId: AttemptId, l: Locator, key: RequestKey): Lease {
    Lease(newId, l, key, Prior(s, l), false, false)
  }

  function AfterDesignation(env: Env, s: Store, now: int, newId: AttemptId, l: Locator, key: RequestKey,
                            delivery: Option<string>): Store
    requires s.Valid()
  {
    Designate(Vacate(env, s, now, l).store, now, newId, l, key, delivery, NewLease(s, newId, l, key))
  }

  /** A start is refused, is cut short while it retires the prior Attempt, or designates the new one. */
  lemma StartCases(env: Env, s: Store, now: int, newId: AttemptId, l: Locator, key: RequestKey,
                   expected: Option<AttemptId>, delivery: Option<string>)
    requires s.Valid()
    ensures var step := Start(env, s, now, newId, l, key, expected, delivery);
      var vacated := Vacate(env, s, now, l);
      || (step.store == s && !step.Unsafe())
      || (vacated.result.Raised? && step.store == vacated.store && step.result == Raised(vacated.result.failure))
      || (vacated.result.Ok? &&
           step == Record(env, AfterDesignation(env, s, now, newId, l, key, delivery), now, "attempt_authoritative",
            l, Some(newId), NoActor, AuthorityGranted(Prior(s, l), delivery), NewLease(s, newId, l, key)))
  {
    hide Vacate, Designate;
  }

  lemma StartSound(env: Env, s: Store, now: int, newId: AttemptId, l: Locator, key: RequestKey,
                   expected: Option<AttemptId>, delivery: Option<string>)
    requires Sound(s) && s.Indexed() && newId !in s.attempts
    ensures var step := Start(env, s, now, newId, l, key, expected, delivery);
      !step.Unsafe() ==> Sound(step.store)
  {
    var step := Start(env, s, now, newId, l, key, expected, delivery);
    if !step.Unsafe() && step.store != s {
      var prior := Prior(s, l);
      var vacated := Vacate(env, s, now, l);
      VacateResult(env, s, now, l);
      VacateVacant(env, s, now, l);
      var lease := Lease(newId, l, key, prior, false, false);
      var designated := Designate(vacated.store, now, newId, l, key, delivery, lease);
      DesignateSound(vacated.store, now, newId, l, key, delivery, lease);
      LogSound(designated, step.store);
    }
  }

  /** Retirement is only ever interrupted by a refused payload, and creates no Attempt. */
  lemma VacateResult(env: Env, s: Store, now: int, l: Locator)
    requires s.Valid()
    ensures var r := Vacate(env, s, now, l);
      (r.result.Raised? ==> r.Unsafe()) && r.store.attempts.Keys == s.attempts.Keys
  {
    if l in s.changeRequests {
      assert Designated(s.changeRequests, s.attempts, l);
      ExpireEffect(env, Demote(s, s.changeRequests[l].authoritative), now, l, SupersededReason);
    }
  }

  /** A claim takes a queued job, after putting a stale one back in the queue. */
  lemma ClaimCases(env: Env, s: Store, now: int, a: AttemptId)
    requires s.Linked()
    ensures a in s.attempts ==> a in s.jobs && Located(s.attempts, s.changeRequests, a)
    ensures var step := Claim(env, s, now, a);
      || step == Step(s, Ok(None))
      || (a in s.attempts && s.jobs[a].status.Queued? && step == TakeQueued(s, now, a, false))
      || (a in s.attempts && s.jobs[a].status.Running? && Stale(s.jobs[a], now, env.leaseTicks) &&
          step == TakeQueued(Reclaim(s, now, a), now, a, true))
  {
    assert a in s.attempts ==> Located(s.attempts, s.changeRequests, a);
  }

  // ---- steps on one Attempt --------------------------------------------------------------------

  /** The step changed nothing but the records of one Attempt, which keep what others rely on. */
  ghost predicate Touches(s: Store, t: Store, a: AttemptId) {
    && a in s.attempts && a in t.attempts
    && t.changeRequests == s.changeRequests && t.bypasses == s.bypasses
    && t.attempts == s.attempts[a := t.attempts[a]]
    && t.jobs.Keys == s.jobs.Keys
    && (forall b :: b in s.jobs && b != a ==> t.jobs[b] == s.jobs[b])
    && t.attempts[a].changeRequest == s.attempts[a].changeRequest
    && t.attempts[a].key == s.attempts[a].key
    && (s.attempts[a].identity.Some? ==> t.attempts[a].identity == s.attempts[a].identity)
  }

  lemma TouchSound(s: Store, t: Store, a: AttemptId)
    requires Sound(s) && Touches(s, t, a)
    requires s.attempts[a].status.Published? ==> t.attempts[a].status.Published?
    requires t.Linked() ==> AttemptOk(t, a)
    ensures Sound(t)
  {
    LinksKept(s, t);
    assert AttemptsOk(t) by {
      forall b | b in t.attempts ensures AttemptOk(t, b) { assert AttemptOk(s, b); }
    }
    assert ChangeRequestsOk(t) by {
      forall l | l in t.changeRequests ensures ChangeRequestOk(t, l) { assert ChangeRequestOk(s, l); }
    }
    assert BypassesOk(t) by {
      forall key | key in t.bypasses ensures BypassOk(t, key) { assert BypassOk(s, key); }
    }
  }

  lemma RecordIdentitySound(s: Store, a: AttemptId, identity: ReviewIdentity)
    requires Sound(s)
    ensures Sound(RecordIdentity(s, a, identity).store)
  {
    var t := RecordIdentity(s, a, identity).store;
    if t != s {
      assert AttemptOk(s, a);
      TouchSound(s, t, a);
    }
  }

  lemma TakeQueuedSound(s: Store, now: int, a: AttemptId, recovered: bool)
    requires Sound(s) && a in s.attempts && a in s.jobs && s.jobs[a].status.Queued?
    requires Located(s.attempts, s.changeRequests, a)
    ensures Sound(TakeQueued(s, now, a, recovered).store)
  {
    assert AttemptOk(s, a);
    TouchSound(s, TakeQueued(s, now, a, recovered).store, a);
  }

  lemma ReclaimSound(s: Store, now: int, a: AttemptId)
    requires Sound(s) && a in s.attempts && a in s.jobs && s.jobs[a].status.Running?
    ensures Sound(Reclaim(s, now, a))
  {
    assert AttemptOk(s, a);
    TouchSound(s, Reclaim(s, now, a), a);
  }

  lemma ClaimSound(env: Env, s: Store, now: int, a: AttemptId)
    requires Sound(s)
    ensures Sound(Claim(env, s, now, a).store)
  {
    hide Claim, TakeQueued, Sound;
    assert s.Linked() by { SoundLinked(s); }
    ClaimCases(env, s, now, a);
    if a in s.attempts && s.jobs[a].status.Queued? {
      TakeQueuedSound(s, now, a, false);
    } else if a in s.attempts && s.jobs[a].status.Running? {
      ReclaimSound(s, now, a);
      var r := Reclaim(s, now, a);
      assert Located(r.attempts, r.changeRequests, a);
      TakeQueuedSound(r, now, a, true);
    }
  }

  lemma SoundLinked(s: Store)
    requires Sound(s)
    ensures s.Linked()
  {
  }

  /** Nothing but the record of one job and the audit trail changed. */
  ghost predicate JobTouched(s: Store, t: Store, a: AttemptId) {
    a in s.jobs && a in t.jobs && t == s.(jobs := s.jobs[a := t.jobs[a]], audit := t.audit)
  }

  /** Only the record of one job that an open Attempt needs not be terminal changed. */
  lemma JobTouchSound(s: Store, t: Store, a: AttemptId)
    requires Sound(s) && a in s.attempts && JobTouched(s, t, a)
    requires !s.jobs[a].status.Terminal()
    ensures Sound(t)
  {
    assert AttemptOk(s, a);
    TouchSound(s, t, a);
  }

  lemma MarkRetryableSound(env: Env, s: Store, now: int, a: AttemptId, error: string)
    requires Sound(s)
    ensures Sound(MarkRetryable(env, s, now, a, error).store)
  {
    var t := MarkRetryable(env, s, now, a, error).store;
    if t != s {
      assert AttemptOk(s, a);
      TouchSound(s, t, a);
    }
  }

  lemma FinalizeSound(env: Env, s: Store, now: int, a: AttemptId, status: JobStatus, reason: string)
    requires Sound(s)
    ensures Sound(Finalize(env, s, now, a, status, reason).store)
  {
    var t := Finalize(env, s, now, a, status, reason).store;
    if t != s {
      assert AttemptOk(s, a);
      TouchSound(s, t, a);
    }
  }

  lemma RecoverJobTouches(env: Env, s: Store, now: int, maxAttempts: int, leaseTicks: int, a: AttemptId,
                          report: RecoveryReport)
    requires a in s.jobs && a in s.attempts
    ensures var step := RecoverJob(env, s, now, maxAttempts, leaseTicks, a, report);
      && (step.store == s || (JobTouched(s, step.store, a) && !s.jobs[a].status.Terminal()))
      && (step.result.Raised? ==> step.Unsafe())
  {
    hide Stale;
  }

  lemma RecoverJobSound(env: Env, s: Store, now: int, maxAttempts: int, leaseTicks: int, a: AttemptId,
                        report: RecoveryReport)
    requires Sound(s) && a in s.jobs && a in s.attempts
    ensures var step := RecoverJob(env, s, now, maxAttempts, leaseTicks, a, report);
      && Sound(step.store)
      && step.store.jobs.Keys == s.jobs.Keys && step.store.attempts == s.attempts
      && step.store.jobOrder == s.jobOrder
      && (step.result.Raised? ==> step.Unsafe())
  {
    hide Sound, RecoverJob;
    var t := RecoverJob(env, s, now, maxAttempts, leaseTicks, a, report).store;
    RecoverJobTouches(env, s, now, maxAttempts, leaseTicks, a, report);
    if t != s { JobTouchSound(s, t, a); }
  }

  lemma {:induction false} RecoverSound(env: Env, s: Store, now: int, maxAttempts: int, leaseTicks: int, k: nat,
                                        report: RecoveryReport)
    requires Sound(s)
    requires forall a <- s.jobOrder :: a in s.jobs && a in s.attempts
    ensures Sound(Recover(env, s, now, maxAttempts, leaseTicks, k, report).store)
    decreases |s.jobOrder| - k
  {
    if k < |s.jobOrder| {
      var one := RecoverJob(env, s, now, maxAttempts, leaseTicks, s.jobOrder[k], report);
      RecoverJobSound(env, s, now, maxAttempts, leaseTicks, s.jobOrder[k], report);
      if one.result.Ok? {
        RecoverSound(env, one.store, now, maxAttempts, leaseTicks, k + 1, one.result.value);
      }
    }
  }

  // ---- publication, invalidation and bypass ------------------------------------------------------

  lemma PublishCases(env: Env, s: Store, now: int, a: AttemptId, key: RequestKey, identity: Option<ReviewIdentity>,
                     gate: GateState)
    requires s.Linked()
    ensures a in s.attempts ==> Located(s.attempts, s.changeRequests, a)
    ensures var t := Publish(env, s, now, a, key, identity, gate).store;
      || t == s
      || (a in s.attempts && !s.attempts[a].status.Published? && t == KeepForAudit(env, s, now, a).store)
      || (a in s.attempts && PublicationInputsMatch(s, a, key, identity) && s.attempts[a].status.Running? &&
          s.changeRequests[s.attempts[a].changeRequest].authoritative == a && t == Decide(env, s, now, a, gate).store)
  {
    assert a in s.attempts ==> Located(s.attempts, s.changeRequests, a);
  }

  lemma KeptForAuditSound(env: Env, s: Store, now: int, a: AttemptId)
    requires Sound(s) && a in s.attempts && !s.attempts[a].status.Published?
    ensures Sound(KeepForAudit(env, s, now, a).store)
  {
    assert AttemptOk(s, a);
    TouchSound(s, KeepForAudit(env, s, now, a).store, a);
  }

  lemma DecidedSound(env: Env, s: Store, now: int, a: AttemptId, gate: GateState)
    requires Sound(s) && a in s.attempts && s.attempts[a].status.Running?
    requires Located(s.attempts, s.changeRequests, a)
    requires s.changeRequests[s.attempts[a].changeRequest].authoritative == a
    ensures Sound(Decide(env, s, now, a, gate).store)
  {
    assert AttemptOk(s, a);
    PublishedSound(s, Decide(env, s, now, a, gate).store, a, gate);
  }

  lemma PublishSound(env: Env, s: Store, now: int, a: AttemptId, key: RequestKey, identity: Option<ReviewIdentity>,
                     gate: GateState)
    requires Sound(s)
    ensures Sound(Publish(env, s, now, a, key, identity, gate).store)
  {
    hide Publish, Decide, KeepForAudit, PublicationInputsMatch, Sound;
    SoundLinked(s);
    var t := Publish(env, s, now, a, key, identity, gate).store;
    PublishCases(env, s, now, a, key, identity, gate);
    if t != s {
      if !s.attempts[a].status.Published? && t == KeepForAudit(env, s, now, a).store {
        KeptForAuditSound(env, s, now, a);
      } else {
        DecidedSound(env, s, now, a, gate);
      }
    }
  }

  lemma PublishedSound(s: Store, t: Store, a: AttemptId, gate: GateState)
    requires Sound(s) && a in s.attempts && s.attempts[a].status.Running?
    requires Located(s.attempts, s.changeRequests, a)
    requires var l := s.attempts[a].changeRequest;
      var current := s.changeRequests[l];
      && current.authoritative == a
      && t.attempts == s.attempts[a := s.attempts[a].(status := AttemptStatus.Published)]
      && t.changeRequests ==
             s.changeRequests[l := current.(standing := Some(a), gate := Some(gate), revision := current.revision + 1)]
      && t.bypasses == s.bypasses
      && t.jobs.Keys == s.jobs.Keys
      && t.jobs[a].status.Terminal()
      && (forall b :: b in s.jobs && b != a ==> t.jobs[b] == s.jobs[b])
    ensures Sound(t)
  {
    LinksKept(s, t);
    assert AttemptsOk(t) by {
      forall b | b in t.attempts ensures AttemptOk(t, b) { assert AttemptOk(s, b); }
    }
    assert ChangeRequestsOk(t) by {
      forall m | m in t.changeRequests ensures ChangeRequestOk(t, m) { assert ChangeRequestOk(s, m); }
    }
    assert BypassesOk(t) by {
      forall key | key in t.bypasses
        ensures BypassOk(t, key)
      {
        assert BypassOk(s, key);
        assert ChangeRequestOk(s, s.bypasses[key].changeRequest);
      }
    }
  }

  lemma InvalidateSound(env: Env, s: Store, now: int, l: Locator, reason: string)
    requires Sound(s) && s.Indexed()
    ensures var step := Invalidate(env, s, now, l, reason);
      !step.Unsafe() ==> Sound(step.store)
  {
    var step := Invalidate(env, s, now, l, reason);
    if l in s.changeRequests && !step.Unsafe() {
      ExpireEffect(env, ClearStanding(s, l), now, l, reason);
      ClearedSound(s, step.store, now, l, reason);
    }
  }

  lemma ClearedSound(s: Store, t: Store, now: int, l: Locator, reason: string)
    requires Sound(s) && l in s.changeRequests
    requires var current := s.changeRequests[l];
      t.changeRequests ==
        s.changeRequests[l := current.(standing := None, gate := None, revision := current.revision + 1)]
    requires t.attempts == s.attempts && t.jobs == s.jobs
    requires AllExpired(s.bypasses, t.bypasses, l, now, reason)
    ensures Sound(t)
  {
    LinksKept(s, t);
    assert AttemptsOk(t) by {
      forall b | b in t.attempts ensures AttemptOk(t, b) { assert AttemptOk(s, b); }
    }
    assert ChangeRequestsOk(t) by {
      forall m | m in t.changeRequests ensures ChangeRequestOk(t, m) { assert ChangeRequestOk(s, m); }
    }
    assert BypassesOk(t) by {
      forall key | key in t.bypasses ensures BypassOk(t, key) { assert BypassOk(s, key); }
    }
  }

  /** The bypass call passes every check and its record is new. */
  ghost predicate Grantable(s: Store, r: BypassRequest) {
    && r.attempt in s.attempts
    && s.attempts[r.attempt].changeRequest == r.changeRequest
    && s.attempts[r.attempt].identity == Some(r.identity)
    && r.changeRequest in s.changeRequests
    && s.changeRequests[r.changeRequest].authoritative == r.attempt
    && s.changeRequests[r.changeRequest].standing == Some(r.attempt)
    && s.changeRequests[r.changeRequest].gate == Some(Blocked)
    && (r.attempt, r.fingerprint) !in s.bypasses
  }

  lemma BypassCases(env: Env, s: Store, now: int, r: BypassRequest)
    requires s.Valid()
    ensures r.attempt in s.attempts ==> Located(s.attempts, s.changeRequests, r.attempt)
    ensures var step := ApplyBypass(env, s, now, r);
      || step.store == s
      || (Grantable(s, r) && step.Unsafe() && step.store == Granted(s, now, r))
      || (Grantable(s, r) && step == SettleGate(GrantedLog(s, now, r), now, r, GrantRecord(s, now, r)))
  {
    assert r.attempt in s.attempts ==> Located(s.attempts, s.changeRequests, r.attempt);
  }

  lemma MoveGateShape(s: Store, now: int, r: BypassRequest, covered: bool)
    requires r.changeRequest in s.changeRequests && s.changeRequests[r.changeRequest].gate.Some?
    ensures var t := MoveGate(s, now, r, covered);
      var l := r.changeRequest;
      && l in t.changeRequests
      && t == s.(changeRequests := s.changeRequests[l := t.changeRequests[l]], audit := t.audit)
      && t.changeRequests[l] == s.changeRequests[l].(gate := t.changeRequests[l].gate)
      && t.changeRequests[l].gate == if covered then Some(PassedWithBypass) else s.changeRequests[l].gate
  {
  }

  lemma ReviseShape(s: Store, now: int, r: BypassRequest, gate: GateState, accepted: nat, remaining: nat)
    requires r.changeRequest in s.changeRequests
    ensures var t := Revise(s, now, r, gate, accepted, remaining);
      var l := r.changeRequest;
      && l in t.changeRequests
      && t == s.(changeRequests := s.changeRequests[l := t.changeRequests[l]], intents := t.intents, audit := t.audit)
      && t.changeRequests[l] == s.changeRequests[l].(revision := s.changeRequests[l].revision + 1)
      && |t.intents| == |s.intents| + 1
      && t.intents[..|s.intents|] == SupersedeIntents(s.intents, now, r.attempt)
      && t.intents[|s.intents|].attempt == r.attempt
      && t.intents[|s.intents|].revision == t.changeRequests[l].revision
      && t.intents[|s.intents|].gate == gate
  {
  }

  /** Settling revises the change request and ends with one intent for the new revision. */
  lemma SettleShape(s: Store, now: int, r: BypassRequest, record: Bypass)
    requires r.changeRequest in s.changeRequests && s.changeRequests[r.changeRequest].gate.Some?
    requires forall key <- s.bypassOrder :: key in s.bypasses
    ensures var t := SettleGate(s, now, r, record).store;
      var l := r.changeRequest;
      && l in t.changeRequests
      && t == s.(changeRequests := s.changeRequests[l := t.changeRequests[l]], intents := t.intents, audit := t.audit)
      && t.changeRequests[l].gate.Some?
      && t.changeRequests[l] ==
           s.changeRequests[l].(gate := t.changeRequests[l].gate, revision := s.changeRequests[l].revision + 1)
      && |t.intents| == |s.intents| + 1
      && t.intents[..|s.intents|] == SupersedeIntents(s.intents, now, r.attempt)
      && t.intents[|s.intents|].attempt == r.attempt
      && t.intents[|s.intents|].revision == t.changeRequests[l].revision
      && t.changeRequests[l].gate == Some(t.intents[|s.intents|].gate)
  {
    hide ActiveFingerprints, Uncovered, MoveGate, Revise;
    var active := ActiveFingerprints(s, r.attempt, |s.bypassOrder|);
    var remaining := Uncovered(r.blocking, active);
    var moved := MoveGate(s, now, r, remaining == []);
    MoveGateShape(s, now, r, remaining == []);
    ReviseShape(moved, now, r, moved.changeRequests[r.changeRequest].gate.GetOr(Blocked), |active|, |remaining|);
  }

  /** The gate moves when no blocking finding is left uncovered. */
  lemma SettleMoves(s: Store, now: int, r: BypassRequest, record: Bypass)
    requires r.changeRequest in s.changeRequests && s.changeRequests[r.changeRequest].gate.Some?
    requires forall key <- s.bypassOrder :: key in s.bypasses
    ensures var t := SettleGate(s, now, r, record).store;
      var remaining := Uncovered(r.blocking, ActiveFingerprints(s, r.attempt, |s.bypassOrder|));
      && r.changeRequest in t.changeRequests
      && t.changeRequests[r.changeRequest].gate ==
           if remaining == [] then Some(PassedWithBypass) else s.changeRequests[r.changeRequest].gate
  {
    hide ActiveFingerprints, Uncovered, MoveGate, Revise;
    var active := ActiveFingerprints(s, r.attempt, |s.bypassOrder|);
    var remaining := Uncovered(r.blocking, active);
    var moved := MoveGate(s, now, r, remaining == []);
    MoveGateShape(s, now, r, remaining == []);
    ReviseShape(moved, now, r, moved.changeRequests[r.changeRequest].gate.GetOr(Blocked), |active|, |remaining|);
  }

  lemma SettledSound(s: Store, now: int, r: BypassRequest)
    requires Sound(s) && s.Indexed() && Grantable(s, r)
    ensures forall key <- GrantedLog(s, now, r).bypassOrder :: key in GrantedLog(s, now, r).bypasses
    ensures Sound(SettleGate(GrantedLog(s, now, r), now, r, GrantRecord(s, now, r)).store)
  {
    hide Sound, SettleGate;
    SettleShape(GrantedLog(s, now, r), now, r, GrantRecord(s, now, r));
    GrantedSound(s, SettleGate(GrantedLog(s, now, r), now, r, GrantRecord(s, now, r)).store, r);
  }

  lemma ApplyBypassSound(env: Env, s: Store, now: int, r: BypassRequest)
    requires Sound(s) && s.Indexed()
    ensures var step := ApplyBypass(env, s, now, r);
      !step.Unsafe() ==> Sound(step.store)
  {
    hide ApplyBypass, SettleGate, Sound, Grantable;
    SoundLinked(s);
    var step := ApplyBypass(env, s, now, r);
    BypassCases(env, s, now, r);
    if !step.Unsafe() && step.store != s {
      SettledSound(s, now, r);
    }
  }

  lemma GrantedSound(s: Store, t: Store, r: BypassRequest)
    requires Sound(s) && r.attempt in s.attempts && s.attempts[r.attempt].changeRequest == r.changeRequest
    requires s.attempts[r.attempt].identity == Some(r.identity)
    requires var l := r.changeRequest;
      && l in s.changeRequests && l in t.changeRequests
      && s.changeRequests[l].standing == Some(r.attempt)
      && t.changeRequests == s.changeRequests[l := t.changeRequests[l]]
      && t.changeRequests[l].gate.Some?
      && t.changeRequests[l] ==
             s.changeRequests[l].(gate := t.changeRequests[l].gate, revision := t.changeRequests[l].revision)
    requires var key := (r.attempt, r.fingerprint);
      && key !in s.bypasses && key in t.bypasses
      && t.bypasses == s.bypasses[key := t.bypasses[key]]
      && t.bypasses[key].attempt == r.attempt && t.bypasses[key].fingerprint == r.fingerprint
      && t.bypasses[key].changeRequest == r.changeRequest && t.bypasses[key].identity == r.identity
    requires t.attempts == s.attempts && t.jobs == s.jobs
    ensures Sound(t)
  {
    LinksKept(s, t);
    assert AttemptsOk(t) by {
      forall b | b in t.attempts ensures AttemptOk(t, b) { assert AttemptOk(s, b); }
    }
    assert ChangeRequestsOk(t) by {
      forall m | m in t.changeRequests ensures ChangeRequestOk(t, m) { assert ChangeRequestOk(s, m); }
    }
    assert BypassesOk(t) by {
      forall key | key in t.bypasses
        ensures BypassOk(t, key)
      {
        if key in s.bypasses { assert BypassOk(s, key); }
      }
    }
  }
}
