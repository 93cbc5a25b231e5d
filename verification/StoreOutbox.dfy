/** Each operation keeps the Check-sync outbox in step with the standing decisions. */
module StoreOutbox {
  import opened Prelude
  import opened Identity
  import opened Store
  import opened StoreInvariants
  import opened StoreSteps
  import opened StoreValid

  /** Every Attempt keeps its change request. */
  ghost predicate SamePlaces(s: Store, t: Store) {
    forall a {:trigger s.attempts[a]} :: a in s.attempts ==>
      a in t.attempts && t.attempts[a].changeRequest == s.attempts[a].changeRequest
  }

  ghost predicate SameStanding(s: Store, t: Store, l: Locator) {
    && l in s.changeRequests && l in t.changeRequests
    && t.changeRequests[l].revision == s.changeRequests[l].revision
    && t.changeRequests[l].standing == s.changeRequests[l].standing
    && t.changeRequests[l].gate == s.changeRequests[l].gate
  }

  lemma OutboxKept(s: Store, t: Store)
    requires s.Linked() && t.Linked() && Outbox(s)
    requires t.intents == s.intents && SamePlaces(s, t)
    requires forall l {:trigger SameStanding(s, t, l)} :: l in s.changeRequests ==> SameStanding(s, t, l)
    ensures Outbox(t)
  {
    forall i | 0 <= i < |t.intents|
      ensures IntentOk(t, t.intents[i])
    {
      var intent := s.intents[i];
      assert IntentOk(s, intent);
      assert Located(t.attempts, t.changeRequests, intent.attempt);
      assert SameStanding(s, t, s.attempts[intent.attempt].changeRequest);
    }
    forall i, j | 0 <= i < j < |t.intents|
      ensures Increasing(t, t.intents[i], t.intents[j])
    {
      assert IntentOk(s, s.intents[i]) && IntentOk(s, s.intents[j]);
      assert Increasing(s, s.intents[i], s.intents[j]);
    }
  }

  function Superseding(intents: seq<Intent>, now: int, x: Option<AttemptId>): seq<Intent> {
    if x.Some? then SupersedeIntents(intents, now, x.value) else intents
  }

  /** A revision of one change request that supersedes the live intents of its standing Attempt. */
  ghost predicate Bumps(s: Store, t: Store, l: Locator, x: Option<AttemptId>) {
    && l in s.changeRequests && l in t.changeRequests
    && t.changeRequests[l].revision == s.changeRequests[l].revision + 1
    && (s.changeRequests[l].standing.None? || s.changeRequests[l].standing == x)
    && (forall m {:trigger SameStanding(s, t, m)} :: m in s.changeRequests && m != l ==> SameStanding(s, t, m))
  }

  lemma OutboxBumped(s: Store, t: Store, now: int, l: Locator, x: Option<AttemptId>)
    requires s.Linked() && t.Linked() && Outbox(s)
    requires SamePlaces(s, t) && Bumps(s, t, l, x)
    requires t.intents == Superseding(s.intents, now, x)
    ensures Outbox(t)
    ensures forall i :: 0 <= i < |t.intents| && t.attempts[t.intents[i].attempt].changeRequest == l ==>
      t.intents[i].revision < t.changeRequests[l].revision
  {
    forall i | 0 <= i < |t.intents|
      ensures IntentOk(t, t.intents[i])
      ensures t.attempts[t.intents[i].attempt].changeRequest == l ==>
                t.intents[i].revision < t.changeRequests[l].revision
    {
      var intent := s.intents[i];
      assert IntentOk(s, intent);
      assert Located(t.attempts, t.changeRequests, intent.attempt);
      var m := s.attempts[intent.attempt].changeRequest;
      if m != l { assert SameStanding(s, t, m); }
    }
    forall i, j | 0 <= i < j < |t.intents|
      ensures Increasing(t, t.intents[i], t.intents[j])
    {
      assert IntentOk(s, s.intents[i]) && IntentOk(s, s.intents[j]);
      assert Increasing(s, s.intents[i], s.intents[j]);
    }
  }

  /** The operations on one job and the recording of an identity leave decisions and intents alone. */
  lemma OutboxUntouched(s: Store, t: Store)
    requires s.Linked() && Outbox(s) && SameKeys(s, t)
    requires t.changeRequests == s.changeRequests && t.intents == s.intents
    ensures t.Linked() && Outbox(t)
  {
    LinksKept(s, t);
    OutboxKept(s, t);
  }

  lemma DesignateOutbox(s: Store, r: Store, now: int, newId: AttemptId, l: Locator, key: RequestKey,
                        delivery: Option<string>, lease: Lease)
    requires Sound(s) && Outbox(s) && r.Linked() && SamePlaces(s, r) && newId !in r.attempts
    requires r.changeRequests == s.changeRequests
    requires r.intents == Superseding(s.intents, now, Prior(s, l))
    ensures var t := Designate(r, now, newId, l, key, delivery, lease);
      t.Linked() && Outbox(t)
  {
    var t := Designate(r, now, newId, l, key, delivery, lease);
    DesignateLinked(r, now, newId, l, key, delivery, lease);
    assert SamePlaces(s, t);
    if l in s.changeRequests {
      assert ChangeRequestOk(s, l);
      OutboxBumped(s, t, now, l, Prior(s, l));
    } else {
      OutboxKept(s, t);
    }
  }

  lemma VacatePlaces(env: Env, s: Store, now: int, l: Locator)
    requires s.Valid() && Vacate(env, s, now, l).result.Ok?
    ensures var r := Vacate(env, s, now, l).store;
      && SamePlaces(s, r)
      && r.changeRequests == s.changeRequests
      && r.intents == Superseding(s.intents, now, Prior(s, l))
      && r.attempts.Keys == s.attempts.Keys
      && SameRevisionEvents(r.audit, s.audit)
  {
    if l in s.changeRequests {
      assert Designated(s.changeRequests, s.attempts, l);
      RetireEffect(env, s, now, l, s.changeRequests[l].authoritative);
    }
  }

  lemma VacateLinked(env: Env, s: Store, now: int, l: Locator)
    requires s.Valid()
    ensures Vacate(env, s, now, l).store.Linked()
  {
    VacateKeys(env, s, now, l);
    ValidKept(s, Vacate(env, s, now, l).store);
  }

  lemma StartOutbox(env: Env, s: Store, now: int, newId: AttemptId, l: Locator, key: RequestKey,
                    expected: Option<AttemptId>, delivery: Option<string>)
    requires Sound(s) && s.Indexed() && Outbox(s) && newId !in s.attempts
    ensures var step := Start(env, s, now, newId, l, key, expected, delivery);
      !step.Unsafe() ==> step.store.Linked() && Outbox(step.store)
  {
    hide Start, Vacate, Designate, Outbox, Sound;
    SoundLinked(s);
    var step := Start(env, s, now, newId, l, key, expected, delivery);
    StartCases(env, s, now, newId, l, key, expected, delivery);
    if !step.Unsafe() && step.store != s {
      VacateResult(env, s, now, l);
      VacatePlaces(env, s, now, l);
      VacateLinked(env, s, now, l);
      var d := AfterDesignation(env, s, now, newId, l, key, delivery);
      DesignateOutbox(s, Vacate(env, s, now, l).store, now, newId, l, key, delivery, NewLease(s, newId, l, key));
      TrailKeys(d, step.store);
      OutboxUntouched(d, step.store);
    }
  }

  lemma DecideOutbox(env: Env, s: Store, now: int, a: AttemptId, gate: GateState)
    requires Sound(s) && Outbox(s) && a in s.attempts && s.attempts[a].status.Running?
    requires Located(s.attempts, s.changeRequests, a) &&
             s.changeRequests[s.attempts[a].changeRequest].authoritative == a
    ensures var t := Decide(env, s, now, a, gate).store;
      (Decide(env, s, now, a, gate).Unsafe() || t.Linked()) && (t.Linked() ==> Outbox(t))
  {
    var l := s.attempts[a].changeRequest;
    var t := Decide(env, s, now, a, gate).store;
    DecideKeys(env, s, now, a, gate);
    LinksKept(s, t);
    assert ChangeRequestOk(s, l);
    OutboxBumped(s, t, now, l, None);
  }

  lemma KeptForAuditOutbox(env: Env, s: Store, now: int, a: AttemptId)
    requires s.Linked() && Outbox(s) && a in s.attempts
    ensures var t := KeepForAudit(env, s, now, a).store; t.Linked() && Outbox(t)
  {
    KeepForAuditKeys(env, s, now, a);
    OutboxUntouched(s, KeepForAudit(env, s, now, a).store);
  }

  lemma PublishOutbox(env: Env, s: Store, now: int, a: AttemptId, key: RequestKey, identity: Option<ReviewIdentity>,
                      gate: GateState)
    requires Sound(s) && Outbox(s)
    ensures var t := Publish(env, s, now, a, key, identity, gate).store; t.Linked() && Outbox(t)
  {
    hide Publish, Decide, KeepForAudit, PublicationInputsMatch, Sound, Outbox;
    SoundLinked(s);
    var t := Publish(env, s, now, a, key, identity, gate).store;
    PublishCases(env, s, now, a, key, identity, gate);
    if t != s {
      if !s.attempts[a].status.Published? && t == KeepForAudit(env, s, now, a).store {
        KeptForAuditOutbox(env, s, now, a);
      } else {
        PublishKeys(env, s, now, a, key, identity, gate);
        LinksKept(s, t);
        DecideOutbox(env, s, now, a, gate);
      }
    }
  }

  lemma InvalidateOutbox(env: Env, s: Store, now: int, l: Locator, reason: string)
    requires Sound(s) && s.Indexed() && Outbox(s)
    ensures var step := Invalidate(env, s, now, l, reason);
      step.store.Linked() && (!step.Unsafe() ==> Outbox(step.store))
  {
    hide ExpireBypasses, Outbox;
    var step := Invalidate(env, s, now, l, reason);
    InvalidateKeys(env, s, now, l, reason);
    LinksKept(s, step.store);
    if l in s.changeRequests && !step.Unsafe() {
      ExpireEffect(env, ClearStanding(s, l), now, l, reason);
      assert ChangeRequestOk(s, l);
      OutboxBumped(s, step.store, now, l, s.changeRequests[l].standing);
    }
  }

  /** A new intent that states the present revision. */
  lemma OutboxAppended(s: Store, t: Store, intent: Intent)
    requires s.Linked() && Outbox(s) && t == s.(intents := s.intents + [intent], audit := t.audit)
    requires IntentOk(s, intent)
    requires forall i :: 0 <= i < |s.intents| ==> Increasing(s, s.intents[i], intent)
    ensures t.Linked() && Outbox(t)
  {
    LinksKept(s, t);
    forall i | 0 <= i < |t.intents|
      ensures IntentOk(t, t.intents[i])
    {
      if i < |s.intents| { assert IntentOk(s, s.intents[i]); }
    }
    forall i, j | 0 <= i < j < |t.intents|
      ensures Increasing(t, t.intents[i], t.intents[j])
    {
      if j < |s.intents| { assert Increasing(s, s.intents[i], s.intents[j]); }
    }
  }

  lemma SettleOutbox(s: Store, now: int, r: BypassRequest, record: Bypass)
    requires s.Linked() && Outbox(s)
    requires forall key <- s.bypassOrder :: key in s.bypasses
    requires r.attempt in s.attempts && s.attempts[r.attempt].changeRequest == r.changeRequest
    requires r.changeRequest in s.changeRequests && s.changeRequests[r.changeRequest].standing == Some(r.attempt)
    requires s.changeRequests[r.changeRequest].gate.Some?
    ensures var t := SettleGate(s, now, r, record).store; t.Linked() && Outbox(t)
  {
    hide SettleGate, Outbox;
    SettleShape(s, now, r, record);
    var l := r.changeRequest;
    var t := SettleGate(s, now, r, record).store;
    var intent := t.intents[|s.intents|];
    var bumped := t.(intents := SupersedeIntents(s.intents, now, r.attempt));
    ChangeRequestTouchKeys(s, bumped, l);
    LinksKept(s, bumped);
    OutboxBumped(s, bumped, now, l, Some(r.attempt));
    assert Located(bumped.attempts, bumped.changeRequests, r.attempt);
    assert t.intents == bumped.intents + [intent];
    KnownAttempts(bumped);
    LatestIncreases(bumped, l, intent);
    OutboxAppended(bumped, t, intent);
  }

  lemma KnownAttempts(s: Store)
    requires s.Linked() && Outbox(s)
    ensures forall i :: 0 <= i < |s.intents| ==> s.intents[i].attempt in s.attempts
  {
    forall i | 0 <= i < |s.intents| ensures s.intents[i].attempt in s.attempts {
      assert IntentOk(s, s.intents[i]);
    }
  }

  lemma LatestIncreases(s: Store, l: Locator, intent: Intent)
    requires s.Linked() && Outbox(s) && l in s.changeRequests
    requires intent.attempt in s.attempts && s.attempts[intent.attempt].changeRequest == l
    requires forall i :: 0 <= i < |s.intents| ==>
               s.intents[i].attempt in s.attempts &&
               (s.attempts[s.intents[i].attempt].changeRequest == l ==> s.intents[i].revision < intent.revision)
    ensures forall i :: 0 <= i < |s.intents| ==> Increasing(s, s.intents[i], intent)
  {
  }

  lemma ApplyBypassOutbox(env: Env, s: Store, now: int, r: BypassRequest)
    requires Sound(s) && s.Valid() && Outbox(s)
    ensures var step := ApplyBypass(env, s, now, r);
      step.store.Linked() && Outbox(step.store)
  {
    var step := ApplyBypass(env, s, now, r);
    if step.store != s {
      assert Located(s.attempts, s.changeRequests, r.attempt);
      var record := GrantRecord(s, now, r);
      var granted := Granted(s, now, r);
      var logged := GrantedLog(s, now, r);
      LinksKept(s, granted);
      OutboxKept(s, granted);
      if !step.Unsafe() {
        LinksKept(s, logged);
        OutboxKept(s, logged);
        SettleOutbox(logged, now, r, record);
      }
    }
  }

  /** Changing one intent's delivery fields. */
  lemma OutboxUpdated(s: Store, t: Store, i: nat, intent: Intent)
    requires s.Linked() && Outbox(s) && i < |s.intents|
    requires t == s.(intents := s.intents[i := intent])
    requires intent.attempt == s.intents[i].attempt && intent.revision == s.intents[i].revision
    requires intent.gate == s.intents[i].gate
    ensures t.Linked()
    ensures Outbox(t) <==> (intent.status.Live() ==> s.intents[i].attempt in s.attempts && UpToDate(s, s.intents[i]))
  {
    LinksKept(s, t);
    assert IntentOk(s, s.intents[i]);
    if intent.status.Live() ==> UpToDate(s, s.intents[i]) {
      forall j | 0 <= j < |t.intents|
        ensures IntentOk(t, t.intents[j])
      {
        assert IntentOk(s, s.intents[j]);
      }
      forall j, k | 0 <= j < k < |t.intents|
        ensures Increasing(t, t.intents[j], t.intents[k])
      {
        assert Increasing(s, s.intents[j], s.intents[k]);
      }
    } else {
      assert !IntentOk(t, t.intents[i]);
    }
  }

  lemma ClaimSyncOutbox(s: Store, now: int, leaseTicks: int)
    requires s.Linked() && Outbox(s)
    ensures var t := ClaimSync(s, now, leaseTicks).store; t.Linked() && Outbox(t)
  {
    var step := ClaimSync(s, now, leaseTicks);
    if step.result.value.Some? {
      var i := step.result.value.value;
      assert IntentOk(s, s.intents[i]);
      OutboxUpdated(s, step.store, i, ClaimedIntent(s.intents[i], now, leaseTicks));
    }
  }

  /**
   * Marking an intent keeps the outbox in step exactly when it does not put an intent that has
   * fallen behind back to work: the new status is not live, or the intent states the present
   * revision.
   */
  lemma MarkSyncOutbox(s: Store, now: int, intentId: int, status: SyncStatus, lastError: Option<string>,
                       nextRetryAt: Option<int>)
    requires s.Linked() && Outbox(s) && 1 <= intentId <= |s.intents|
    ensures var t := MarkSync(s, now, intentId, status, lastError, nextRetryAt).store;
      var intent := s.intents[intentId - 1];
      && t.Linked()
      && intent.attempt in s.attempts
      && (Outbox(t) <==> !status.Live() || UpToDate(s, intent))
  {
    var t := MarkSync(s, now, intentId, status, lastError, nextRetryAt).store;
    assert IntentOk(s, s.intents[intentId - 1]);
    OutboxUpdated(s, t, intentId - 1, t.intents[intentId - 1]);
  }
}
