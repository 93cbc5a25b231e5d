/**
 * What every step of the store keeps: authority and standing agree, bypasses and Check-sync
 * intents belong to the standing decision they were made for, and each change request's revision
 * equals the number of revision events in its audit trail.
 */
module StoreInvariants {
  import opened Prelude
  import opened Identity
  import opened Store

  // ---- the invariants -----------------------------------------------------------------

  ghost predicate AttemptOk(s: Store, a: AttemptId)
    requires s.Linked() && a in s.attempts
  {
    assert Located(s.attempts, s.changeRequests, a);
    var attempt := s.attempts[a];
    var authoritative := s.changeRequests[attempt.changeRequest].authoritative;
    && (attempt.Current() ==> authoritative == a)
    && (attempt.status.Superseded? ==> authoritative != a)
    && (attempt.status.Published? || attempt.status.AuditOnly? ==> s.jobs[a].status.Terminal())
    && (attempt.identity.Some? ==> Matches(attempt.identity.value, attempt.key))
  }

  ghost predicate ChangeRequestOk(s: Store, l: Locator)
    requires s.Linked() && l in s.changeRequests
  {
    assert Designated(s.changeRequests, s.attempts, l);
    var current := s.changeRequests[l];
    var attempt := s.attempts[current.authoritative];
    && attempt.changeRequest == l
    && attempt.key == current.key
    && (current.standing.Some? <==> current.gate.Some?)
    && (current.standing.Some? ==> current.standing.value == current.authoritative && attempt.status.Published?)
  }

  ghost predicate BypassOk(s: Store, key: BypassKey)
    requires s.Linked() && key in s.bypasses
  {
    var b := s.bypasses[key];
    && key == (b.attempt, b.fingerprint)
    && b.attempt in s.attempts
    && s.attempts[b.attempt].changeRequest == b.changeRequest
    && b.changeRequest in s.changeRequests
    && (b.active ==>
          && s.changeRequests[b.changeRequest].standing == Some(b.attempt)
          && s.attempts[b.attempt].identity == Some(b.identity))
  }

  ghost predicate AttemptsOk(s: Store)
    requires s.Linked()
  {
    forall a {:trigger AttemptOk(s, a)} :: a in s.attempts ==> AttemptOk(s, a)
  }

  ghost predicate ChangeRequestsOk(s: Store)
    requires s.Linked()
  {
    forall l {:trigger ChangeRequestOk(s, l)} :: l in s.changeRequests ==> ChangeRequestOk(s, l)
  }

  ghost predicate BypassesOk(s: Store)
    requires s.Linked()
  {
    forall key {:trigger BypassOk(s, key)} :: key in s.bypasses ==> BypassOk(s, key)
  }

  /** Authority, standing and bypasses agree with each other. */
  ghost predicate Sound(s: Store) {
    s.Linked() && AttemptsOk(s) && ChangeRequestsOk(s) && BypassesOk(s)
  }

  /** The intent states the change request's present revision. */
  ghost predicate UpToDate(s: Store, intent: Intent)
    requires s.Linked() && intent.attempt in s.attempts
  {
    assert Located(s.attempts, s.changeRequests, intent.attempt);
    intent.revision == s.changeRequests[s.attempts[intent.attempt].changeRequest].revision
  }

  ghost predicate IntentOk(s: Store, intent: Intent)
    requires s.Linked()
  {
    && intent.attempt in s.attempts
    && Located(s.attempts, s.changeRequests, intent.attempt)
    && var current := s.changeRequests[s.attempts[intent.attempt].changeRequest];
    && intent.revision <= current.revision
    && (UpToDate(s, intent) ==> current.standing == Some(intent.attempt) && current.gate == Some(intent.gate))
    && (intent.status.Live() ==> UpToDate(s, intent))
  }

  /** Later intents of a change request carry greater revisions. */
  ghost predicate Increasing(s: Store, earlier: Intent, later: Intent) {
    earlier.attempt in s.attempts && later.attempt in s.attempts &&
    s.attempts[earlier.attempt].changeRequest == s.attempts[later.attempt].changeRequest ==>
      earlier.revision < later.revision
  }

  /** Every intent speaks for its change request's standing decision as long as it is live. */
  ghost predicate Outbox(s: Store)
    requires s.Linked()
  {
    && (forall i {:trigger s.intents[i]} :: 0 <= i < |s.intents| ==> IntentOk(s, s.intents[i]))
    && (forall i, j {:trigger Increasing(s, s.intents[i], s.intents[j])} :: 0 <= i < j < |s.intents| ==>
          Increasing(s, s.intents[i], s.intents[j]))
  }

  predicate RevisionKind(kind: string) {
    || kind == "attempt_authoritative"
    || kind == "standing_decision_published"
    || kind == "standing_decision_invalidated"
    || kind == "bypass_authorized"
  }

  predicate IsRevisionEvent(e: AuditEvent, l: Locator) {
    e.changeRequest == l && RevisionKind(e.kind)
  }

  /** How many events of the audit trail stand for a revision of the change request. */
  function RevisionEvents(audit: seq<AuditEvent>, l: Locator): nat {
    if |audit| == 0 then 0
    else RevisionEvents(audit[..|audit| - 1], l) + if IsRevisionEvent(audit[|audit| - 1], l) then 1 else 0
  }

  ghost predicate Ledger(s: Store) {
    && (forall l :: l in s.changeRequests ==> RevisionEvents(s.audit, l) == s.changeRequests[l].revision + 1)
    && (forall l :: l !in s.changeRequests ==> RevisionEvents(s.audit, l) == 0)
  }

  // ---- auxiliary facts ----------------------------------------------------------------

  lemma LogCounts(s: Store, now: int, kind: string, m: Locator, a: Option<AttemptId>, actor: Actor, payload: Payload)
    ensures forall l :: RevisionEvents(s.Log(now, kind, m, a, actor, payload).audit, l) ==
                        RevisionEvents(s.audit, l) + if l == m && RevisionKind(kind) then 1 else 0
  {
    var logged := s.Log(now, kind, m, a, actor, payload);
    assert logged.audit[..|logged.audit| - 1] == s.audit;
  }

  ghost predicate SameRevisionEvents(a: seq<AuditEvent>, b: seq<AuditEvent>) {
    forall l :: RevisionEvents(a, l) == RevisionEvents(b, l)
  }

  /** Some of the change request's bypasses were expired; every other record is as it was. */
  ghost predicate Expired(before: map<BypassKey, Bypass>, after: map<BypassKey, Bypass>, l: Locator, now: int,
                          reason: string)
  {
    && after.Keys == before.Keys
    && forall key :: key in before ==>
         after[key] == before[key] ||
         (before[key].changeRequest == l && after[key] == ExpireBypass(before[key], now, reason))
  }

  ghost predicate NoneActive(s: Store, l: Locator, k: nat)
    requires forall key <- s.bypassOrder :: key in s.bypasses
  {
    forall i :: k <= i < |s.bypassOrder| && s.bypasses[s.bypassOrder[i]].changeRequest == l ==>
      !s.bypasses[s.bypassOrder[i]].active
  }

  /** Expiring touches bypasses and the audit trail only, and adds no revision event. */
  lemma {:induction false} ExpireFrame(env: Env, s: Store, now: int, l: Locator, reason: string, k: nat)
    requires forall key <- s.bypassOrder :: key in s.bypasses
    ensures var r := ExpireBypasses(env, s, now, l, reason, k);
      && r.store == s.(bypasses := r.store.bypasses, audit := r.store.audit)
      && SameRevisionEvents(r.store.audit, s.audit)
      && (r.result.Raised? ==> r.Unsafe())
    decreases |s.bypassOrder| - k
  {
    if k < |s.bypassOrder| {
      var key := s.bypassOrder[k];
      var b := s.bypasses[key];
      if b.changeRequest != l || !b.active {
        ExpireFrame(env, s, now, l, reason, k + 1);
      } else {
        var expired := s.(bypasses := s.bypasses[key := ExpireBypass(b, now, reason)]);
        var payload := BypassExpired(b.fingerprint, reason);
        if env.Accepts(payload) {
          var actor := Actor(b.actorId, Some(b.actorLogin));
          LogCounts(expired, now, "bypass_invalidated", l, Some(b.attempt), actor, payload);
          ExpireFrame(env, expired.Log(now, "bypass_invalidated", l, Some(b.attempt), actor, payload), now, l, reason,
            k + 1);
        }
      }
    }
  }

  lemma ExpiredOneMore(before: map<BypassKey, Bypass>, after: map<BypassKey, Bypass>, l: Locator, now: int,
                       reason: string, key: BypassKey)
    requires key in before && before[key].changeRequest == l
    requires Expired(before[key := ExpireBypass(before[key], now, reason)], after, l, now, reason)
    ensures Expired(before, after, l, now, reason) && !after[key].active
  {
    var middle := before[key := ExpireBypass(before[key], now, reason)];
    forall other | other in before
      ensures after[other] == before[other] ||
              (before[other].changeRequest == l && after[other] == ExpireBypass(before[other], now, reason))
    {
      assert other in middle;
    }
    assert key in middle;
  }

  lemma NoneActiveDown(s: Store, l: Locator, k: nat)
    requires forall key <- s.bypassOrder :: key in s.bypasses
    requires k < |s.bypassOrder| && NoneActive(s, l, k + 1)
    requires s.bypasses[s.bypassOrder[k]].changeRequest != l || !s.bypasses[s.bypassOrder[k]].active
    ensures NoneActive(s, l, k)
  {
  }

  /** Expiring that is not interrupted leaves no bypass of the change request active. */
  lemma {:induction false} ExpireAll(env: Env, s: Store, now: int, l: Locator, reason: string, k: nat)
    requires forall key <- s.bypassOrder :: key in s.bypasses
    ensures var r := ExpireBypasses(env, s, now, l, reason, k);
      && r.store.bypassOrder == s.bypassOrder
      && Expired(s.bypasses, r.store.bypasses, l, now, reason)
      && (r.result.Ok? ==> NoneActive(r.store, l, k))
    decreases |s.bypassOrder| - k
  {
    if k < |s.bypassOrder| {
      var r := ExpireBypasses(env, s, now, l, reason, k);
      var key := s.bypassOrder[k];
      var b := s.bypasses[key];
      if b.changeRequest != l || !b.active {
        ExpireAll(env, s, now, l, reason, k + 1);
        assert r == ExpireBypasses(env, s, now, l, reason, k + 1);
        if r.result.Ok? {
          NoneActiveDown(r.store, l, k);
        }
      } else {
        var expired := s.(bypasses := s.bypasses[key := ExpireBypass(b, now, reason)]);
        var payload := BypassExpired(b.fingerprint, reason);
        if env.Accepts(payload) {
          var actor := Actor(b.actorId, Some(b.actorLogin));
          var logged := expired.Log(now, "bypass_invalidated", l, Some(b.attempt), actor, payload);
          ExpireAll(env, logged, now, l, reason, k + 1);
          assert r == ExpireBypasses(env, logged, now, l, reason, k + 1);
          ExpiredOneMore(s.bypasses, r.store.bypasses, l, now, reason, key);
          if r.result.Ok? {
            NoneActiveDown(r.store, l, k);
          }
        } else {
          ExpiredOneMore(s.bypasses, expired.bypasses, l, now, reason, key);
        }
      }
    }
  }
}
