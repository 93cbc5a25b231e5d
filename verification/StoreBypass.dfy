/** Bypasses: whom they belong to, and when the standing gate counts as passed with bypass. */
module StoreBypass {
  import opened Prelude
  import opened Identity
  import opened Store
  import opened StoreInvariants
  import opened StoreSteps
  import opened StoreValid
  import opened StoreOutbox
  import opened StoreLedger
  import opened StoreCommands
  import opened StoreRuns

  /** The fingerprints whose risk is accepted on an Attempt. */
  ghost function Accepted(s: Store, a: AttemptId): set<string> {
    set key | key in s.bypasses && key.0 == a && s.bypasses[key].active :: key.1
  }

  lemma {:induction false} ActiveMeansAccepted(s: Store, a: AttemptId, k: nat, f: string)
    requires s.Linked() && BypassesOk(s) && k <= |s.bypassOrder|
    requires forall key <- s.bypassOrder :: key in s.bypasses
    ensures f in ActiveFingerprints(s, a, k) <==>
            exists i :: 0 <= i < k && s.bypassOrder[i] == (a, f) && s.bypasses[s.bypassOrder[i]].active
  {
    if k > 0 {
      ActiveMeansAccepted(s, a, k - 1, f);
      assert BypassOk(s, s.bypassOrder[k - 1]);
    }
  }

  /** The listing the store computes is exactly the set of accepted fingerprints. */
  lemma ActiveFingerprintsExact(s: Store, a: AttemptId)
    requires s.Valid() && BypassesOk(s)
    ensures forall f :: f in ActiveFingerprints(s, a, |s.bypassOrder|) <==> f in Accepted(s, a)
  {
    forall f
      ensures f in ActiveFingerprints(s, a, |s.bypassOrder|) <==> f in Accepted(s, a)
    {
      ActiveMeansAccepted(s, a, |s.bypassOrder|, f);
      if f in Accepted(s, a) { assert (a, f) in s.bypassOrder; }
    }
  }

  lemma {:induction false} UncoveredEmpty(blocking: seq<string>, active: seq<string>)
    ensures Uncovered(blocking, active) == [] <==> forall f :: f in blocking ==> f in active
  {
    if |blocking| > 0 {
      UncoveredEmpty(blocking[..|blocking| - 1], active);
      assert forall f :: f in blocking <==> f in blocking[..|blocking| - 1] || f == blocking[|blocking| - 1];
    }
  }

  /** In every run an active bypass belongs to the standing Attempt and carries its identity. */
  lemma ActiveBypassStands(env: Env, states: seq<Store>, cs: seq<Command>, n: nat, key: BypassKey)
    requires IsRun(env, states, cs) && n <= |cs|
    requires key in states[n].bypasses && states[n].bypasses[key].active
    ensures var s := states[n];
      var b := s.bypasses[key];
      && key == (b.attempt, b.fingerprint)
      && b.attempt in s.attempts
      && s.attempts[b.attempt].changeRequest == b.changeRequest
      && b.changeRequest in s.changeRequests
      && s.changeRequests[b.changeRequest].standing == Some(b.attempt)
      && s.changeRequests[b.changeRequest].authoritative == b.attempt
      && s.attempts[b.attempt].identity == Some(b.identity)
  {
    hide Apply;
    RunSound(env, states, cs, n);
    assert BypassOk(states[n], key);
    assert ChangeRequestOk(states[n], states[n].bypasses[key].changeRequest);
  }

  // ---- the gate of a Blocked decision ----------------------------------------------------------

  /** The Attempt is not published as bypassed, and every bypass call on it names the same findings. */
  predicate Consistent(c: Command, a: AttemptId, blocking: set<string>) {
    && (c.DoPublish? && c.a == a ==> c.gate != PassedWithBypass)
    && (c.DoBypass? && c.request.attempt == a ==> Elements(c.request.blocking) == blocking)
  }

  ghost predicate Stands(s: Store, a: AttemptId) {
    && a in s.attempts
    && s.attempts[a].changeRequest in s.changeRequests
    && s.changeRequests[s.attempts[a].changeRequest].standing == Some(a)
  }

  ghost function StandingGate(s: Store, a: AttemptId): Option<GateState>
    requires Stands(s, a)
  {
    s.changeRequests[s.attempts[a].changeRequest].gate
  }

  /** While the Attempt stands with a Blocked or bypassed gate, bypassed means all are accepted. */
  ghost predicate GateCovers(s: Store, a: AttemptId, blocking: set<string>) {
    Stands(s, a) && StandingGate(s, a) in {Some(Blocked), Some(PassedWithBypass)} ==>
      (StandingGate(s, a) == Some(PassedWithBypass) <==> blocking <= Accepted(s, a))
  }

  /** The Attempt's decision and bypasses are as they were. */
  ghost predicate SameDecision(s: Store, t: Store, a: AttemptId) {
    Stands(t, a) ==>
      && Stands(s, a)
      && StandingGate(s, a) == StandingGate(t, a)
      && Accepted(t, a) == Accepted(s, a)
  }

  lemma AcceptedKept(s: Store, t: Store, a: AttemptId)
    requires forall key {:trigger key in t.bypasses} :: key in t.bypasses && key.0 == a ==> key in s.bypasses
    requires forall key {:trigger key in s.bypasses} :: key in s.bypasses && key.0 == a ==>
      key in t.bypasses && t.bypasses[key].active == s.bypasses[key].active
    ensures Accepted(t, a) == Accepted(s, a)
  {
  }

  lemma FarExpiryDecision(s: Store, t: Store, a: AttemptId, l: Locator, now: int, reason: string)
    requires Sound(s) && a in s.attempts && s.attempts[a].changeRequest != l
    requires Expired(s.bypasses, t.bypasses, l, now, reason)
    ensures Accepted(t, a) == Accepted(s, a)
  {
    forall key | key in s.bypasses && key.0 == a
      ensures t.bypasses[key].active == s.bypasses[key].active
    {
      assert BypassOk(s, key);
    }
    AcceptedKept(s, t, a);
  }

  lemma QuietDecision(s: Store, t: Store, a: AttemptId)
    requires OnlyJobs(s, t)
    ensures SameDecision(s, t, a)
  {
  }

  /** Retiring the prior Attempt of a change request leaves decisions elsewhere alone. */
  lemma VacateElsewhere(env: Env, s: Store, now: int, l: Locator, a: AttemptId)
    requires s.Valid() && Sound(s) && Vacate(env, s, now, l).result.Ok?
    requires a in s.attempts && s.attempts[a].changeRequest != l
    ensures Accepted(Vacate(env, s, now, l).store, a) == Accepted(s, a)
    ensures var r := Vacate(env, s, now, l).store;
      a in r.attempts && r.attempts[a].changeRequest == s.attempts[a].changeRequest
  {
    VacatePlaces(env, s, now, l);
    if l in s.changeRequests {
      assert Designated(s.changeRequests, s.attempts, l);
      RetireEffect(env, s, now, l, s.changeRequests[l].authoritative);
      FarExpiryDecision(s, Vacate(env, s, now, l).store, a, l, now, SupersededReason);
    }
  }

  lemma StartDecision(env: Env, s: Store, c: Command, a: AttemptId)
    requires s.Valid() && Sound(s) && c.DoStart? && Admissible(s, c) &&
             !Start(env, s, c.now, c.newId, c.l, c.key, c.expected, c.delivery).Unsafe()
    ensures SameDecision(s, Start(env, s, c.now, c.newId, c.l, c.key, c.expected, c.delivery).store, a)
  {
    hide Start, Vacate, Sound;
    var t := Start(env, s, c.now, c.newId, c.l, c.key, c.expected, c.delivery).store;
    StartCases(env, s, c.now, c.newId, c.l, c.key, c.expected, c.delivery);
    VacateResult(env, s, c.now, c.l);
    if t != s && Stands(t, a) {
      VacatePlaces(env, s, c.now, c.l);
      assert t.changeRequests[c.l].standing == None;
      assert a != c.newId && a in s.attempts && s.attempts[a].changeRequest != c.l;
      VacateElsewhere(env, s, c.now, c.l, a);
      AcceptedKept(Vacate(env, s, c.now, c.l).store, t, a);
    }
  }

  lemma InvalidateDecision(env: Env, s: Store, c: Command, a: AttemptId)
    requires s.Valid() && Sound(s) && c.DoInvalidate? && !Invalidate(env, s, c.now, c.l, c.text).Unsafe()
    ensures SameDecision(s, Invalidate(env, s, c.now, c.l, c.text).store, a)
  {
    hide ExpireBypasses;
    var t := Invalidate(env, s, c.now, c.l, c.text).store;
    if c.l in s.changeRequests {
      ExpireEffect(env, ClearStanding(s, c.l), c.now, c.l, c.text);
      if Stands(t, a) { FarExpiryDecision(s, t, a, c.l, c.now, c.text); }
    }
  }

  lemma KeptForAuditDecision(env: Env, s: Store, now: int, b: AttemptId, a: AttemptId)
    requires s.Linked() && b in s.attempts
    ensures SameDecision(s, KeepForAudit(env, s, now, b).store, a)
  {
    AcceptedKept(s, KeepForAudit(env, s, now, b).store, a);
  }

  /** A publication installs a decision nobody has accepted a risk on yet. */
  lemma DecideCovers(env: Env, s: Store, now: int, b: AttemptId, gate: GateState, a: AttemptId, blocking: set<string>)
    requires Sound(s) && b in s.attempts && s.attempts[b].status.Running?
    requires Located(s.attempts, s.changeRequests, b) &&
             s.changeRequests[s.attempts[b].changeRequest].authoritative == b
    requires gate != PassedWithBypass && blocking != {} && GateCovers(s, a, blocking)
    ensures GateCovers(Decide(env, s, now, b, gate).store, a, blocking)
  {
    var t := Decide(env, s, now, b, gate).store;
    AcceptedKept(s, t, a);
    if b == a {
      assert ChangeRequestOk(s, s.attempts[a].changeRequest);
      forall key | key in s.bypasses && key.0 == a
        ensures !s.bypasses[key].active
      {
        assert BypassOk(s, key);
      }
      assert Accepted(t, a) == {};
    }
  }

  lemma DecideElsewhere(env: Env, s: Store, now: int, b: AttemptId, gate: GateState, a: AttemptId)
    requires s.Linked() && b in s.attempts && b != a && Located(s.attempts, s.changeRequests, b)
    ensures SameDecision(s, Decide(env, s, now, b, gate).store, a)
  {
    AcceptedKept(s, Decide(env, s, now, b, gate).store, a);
  }

  lemma SameDecisionCovers(s: Store, t: Store, a: AttemptId, blocking: set<string>)
    requires GateCovers(s, a, blocking) && SameDecision(s, t, a)
    ensures GateCovers(t, a, blocking)
  {
  }

  lemma PublishCovers(env: Env, s: Store, c: Command, a: AttemptId, blocking: set<string>)
    requires s.Valid() && Sound(s) && c.DoPublish? && Consistent(c, a, blocking) && blocking != {}
    requires GateCovers(s, a, blocking)
    ensures GateCovers(Publish(env, s, c.now, c.a, c.key, c.recorded, c.gate).store, a, blocking)
  {
    hide Publish, KeepForAudit, Decide, GateCovers, SameDecision, Sound;
    var t := Publish(env, s, c.now, c.a, c.key, c.recorded, c.gate).store;
    PublishCases(env, s, c.now, c.a, c.key, c.recorded, c.gate);
    if c.a in s.attempts {
      KeptForAuditDecision(env, s, c.now, c.a, a);
      if t == KeepForAudit(env, s, c.now, c.a).store {
        SameDecisionCovers(s, t, a, blocking);
      } else if t != s {
        if c.a == a {
          DecideCovers(env, s, c.now, c.a, c.gate, a, blocking);
        } else {
          DecideElsewhere(env, s, c.now, c.a, c.gate, a);
          SameDecisionCovers(s, t, a, blocking);
        }
      }
    }
  }

  /** The gate moves exactly when the accepted fingerprints cover the blocking ones. */
  lemma SettleCovers(g: Store, now: int, r: BypassRequest, record: Bypass)
    requires g.Valid() && BypassesOk(g) && r.changeRequest in g.changeRequests
    requires g.changeRequests[r.changeRequest].gate == Some(Blocked)
    ensures var t := SettleGate(g, now, r, record).store;
      && t.attempts == g.attempts && t.bypasses == g.bypasses
      && r.changeRequest in t.changeRequests
      && t.changeRequests[r.changeRequest].standing == g.changeRequests[r.changeRequest].standing
      && (t.changeRequests[r.changeRequest].gate == Some(PassedWithBypass) <==>
            Elements(r.blocking) <= Accepted(g, r.attempt))
  {
    hide SettleGate;
    SettleShape(g, now, r, record);
    SettleMoves(g, now, r, record);
    ActiveFingerprintsExact(g, r.attempt);
    UncoveredEmpty(r.blocking, ActiveFingerprints(g, r.attempt, |g.bypassOrder|));
  }

  lemma GrantedGood(s: Store, now: int, r: BypassRequest)
    requires s.Valid() && Sound(s) && r.attempt in s.attempts && s.attempts[r.attempt].changeRequest == r.changeRequest
    requires s.attempts[r.attempt].identity == Some(r.identity)
    requires r.changeRequest in s.changeRequests && s.changeRequests[r.changeRequest].standing == Some(r.attempt)
    requires s.changeRequests[r.changeRequest].gate.Some?
    requires (r.attempt, r.fingerprint) !in s.bypasses
    ensures GrantedLog(s, now, r).Valid() && BypassesOk(GrantedLog(s, now, r))
  {
    var g := GrantedLog(s, now, r);
    OrderedAppend(s.bypasses, s.bypassOrder, (r.attempt, r.fingerprint), GrantRecord(s, now, r));
    GrantedSound(s, g, r);
  }

  /** A bypass call leaves a change request it is not about as it was. */
  lemma BypassElsewhere(g: Store, now: int, r: BypassRequest, record: Bypass, s: Store, a: AttemptId)
    requires Grantable(s, r) && g == GrantedLog(s, now, r) && r.attempt != a
    requires forall key <- g.bypassOrder :: key in g.bypasses
    ensures SameDecision(s, SettleGate(g, now, r, record).store, a)
  {
    var t := SettleGate(g, now, r, record).store;
    var key := (r.attempt, r.fingerprint);
    assert t.bypasses == s.bypasses[key := t.bypasses[key]];
    AcceptedKept(s, t, a);
    assert t.attempts == s.attempts;
    assert t.changeRequests == s.changeRequests[r.changeRequest := t.changeRequests[r.changeRequest]];
    assert t.changeRequests[r.changeRequest].standing == Some(r.attempt);
  }

  lemma BypassCovers(env: Env, s: Store, c: Command, a: AttemptId, blocking: set<string>)
    requires s.Valid() && Sound(s) && c.DoBypass? && Consistent(c, a, blocking) &&
             !ApplyBypass(env, s, c.now, c.request).Unsafe()
    requires GateCovers(s, a, blocking)
    ensures GateCovers(ApplyBypass(env, s, c.now, c.request).store, a, blocking)
  {
    var r := c.request;
    BypassCases(env, s, c.now, r);
    if ApplyBypass(env, s, c.now, r).store != s {
      GrantedGood(s, c.now, r);
      if r.attempt == a {
        SettleCovers(GrantedLog(s, c.now, r), c.now, r, GrantRecord(s, c.now, r));
      } else {
        BypassElsewhere(GrantedLog(s, c.now, r), c.now, r, GrantRecord(s, c.now, r), s, a);
      }
    }
  }

  lemma StepCovers(env: Env, s: Store, c: Command, a: AttemptId, blocking: set<string>)
    requires s.Valid() && Sound(s) && Admissible(s, c) && !Apply(env, s, c).cutShort
    requires Consistent(c, a, blocking) && blocking != {} && GateCovers(s, a, blocking)
    ensures GateCovers(Apply(env, s, c).store, a, blocking)
  {
    hide Start, Claim, Recover, MarkRetryable, Finalize, Publish, Invalidate, ApplyBypass, GateCovers, SameDecision;
    var t := Apply(env, s, c).store;
    if c.DoPublish? {
      PublishCovers(env, s, c, a, blocking);
    } else if c.DoBypass? {
      BypassCovers(env, s, c, a, blocking);
    } else {
      if Quiet(c) {
        QuietStep(env, s, c);
        QuietDecision(s, t, a);
      } else if c.DoStart? {
        StartDecision(env, s, c, a);
      } else if c.DoInvalidate? {
        InvalidateDecision(env, s, c, a);
      } else {
        SyncDecision(s, t, a);
      }
      SameDecisionCovers(s, t, a, blocking);
    }
  }

  lemma SyncDecision(s: Store, t: Store, a: AttemptId)
    requires t == s.(intents := t.intents)
    ensures SameDecision(s, t, a)
  {
    AcceptedKept(s, t, a);
  }

  /**
   * For an Attempt whose bypass calls all name the same non-empty set of blocking findings: while
   * its Blocked decision stands, the gate is "passed with bypass" exactly when the accepted
   * fingerprints cover that set.
   */
  lemma {:induction false} BypassedMeansCovered(env: Env, states: seq<Store>, cs: seq<Command>, n: nat, a: AttemptId,
                                                blocking: set<string>)
    requires IsRun(env, states, cs) && n <= |cs| && blocking != {}
    requires forall j {:trigger cs[j]} :: 0 <= j < n ==> Consistent(cs[j], a, blocking)
    ensures GateCovers(states[n], a, blocking)
  {
    hide Apply;
    if n > 0 {
      BypassedMeansCovered(env, states, cs, n - 1, a, blocking);
      RunSound(env, states, cs, n - 1);
      TookWhole(env, states, cs, n - 1);
      StepCovers(env, states[n - 1], cs[n - 1], a, blocking);
    }
  }
}
