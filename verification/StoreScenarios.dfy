/** Concrete histories from the empty store in which an assumption fails, and what goes wrong then. */
module StoreScenarios {
  import opened Prelude
  import opened Identity
  import opened Store
  import opened StoreInvariants
  import opened StoreSteps
  import opened StoreValid
  import opened StoreOutbox
  import opened StoreLedger
  import opened StoreCommands
  import opened StoreRuns
  import opened StoreBypass
  import opened StoreRefusals

  // ---- a run up to a bypassed decision -----------------------------------------------------------

  function IdentityFor(key: RequestKey): ReviewIdentity {
    ReviewIdentity(
      MergeCandidate(key.sourceRepository, key.targetRef, key.targetHeadOid, key.proposedHeadOid, ""),
      key.policyVersion)
  }

  /** Somebody accepts the risk of the one blocking finding "f"; there is a Check to bring up to date. */
  function AcceptRisk(a: AttemptId, l: Locator, key: RequestKey): BypassRequest {
    BypassRequest(l, a, "f", None, "maintainer", "accepted", IdentityFor(key), "", ["f"], "", "", Some(7))
  }

  function BlockedCommands(a: AttemptId, l: Locator, key: RequestKey): seq<Command> {
    [DoStart(0, a, l, key, None, None),
     DoRecordIdentity(a, IdentityFor(key)),
     DoClaim(0, a),
     DoPublish(0, a, key, Some(IdentityFor(key)), Blocked)]
  }

  /** The first Attempt of the change request, at some point of its life. */
  function Alone(a: AttemptId, l: Locator, key: RequestKey, status: AttemptStatus, job: JobStatus,
                 identity: Option<ReviewIdentity>): Store
  {
    Empty.(
      changeRequests := map[l := ChangeRequest(key, a, None, None, 0)],
      attempts := map[a := Attempt(l, key, status, identity)],
      jobs := map[a := Job(job, 0, 0, None)],
      jobOrder := [a])
  }

  /** The Attempt's Blocked decision stands. */
  function StandsBlocked(a: AttemptId, l: Locator, key: RequestKey): Store {
    Alone(a, l, key, AttemptStatus.Published, JobStatus.Completed, Some(IdentityFor(key))).(
      changeRequests := map[l := ChangeRequest(key, a, Some(a), Some(Blocked), 1)])
  }

  /** The one blocking finding is accepted and its intent waits to be synchronized. */
  function StandsBypassed(a: AttemptId, l: Locator, key: RequestKey): Store {
    var r := AcceptRisk(a, l, key);
    StandsBlocked(a, l, key).(
      changeRequests := map[l := ChangeRequest(key, a, Some(a), Some(PassedWithBypass), 2)],
      bypasses := map[(a, "f") := GrantRecord(Empty, 0, r)],
      bypassOrder := [(a, "f")],
      intents := [Intent(a, 2, Some(7), SyncStatus.Queued, 0, None, None, None, PassedWithBypass, 1, 0, 0, 0)])
  }

  ghost predicate SameButTrail(s: Store, t: Store) {
    s == t.(audit := s.audit)
  }

  lemma Extend(env: Env, states: seq<Store>, cs: seq<Command>, c: Command) returns (more: seq<Store>, ds: seq<Command>)
    requires IsRun(env, states, cs)
    requires states[|cs|].Valid() && Admissible(states[|cs|], c) && PayloadsAccepted(env, states[|cs|], c)
    ensures IsRun(env, more, ds)
    ensures ds == cs + [c] && more == states + [Apply(env, states[|cs|], c).store]
    ensures |more| == |ds| + 1 && more[|ds|].Valid()
  {
    hide Apply, PayloadsAccepted;
    more, ds := states + [Apply(env, states[|cs|], c).store], cs + [c];
    forall i | 0 <= i < |ds| ensures Took(env, more, ds, i) {
      if i < |cs| { assert Took(env, states, cs, i); }
    }
    StepValid(env, states[|cs|], c);
  }

  /** The same for a last command that is refused. */
  lemma ExtendHistory(env: Env, states: seq<Store>, cs: seq<Command>, c: Command)
    returns (more: seq<Store>, ds: seq<Command>)
    requires IsRun(env, states, cs)
    requires states[|cs|].Valid() && Admissible(states[|cs|], c)
    ensures IsHistory(env, more, ds)
    ensures ds == cs + [c] && more == states + [Apply(env, states[|cs|], c).store]
    ensures |more| == |ds| + 1 && more[|ds|].Valid()
  {
    hide Apply, PayloadsAccepted;
    RunIsHistory(env, states, cs);
    more, ds := states + [Apply(env, states[|cs|], c).store], cs + [c];
    forall i | 0 <= i < |ds| ensures Went(env, more, ds, i) {
      if i < |cs| { assert Went(env, states, cs, i); }
    }
    StepValid(env, states[|cs|], c);
  }

  lemma NoCommands(env: Env)
    ensures IsRun(env, [Empty], []) && Empty.Valid()
  {
  }

  lemma StartsAlone(env: Env, a: AttemptId, l: Locator, key: RequestKey)
    requires env.Accepts(AuthorityGranted(None, None))
    ensures var c := DoStart(0, a, l, key, None, None);
      && Empty.Valid() && Admissible(Empty, c) && PayloadsAccepted(env, Empty, c)
      && SameButTrail(Apply(env, Empty, c).store, Alone(a, l, key, AttemptStatus.Queued, JobStatus.Queued, None))
  {
  }

  lemma RecordsIdentity(env: Env, s: Store, a: AttemptId, l: Locator, key: RequestKey)
    requires s.Valid() && SameButTrail(s, Alone(a, l, key, AttemptStatus.Queued, JobStatus.Queued, None))
    ensures var c := DoRecordIdentity(a, IdentityFor(key));
      && PayloadsAccepted(env, s, c)
      && SameButTrail(Apply(env, s, c).store,
           Alone(a, l, key, AttemptStatus.Queued, JobStatus.Queued, Some(IdentityFor(key))))
  {
  }

  lemma ClaimsAlone(env: Env, s: Store, a: AttemptId, l: Locator, key: RequestKey)
    requires s.Valid() &&
             SameButTrail(s, Alone(a, l, key, AttemptStatus.Queued, JobStatus.Queued, Some(IdentityFor(key))))
    ensures var c := DoClaim(0, a);
      && PayloadsAccepted(env, s, c)
      && SameButTrail(Apply(env, s, c).store,
           Alone(a, l, key, AttemptStatus.Running, JobStatus.Running, Some(IdentityFor(key))))
  {
  }

  lemma PublishesBlocked(env: Env, s: Store, a: AttemptId, l: Locator, key: RequestKey)
    requires s.Valid() &&
             SameButTrail(s, Alone(a, l, key, AttemptStatus.Running, JobStatus.Running, Some(IdentityFor(key))))
    ensures var c := DoPublish(0, a, key, Some(IdentityFor(key)), Blocked);
      && PayloadsAccepted(env, s, c)
      && SameButTrail(Apply(env, s, c).store, StandsBlocked(a, l, key))
  {
    hide Publish;
    Publishable(env, s, a, l, key);
  }

  lemma Publishable(env: Env, s: Store, a: AttemptId, l: Locator, key: RequestKey)
    requires s.Valid() &&
             SameButTrail(s, Alone(a, l, key, AttemptStatus.Running, JobStatus.Running, Some(IdentityFor(key))))
    ensures a in s.attempts && a in s.jobs && s.attempts[a].changeRequest in s.changeRequests
    ensures Publish(env, s, 0, a, key, Some(IdentityFor(key)), Blocked) == Decide(env, s, 0, a, Blocked)
  {
    hide Decide, KeepForAudit;
    assert Located(s.attempts, s.changeRequests, a);
  }

  lemma BlockedRun(env: Env, a: AttemptId, l: Locator, key: RequestKey) returns (states: seq<Store>, cs: seq<Command>)
    requires env.Accepts(AuthorityGranted(None, None))
    ensures IsRun(env, states, cs) && cs == BlockedCommands(a, l, key) && |states| == 5
    ensures states[4].Valid() && SameButTrail(states[4], StandsBlocked(a, l, key))
  {
    hide Apply, PayloadsAccepted, Alone, StandsBlocked, IsRun;
    NoCommands(env);
    StartsAlone(env, a, l, key);
    states, cs := Extend(env, [Empty], [], DoStart(0, a, l, key, None, None));
    RecordsIdentity(env, states[1], a, l, key);
    states, cs := Extend(env, states, cs, DoRecordIdentity(a, IdentityFor(key)));
    ClaimsAlone(env, states[2], a, l, key);
    states, cs := Extend(env, states, cs, DoClaim(0, a));
    PublishesBlocked(env, states[3], a, l, key);
    states, cs := Extend(env, states, cs, DoPublish(0, a, key, Some(IdentityFor(key)), Blocked));
  }

  lemma GrantsRisk(env: Env, s: Store, a: AttemptId, l: Locator, key: RequestKey)
    requires s.Valid() && SameButTrail(s, StandsBlocked(a, l, key))
    requires env.Accepts(GrantPayload(AcceptRisk(a, l, key)))
    ensures var r := AcceptRisk(a, l, key);
      && Grantable(s, r) && GrantedLog(s, 0, r).Valid() && r.changeRequest in GrantedLog(s, 0, r).changeRequests
      && ApplyBypass(env, s, 0, r) == SettleGate(GrantedLog(s, 0, r), 0, r, GrantRecord(s, 0, r))
  {
    hide SettleGate;
    assert Located(s.attempts, s.changeRequests, a);
    GrantedValid(s, 0, AcceptRisk(a, l, key));
  }

  lemma SettlesRisk(s: Store, a: AttemptId, l: Locator, key: RequestKey)
    requires s.Indexed() && SameButTrail(s, StandsBlocked(a, l, key))
    requires GrantedLog(s, 0, AcceptRisk(a, l, key)).Indexed()
    ensures var r := AcceptRisk(a, l, key);
      SameButTrail(SettleGate(GrantedLog(s, 0, r), 0, r, GrantRecord(s, 0, r)).store, StandsBypassed(a, l, key))
  {
    var r := AcceptRisk(a, l, key);
    var g := GrantedLog(s, 0, r);
    assert g.bypassOrder == [(a, "f")];
    assert ActiveFingerprints(g, a, 0) == [];
    assert ActiveFingerprints(g, a, 1) == ["f"];
    assert ["f"][..0] == [];
    assert Uncovered(["f"], ["f"]) == Uncovered([], ["f"]) == [];
    assert SupersedeIntents([], 0, a) == [];
  }

  lemma Bypasses(env: Env, s: Store, a: AttemptId, l: Locator, key: RequestKey)
    requires s.Valid() && SameButTrail(s, StandsBlocked(a, l, key))
    requires env.Accepts(GrantPayload(AcceptRisk(a, l, key)))
    ensures var c := DoBypass(0, AcceptRisk(a, l, key));
      && PayloadsAccepted(env, s, c)
      && SameButTrail(Apply(env, s, c).store, StandsBypassed(a, l, key))
  {
    hide ApplyBypass, SettleGate, StandsBlocked, StandsBypassed, SameButTrail, Grantable, GrantedLog;
    GrantsRisk(env, s, a, l, key);
    SettlesRisk(s, a, l, key);
  }

  lemma BypassedRun(env: Env, a: AttemptId, l: Locator, key: RequestKey) returns (states: seq<Store>, cs: seq<Command>)
    requires env.Accepts(AuthorityGranted(None, None)) && env.Accepts(GrantPayload(AcceptRisk(a, l, key)))
    ensures IsRun(env, states, cs)
    ensures cs == BlockedCommands(a, l, key) + [DoBypass(0, AcceptRisk(a, l, key))] && |states| == 6
    ensures states[5].Valid() && SameButTrail(states[5], StandsBypassed(a, l, key))
  {
    hide Apply, PayloadsAccepted, StandsBlocked, StandsBypassed, IsRun;
    states, cs := BlockedRun(env, a, l, key);
    Bypasses(env, states[4], a, l, key);
    states, cs := Extend(env, states, cs, DoBypass(0, AcceptRisk(a, l, key)));
  }

  // ---- a stale mark -----------------------------------------------------------------------------------

  function Handed(s: Store): Store
    requires |s.intents| == 1
  {
    s.(intents := [ClaimedIntent(s.intents[0], 0, 60)])
  }

  lemma HandsOut(env: Env, s: Store, a: AttemptId, l: Locator, key: RequestKey)
    requires s.Valid() && SameButTrail(s, StandsBypassed(a, l, key))
    ensures var c := DoClaimSync(0, 60);
      PayloadsAccepted(env, s, c) && |s.intents| == 1 && Apply(env, s, c).store == Handed(s)
  {
    assert Deliverable(s.intents, 0, 0);
  }

  /** The decision is gone, its bypass expired and its intent superseded. */
  ghost predicate Withdrawn(t: Store, a: AttemptId, l: Locator, key: RequestKey) {
    && t.changeRequests == map[l := ChangeRequest(key, a, None, None, 3)]
    && t.attempts == StandsBypassed(a, l, key).attempts
    && |t.intents| == 1
    && t.intents[0].attempt == a && t.intents[0].revision == 2 && t.intents[0].status.Superseded?
    && t.intents[0].gate == PassedWithBypass
  }

  lemma AcceptsStale(env: Env, s: Store, before: Store, a: AttemptId, l: Locator, key: RequestKey)
    requires SameButTrail(before, StandsBypassed(a, l, key)) && s == Handed(before) && s.Valid()
    requires env.Accepts(BypassExpired("f", "stale")) && env.Accepts(DecisionInvalidated("stale"))
    ensures PayloadsAccepted(env, s, DoInvalidate(0, l, "stale"))
    ensures !Invalidate(env, s, 0, l, "stale").Unsafe()
  {
    hide Invalidate;
    InvalidateCutShort(env, s, 0, l, "stale");
  }

  lemma Withdraws(env: Env, s: Store, before: Store, a: AttemptId, l: Locator, key: RequestKey)
    requires SameButTrail(before, StandsBypassed(a, l, key)) && s == Handed(before) && s.Valid()
    requires env.Accepts(BypassExpired("f", "stale")) && env.Accepts(DecisionInvalidated("stale"))
    ensures var c := DoInvalidate(0, l, "stale");
      PayloadsAccepted(env, s, c) && Withdrawn(Apply(env, s, c).store, a, l, key)
  {
    hide Invalidate, SupersedeIntents, StandsBypassed;
    AcceptsStale(env, s, before, a, l, key);
    HandedDecision(s, before, a, l, key);
    InvalidateShape(env, s, 0, l, "stale");
  }

  lemma HandedDecision(s: Store, before: Store, a: AttemptId, l: Locator, key: RequestKey)
    requires SameButTrail(before, StandsBypassed(a, l, key)) && s == Handed(before)
    ensures s.changeRequests == map[l := ChangeRequest(key, a, Some(a), Some(PassedWithBypass), 2)]
    ensures s.attempts == StandsBypassed(a, l, key).attempts
    ensures |s.intents| == 1 && s.intents[0].attempt == a && s.intents[0].revision == 2
    ensures s.intents[0].status.Live() && s.intents[0].gate == PassedWithBypass
  {
  }

  lemma InvalidateShape(env: Env, s: Store, now: int, l: Locator, reason: string)
    requires s.Valid() && l in s.changeRequests && !Invalidate(env, s, now, l, reason).Unsafe()
    ensures var t := Invalidate(env, s, now, l, reason).store;
      && t.changeRequests == ClearStanding(s, l).changeRequests && t.attempts == s.attempts
      && t.intents == Superseding(s.intents, now, s.changeRequests[l].standing)
  {
    hide ExpireBypasses, SupersedeIntents;
    ExpireEffect(env, ClearStanding(s, l), now, l, reason);
  }

  lemma Revived(env: Env, s: Store, a: AttemptId, l: Locator, key: RequestKey)
    requires s.Valid() && Withdrawn(s, a, l, key)
    ensures var c := DoMarkSync(0, 1, SyncStatus.Queued, None, None);
      var t := Apply(env, s, c).store;
      && PayloadsAccepted(env, s, c) && !MarksWell(s, c)
      && t.changeRequests == s.changeRequests && |t.intents| == 1
      && t.intents[0].attempt == a && t.intents[0].status.Queued? && t.intents[0].gate == PassedWithBypass
      && ClaimSync(t, 0, 60).result == Ok(Some(0))
  {
    var t := Apply(env, s, DoMarkSync(0, 1, SyncStatus.Queued, None, None)).store;
    assert Deliverable(t.intents, 0, 0);
  }

  /**
   * A worker claims the sync of a bypassed decision, the decision is invalidated, and the worker
   * puts its intent back in the queue: the store then hands out "passed with bypass" for a change
   * request that has no standing decision at all.
   */
  lemma StaleMarkMisleads(a: AttemptId, l: Locator, key: RequestKey)
    returns (env: Env, states: seq<Store>, cs: seq<Command>)
    ensures IsRun(env, states, cs)
    ensures cs == BlockedCommands(a, l, key) +
                  [DoBypass(0, AcceptRisk(a, l, key)), DoClaimSync(0, 60), DoInvalidate(0, l, "stale"),
                   DoMarkSync(0, 1, SyncStatus.Queued, None, None)]
    ensures !MarkedWell(states, cs, 7)
    ensures var s := states[8];
      && Sound(s) && !Outbox(s)
      && ClaimSync(s, 0, 60).result == Ok(Some(0)) && s.intents[0].gate == PassedWithBypass
      && l in s.changeRequests && s.changeRequests[l].standing == None
  {
    hide Apply, PayloadsAccepted, StandsBypassed, IsRun, Withdrawn, ClaimSync, Handed, Sound, Outbox, MarksWell;
    env := Env(p => true, text => text, 0);
    states, cs := BypassedRun(env, a, l, key);
    HandsOut(env, states[5], a, l, key);
    states, cs := Extend(env, states, cs, DoClaimSync(0, 60));
    Withdraws(env, states[6], states[5], a, l, key);
    states, cs := Extend(env, states, cs, DoInvalidate(0, l, "stale"));
    Revived(env, states[7], a, l, key);
    states, cs := Extend(env, states, cs, DoMarkSync(0, 1, SyncStatus.Queued, None, None));
    StaleMarkEnds(env, states, cs, a, l, key);
  }

  lemma StaleMarkEnds(env: Env, states: seq<Store>, cs: seq<Command>, a: AttemptId, l: Locator, key: RequestKey)
    requires IsRun(env, states, cs) && |cs| == 8 && cs[7] == DoMarkSync(0, 1, SyncStatus.Queued, None, None)
    requires states[7].Valid() && Withdrawn(states[7], a, l, key)
    requires states[8] == Apply(env, states[7], cs[7]).store
    ensures Sound(states[7]) && Sound(states[8])
    ensures l in states[8].changeRequests && states[8].changeRequests[l].standing == None
    ensures !Outbox(states[8])
  {
    RunSound(env, states, cs, 7);
    RunSound(env, states, cs, 8);
    Revived(env, states[7], a, l, key);
    var s := states[8];
    assert Located(s.attempts, s.changeRequests, a);
    assert !IntentOk(s, s.intents[0]);
  }

  // ---- refused payloads -----------------------------------------------------------------------------------

  /** Every payload passes but those of one kind. */
  function Refusing(refused: Payload -> bool): Env {
    Env(p => !refused(p), text => text, 0)
  }

  /** A refused delivery id: the first start leaves a change request whose revision no event accounts for. */
  lemma RefusedStartUnbalances(a: AttemptId, l: Locator, key: RequestKey, delivery: string)
    returns (env: Env, states: seq<Store>, cs: seq<Command>)
    requires delivery != ""
    ensures IsHistory(env, states, cs) && cs == [DoStart(0, a, l, key, None, Some(delivery))]
    ensures l in states[1].changeRequests && states[1].audit == []
    ensures !Ledger(states[1])
  {
    hide Apply, PayloadsAccepted;
    env := Refusing((p: Payload) => p.AuthorityGranted?);
    NoCommands(env);
    states, cs := ExtendHistory(env, [Empty], [], DoStart(0, a, l, key, None, Some(delivery)));
    FirstStartRefused(env, a, l, key, delivery);
  }

  lemma FirstStartRefused(env: Env, a: AttemptId, l: Locator, key: RequestKey, delivery: string)
    requires delivery != "" && !env.Accepts(AuthorityGranted(None, Some(delivery)))
    ensures Empty.Valid()
    ensures var t := Apply(env, Empty, DoStart(0, a, l, key, None, Some(delivery))).store;
      l in t.changeRequests && t.audit == [] && !Ledger(t)
  {
    var t := Apply(env, Empty, DoStart(0, a, l, key, None, Some(delivery))).store;
    assert RevisionEvents(t.audit, l) == 0;
  }

  /**
   * A refused expiry during a second start: the demoted Attempt is still the authority and still
   * stands as passed with bypass, although nothing is accepted on it any more.
   */
  lemma RefusedRetirementMisleads(a: AttemptId, b: AttemptId, l: Locator, key: RequestKey)
    returns (env: Env, states: seq<Store>, cs: seq<Command>)
    requires a != b
    ensures IsHistory(env, states, cs)
    ensures cs == BlockedCommands(a, l, key) +
                  [DoBypass(0, AcceptRisk(a, l, key)), DoStart(1, b, l, key, None, None)]
    ensures var s := states[6];
      && !Sound(s) && !GateCovers(s, a, {"f"})
      && Ledger(s) && s.Linked() && Outbox(s)
  {
    hide Apply, PayloadsAccepted, StandsBypassed, IsRun, Sound, Outbox, Ledger, GateCovers;
    env := Refusing((p: Payload) => p.BypassExpired?);
    states, cs := BypassedRun(env, a, l, key);
    var before := states;
    var done := cs;
    OnlyAttempt(states[5], a, l, key);
    states, cs := ExtendHistory(env, states, cs, DoStart(1, b, l, key, None, None));
    BypassedRunKeeps(env, before, done, a, l, key);
    RetirementRefused(env, before[5], a, b, l, key);
  }

  lemma OnlyAttempt(s: Store, a: AttemptId, l: Locator, key: RequestKey)
    requires SameButTrail(s, StandsBypassed(a, l, key))
    ensures s.attempts.Keys == {a}
  {
  }

  /** What the run up to the bypass establishes, by the theorems about runs. */
  lemma BypassedRunKeeps(env: Env, states: seq<Store>, cs: seq<Command>, a: AttemptId, l: Locator, key: RequestKey)
    requires IsRun(env, states, cs) && cs == BlockedCommands(a, l, key) + [DoBypass(0, AcceptRisk(a, l, key))]
    ensures states[5].Valid() && Sound(states[5]) && Outbox(states[5]) && Ledger(states[5])
    ensures GateCovers(states[5], a, {"f"})
  {
    hide Apply, PayloadsAccepted, Sound, Outbox, Ledger, GateCovers;
    forall j | 0 <= j < 5 ensures MarkedWell(states, cs, j) { RunSound(env, states, cs, j); }
    RunSound(env, states, cs, 5);
    RunOutbox(env, states, cs, 5);
    RunLedger(env, states, cs, 5);
    assert Elements(["f"]) == {"f"};
    BypassedMeansCovered(env, states, cs, 5, a, {"f"});
  }

  lemma RetirementRefused(env: Env, s: Store, a: AttemptId, b: AttemptId, l: Locator, key: RequestKey)
    requires s.Valid() && SameButTrail(s, StandsBypassed(a, l, key)) && a != b
    requires Sound(s) && Outbox(s) && Ledger(s) && GateCovers(s, a, {"f"})
    requires !env.Accepts(BypassExpired("f", SupersededReason))
    ensures var t := Apply(env, s, DoStart(1, b, l, key, None, None)).store;
      && !Sound(t) && !GateCovers(t, a, {"f"})
      && Ledger(t) && t.Linked() && Outbox(t)
  {
    hide Apply, Sound, Outbox, Ledger, GateCovers;
    var c := DoStart(1, b, l, key, None, None);
    assert s.bypassOrder[0] == (a, "f");
    assert ActiveAt(s, l, 0) && !ExpiryAccepted(env, s, l, SupersededReason, 0);
    assert Reached(env, s, l, SupersededReason, 0, 0);
    assert !RetirementAccepted(env, s, l) && !PayloadsAccepted(env, s, c);
    assert !NoneReached(env, s, l, SupersededReason, a, {"f"});
    StepSoundExactly(env, s, c);
    StepLedgerExactly(env, s, c);
    StepOutboxExactly(env, s, c);
    RefusedGateExactly(env, s, c, a, {"f"});
  }

  /**
   * A refused expiry during an invalidation: the decision is gone and unlogged, yet its intent is
   * still live and is handed out next.
   */
  lemma RefusedInvalidationMisleads(a: AttemptId, l: Locator, key: RequestKey, reason: string)
    returns (env: Env, states: seq<Store>, cs: seq<Command>)
    ensures IsHistory(env, states, cs)
    ensures cs == BlockedCommands(a, l, key) +
                  [DoBypass(0, AcceptRisk(a, l, key)), DoInvalidate(1, l, reason)]
    ensures var s := states[6];
      && !Ledger(s) && s.Linked() && !Outbox(s) && Sound(s)
      && ClaimSync(s, 1, 60).result == Ok(Some(0))
      && l in s.changeRequests && s.changeRequests[l].standing == None
  {
    hide Apply, PayloadsAccepted, StandsBypassed, IsRun, Sound, Outbox, Ledger, GateCovers, ClaimSync;
    env := Refusing((p: Payload) => p.BypassExpired?);
    states, cs := BypassedRun(env, a, l, key);
    var before := states;
    var done := cs;
    states, cs := ExtendHistory(env, states, cs, DoInvalidate(1, l, reason));
    BypassedRunKeeps(env, before, done, a, l, key);
    InvalidationRefused(env, before[5], a, l, key, reason);
    StillHandedOut(env, before[5], a, l, key, reason);
  }

  lemma InvalidationRefused(env: Env, s: Store, a: AttemptId, l: Locator, key: RequestKey, reason: string)
    requires s.Valid() && SameButTrail(s, StandsBypassed(a, l, key))
    requires Sound(s) && Outbox(s) && Ledger(s)
    requires !env.Accepts(BypassExpired("f", reason))
    ensures var t := Apply(env, s, DoInvalidate(1, l, reason)).store;
      !Ledger(t) && t.Linked() && !Outbox(t) && Sound(t)
  {
    hide Apply, Sound, Outbox, Ledger;
    var c := DoInvalidate(1, l, reason);
    assert s.bypassOrder[0] == (a, "f");
    assert ActiveAt(s, l, 0) && !ExpiryAccepted(env, s, l, reason, 0);
    assert !ExpiriesAccepted(env, s, l, reason, 0) && !PayloadsAccepted(env, s, c);
    assert Reached(env, s, l, reason, 0, 0) && AllReached(env, s, l, reason);
    assert s.intents[0].status.Live() && LiveIntentFor(s, l);
    StepSoundExactly(env, s, c);
    StepLedgerExactly(env, s, c);
    StepOutboxExactly(env, s, c);
  }

  lemma StillHandedOut(env: Env, s: Store, a: AttemptId, l: Locator, key: RequestKey, reason: string)
    requires s.Valid() && SameButTrail(s, StandsBypassed(a, l, key))
    requires !env.Accepts(BypassExpired("f", reason))
    ensures var t := Apply(env, s, DoInvalidate(1, l, reason)).store;
      && ClaimSync(t, 1, 60).result == Ok(Some(0))
      && l in t.changeRequests && t.changeRequests[l].standing == None
  {
    hide Apply;
    var c := DoInvalidate(1, l, reason);
    assert s.bypassOrder[0] == (a, "f");
    assert ActiveAt(s, l, 0) && !ExpiryAccepted(env, s, l, reason, 0);
    assert !ExpiriesAccepted(env, s, l, reason, 0) && !PayloadsAccepted(env, s, c);
    var t := CutInvalidate(env, s, c);
    assert Deliverable(t.intents, 1, 0);
  }

  /**
   * A refused reason: the bypass of the last blocking finding is on record and active, but the gate
   * stays Blocked, and no revision, event or intent was made. Asking again is answered as a replay.
   */
  lemma RefusedGrantStays(a: AttemptId, l: Locator, key: RequestKey)
    returns (env: Env, states: seq<Store>, cs: seq<Command>)
    ensures IsHistory(env, states, cs)
    ensures cs == BlockedCommands(a, l, key) + [DoBypass(0, AcceptRisk(a, l, key))]
    ensures states[4].Valid() && states[5].Valid()
    ensures !PayloadsAccepted(env, states[4], cs[4])
    ensures var s, t := states[4], states[5];
      && t == s.(bypasses := t.bypasses, bypassOrder := t.bypassOrder)
      && Accepted(t, a) == {"f"} && Stands(t, a) && StandingGate(t, a) == Some(Blocked)
      && !GateCovers(t, a, {"f"})
      && ApplyBypass(env, t, 1, AcceptRisk(a, l, key)).store == t
      && ApplyBypass(env, t, 1, AcceptRisk(a, l, key)).result.Ok?
  {
    hide Apply, PayloadsAccepted, StandsBlocked, IsRun, GateCovers, ApplyBypass;
    env := Refusing((p: Payload) => p.BypassGranted?);
    states, cs := BlockedRun(env, a, l, key);
    var before := states;
    states, cs := ExtendHistory(env, states, cs, DoBypass(0, AcceptRisk(a, l, key)));
    GrantRefused(env, before[4], a, l, key);
  }

  lemma GrantRefused(env: Env, s: Store, a: AttemptId, l: Locator, key: RequestKey)
    requires s.Valid() && SameButTrail(s, StandsBlocked(a, l, key))
    requires !env.Accepts(GrantPayload(AcceptRisk(a, l, key)))
    ensures var c := DoBypass(0, AcceptRisk(a, l, key));
      var t := Apply(env, s, c).store;
      && t.Valid()
      && !PayloadsAccepted(env, s, c)
      && t == s.(bypasses := t.bypasses, bypassOrder := t.bypassOrder)
      && Accepted(t, a) == {"f"} && Stands(t, a) && StandingGate(t, a) == Some(Blocked)
      && !GateCovers(t, a, {"f"})
      && ApplyBypass(env, t, 1, AcceptRisk(a, l, key)).store == t
      && ApplyBypass(env, t, 1, AcceptRisk(a, l, key)).result.Ok?
  {
    hide Apply;
    var r := AcceptRisk(a, l, key);
    CutBypass(env, s, DoBypass(0, r));
    GrantedValid(s, 0, r);
    AcceptedMore(s, 0, r);
    assert Accepted(s, a) == {};
    assert Located(s.attempts, s.changeRequests, a);
  }
}
