/** What the invariants mean for the callers of the store. */
module StoreTheorems {
  import opened Prelude
  import opened Identity
  import opened Store
  import opened StoreInvariants
  import opened StoreSteps
  import opened StoreValid
  import opened StoreOutbox
  import opened StoreLedger
  import opened StoreCommands
  import opened StoreRuns

  // ---- authority ---------------------------------------------------------------------------

  /** Whoever is waiting, running, published or standing is the change request's authority. */
  lemma AuthorityAgrees(env: Env, states: seq<Store>, cs: seq<Command>, i: nat, a: AttemptId)
    requires IsRun(env, states, cs) && i <= |cs| && a in states[i].attempts
    ensures var s := states[i];
      var attempt := s.attempts[a];
      && a in s.jobs
      && attempt.changeRequest in s.changeRequests
      && var current := s.changeRequests[attempt.changeRequest];
      && (attempt.Current() ==> current.authoritative == a && current.key == attempt.key)
      && (current.standing == Some(a) ==>
            && current.authoritative == a
            && attempt.status.Published?
            && current.gate.Some?
            && s.jobs[a].status.Terminal())
      && (attempt.identity.Some? ==> Matches(attempt.identity.value, attempt.key))
  {
    hide Apply;
    var s := states[i];
    RunSound(env, states, cs, i);
    assert Located(s.attempts, s.changeRequests, a);
    assert AttemptOk(s, a) && ChangeRequestOk(s, s.attempts[a].changeRequest);
  }

  ghost predicate Overtaken(s: Store, a: AttemptId) {
    && a in s.attempts
    && s.attempts[a].changeRequest in s.changeRequests
    && s.changeRequests[s.attempts[a].changeRequest].authoritative != a
  }

  /** A step never moves an Attempt to another change request, and only a start moves authority. */
  ghost predicate LinksMove(s: Store, t: Store, c: Command, a: AttemptId)
    requires a in s.attempts
  {
    var l := s.attempts[a].changeRequest;
    && a in t.attempts && t.attempts[a].changeRequest == l
    && l in s.changeRequests && l in t.changeRequests
    && (t.changeRequests[l].authoritative == s.changeRequests[l].authoritative ||
        (c.DoStart? && t.changeRequests[l].authoritative == c.newId))
  }

  lemma SameKeysLinks(s: Store, t: Store, c: Command, a: AttemptId)
    requires s.Linked() && SameKeys(s, t) && a in s.attempts
    ensures LinksMove(s, t, c, a)
  {
    assert Located(s.attempts, s.changeRequests, a);
  }

  lemma StartLinks(env: Env, s: Store, c: Command, a: AttemptId)
    requires s.Valid() && c.DoStart? && Admissible(s, c) && a in s.attempts &&
             !Start(env, s, c.now, c.newId, c.l, c.key, c.expected, c.delivery).Unsafe()
    ensures LinksMove(s, Start(env, s, c.now, c.newId, c.l, c.key, c.expected, c.delivery).store, c, a)
  {
    assert Located(s.attempts, s.changeRequests, a);
    if Start(env, s, c.now, c.newId, c.l, c.key, c.expected, c.delivery).store != s {
      VacateResult(env, s, c.now, c.l);
      VacatePlaces(env, s, c.now, c.l);
      assert s.attempts[a].changeRequest in s.changeRequests;
    }
  }

  lemma BypassLinks(env: Env, s: Store, c: Command, a: AttemptId)
    requires s.Valid() && c.DoBypass? && a in s.attempts
    ensures LinksMove(s, ApplyBypass(env, s, c.now, c.request).store, c, a)
  {
    hide ApplyBypass, SettleGate;
    assert Located(s.attempts, s.changeRequests, a);
    BypassCases(env, s, c.now, c.request);
    if Grantable(s, c.request) {
      GrantedValid(s, c.now, c.request);
      SettleGateKeys(GrantedLog(s, c.now, c.request), c.now, c.request, GrantRecord(s, c.now, c.request));
    }
  }

  lemma StepLinks(env: Env, s: Store, c: Command, a: AttemptId)
    requires s.Valid() && Admissible(s, c) && a in s.attempts && !Apply(env, s, c).cutShort
    ensures LinksMove(s, Apply(env, s, c).store, c, a)
  {
    hide Start, Claim, Recover, MarkRetryable, Finalize, Publish, Invalidate, ApplyBypass, LinksMove;
    if c.DoStart? { StartLinks(env, s, c, a); }
    else if c.DoBypass? { BypassLinks(env, s, c, a); }
    else {
      var t := Apply(env, s, c).store;
      if Quiet(c) { QuietStep(env, s, c); } else {
        match c
        case DoPublish(now, b, key, recorded, gate) => PublishKeys(env, s, now, b, key, recorded, gate);
        case DoInvalidate(now, l, text) => InvalidateKeys(env, s, now, l, text);
        case DoClaimSync(_, _) =>
        case DoMarkSync(_, _, _, _, _) =>
      }
      SameKeysLinks(s, t, c, a);
    }
  }

  /** An Attempt that lost authority never runs, publishes or stands again. */
  lemma {:induction false} OvertakenForGood(env: Env, states: seq<Store>, cs: seq<Command>, i: nat, j: nat,
                                            a: AttemptId)
    requires IsRun(env, states, cs) && i <= j <= |cs|
    requires Overtaken(states[i], a)
    ensures Overtaken(states[j], a)
    ensures !states[j].attempts[a].Current()
    ensures forall l :: l in states[j].changeRequests ==> states[j].changeRequests[l].standing != Some(a)
    decreases j
  {
    hide Apply;
    var s := states[j];
    RunSound(env, states, cs, j);
    if j > i {
      OvertakenForGood(env, states, cs, i, j - 1, a);
      RunSound(env, states, cs, j - 1);
      TookWhole(env, states, cs, j - 1);
      StepLinks(env, states[j - 1], cs[j - 1], a);
    }
    assert AttemptOk(s, a);
    forall l | l in s.changeRequests
      ensures s.changeRequests[l].standing != Some(a)
    {
      assert ChangeRequestOk(s, l);
    }
  }

  // ---- the outbox -----------------------------------------------------------------------------

  /** The intent carries the decision that stands now. */
  ghost predicate CarriesStandingDecision(s: Store, intent: Intent) {
    && intent.attempt in s.attempts
    && s.attempts[intent.attempt].changeRequest in s.changeRequests
    && var current := s.changeRequests[s.attempts[intent.attempt].changeRequest];
    && current.standing == Some(intent.attempt)
    && current.authoritative == intent.attempt
    && current.revision == intent.revision
    && current.gate == Some(intent.gate)
  }

  /**
   * In every run that marks intents well, an Attempt has at most one live intent, it carries the
   * decision that stands now, and no intent of that Attempt has a greater revision.
   */
  lemma LiveIntentIsNewest(env: Env, states: seq<Store>, cs: seq<Command>, n: nat, i: nat)
    requires IsRun(env, states, cs) && n <= |cs|
    requires forall j {:trigger MarkedWell(states, cs, j)} :: 0 <= j < n ==> MarkedWell(states, cs, j)
    requires i < |states[n].intents| && states[n].intents[i].status.Live()
    ensures var intents := states[n].intents;
      && CarriesStandingDecision(states[n], intents[i])
      && (forall k :: 0 <= k < |intents| && k != i && intents[k].attempt == intents[i].attempt ==>
            !intents[k].status.Live() && intents[k].revision < intents[i].revision)
  {
    hide Apply;
    var s := states[n];
    RunSound(env, states, cs, n);
    RunOutbox(env, states, cs, n);
    LiveIntent(s, i);
  }

  lemma LiveIntent(s: Store, i: nat)
    requires Sound(s) && Outbox(s) && i < |s.intents| && s.intents[i].status.Live()
    ensures CarriesStandingDecision(s, s.intents[i])
    ensures forall k :: 0 <= k < |s.intents| && k != i && s.intents[k].attempt == s.intents[i].attempt ==>
              !s.intents[k].status.Live() && s.intents[k].revision < s.intents[i].revision
  {
    assert IntentOk(s, s.intents[i]);
    var l := s.attempts[s.intents[i].attempt].changeRequest;
    assert ChangeRequestOk(s, l);
    forall k | 0 <= k < |s.intents| && k != i && s.intents[k].attempt == s.intents[i].attempt
      ensures !s.intents[k].status.Live() && s.intents[k].revision < s.intents[i].revision
    {
      assert IntentOk(s, s.intents[k]);
      assert k < i ==> Increasing(s, s.intents[k], s.intents[i]);
      assert i < k ==> Increasing(s, s.intents[i], s.intents[k]);
    }
  }

  /**
   * A worker that claims a Check sync is handed the oldest claimable intent, and it carries the
   * decision that stands now; it goes away empty-handed only when nothing is claimable.
   */
  lemma ClaimSyncHandsOutNewest(env: Env, states: seq<Store>, cs: seq<Command>, n: nat, now: int, leaseTicks: int)
    requires IsRun(env, states, cs) && n <= |cs|
    requires forall j {:trigger MarkedWell(states, cs, j)} :: 0 <= j < n ==> MarkedWell(states, cs, j)
    ensures var s := states[n];
      var step := ClaimSync(s, now, leaseTicks);
      && step.result.Ok?
      && match step.result.value
         case None => step.store == s && forall i :: 0 <= i < |s.intents| ==> !Claimable(s.intents[i], now)
         case Some(i) =>
           && i < |s.intents| && Claimable(s.intents[i], now)
           && (forall k :: 0 <= k < i ==> !Claimable(s.intents[k], now))
           && CarriesStandingDecision(step.store, step.store.intents[i])
           && step.store.intents[i].status.InProgress?
  {
    hide Apply;
    var s := states[n];
    RunSound(env, states, cs, n);
    RunOutbox(env, states, cs, n);
    forall i | 0 <= i < |s.intents| && Claimable(s.intents[i], now)
      ensures Deliverable(s.intents, now, i) && CarriesStandingDecision(s, s.intents[i])
    {
      LiveIntent(s, i);
    }
  }

  /** Marking an intent a worker holds always keeps the outbox in step. */
  lemma HeldIntentsMarkWell(s: Store, c: Command)
    requires s.Linked() && Outbox(s)
    requires c.DoMarkSync? && 1 <= c.intentId <= |s.intents| ==> s.intents[c.intentId - 1].status.InProgress?
    ensures MarksWell(s, c)
  {
    if c.DoMarkSync? && 1 <= c.intentId <= |s.intents| {
      assert IntentOk(s, s.intents[c.intentId - 1]);
    }
  }

  // ---- replays ----------------------------------------------------------------------------------

  /** A redelivered webhook and a repeated bypass are answered from the record and change nothing. */
  lemma ReplaysChangeNothing(env: Env, s: Store, now: int, newId: AttemptId, l: Locator, key: RequestKey,
                             expected: Option<AttemptId>, delivery: string, r: BypassRequest)
    requires s.Valid()
    ensures var step := Start(env, s, now, newId, l, key, expected, Some(delivery));
      step.result.Ok? && step.result.value.deliveryReplayed && (l.installation, delivery) in s.deliveries ==>
        step.store == s && step.result.value.attempt == s.deliveries[(l.installation, delivery)].attempt
    ensures var step := ApplyBypass(env, s, now, r);
      step.result.Ok? && step.result.value.replayed ==>
        && step.store == s
        && (r.attempt, r.fingerprint) in s.bypasses
        && step.result.value.record == s.bypasses[(r.attempt, r.fingerprint)]
        && r.changeRequest in s.changeRequests
        && step.result.value.gate == s.changeRequests[r.changeRequest].gate
        && step.result.value.revision == s.changeRequests[r.changeRequest].revision
  {
    assert r.attempt in s.attempts ==> Located(s.attempts, s.changeRequests, r.attempt);
  }

  ghost predicate DeliveryKept(s: Store, t: Store, d: (int, string)) {
    d in s.deliveries ==> d in t.deliveries && t.deliveries[d] == s.deliveries[d]
  }

  lemma StartDeliveries(env: Env, s: Store, c: Command, d: (int, string))
    requires s.Valid() && c.DoStart? && !Start(env, s, c.now, c.newId, c.l, c.key, c.expected, c.delivery).Unsafe()
    ensures DeliveryKept(s, Start(env, s, c.now, c.newId, c.l, c.key, c.expected, c.delivery).store, d)
  {
    VacateResult(env, s, c.now, c.l);
    if c.l in s.changeRequests {
      assert Designated(s.changeRequests, s.attempts, c.l);
      if Vacate(env, s, c.now, c.l).result.Ok? {
        RetireEffect(env, s, c.now, c.l, s.changeRequests[c.l].authoritative);
      }
    }
  }

  lemma PublishDeliveries(env: Env, s: Store, c: Command)
    requires s.Valid() && c.DoPublish?
    ensures Publish(env, s, c.now, c.a, c.key, c.recorded, c.gate).store.deliveries == s.deliveries
  {
    hide Publish;
    PublishCases(env, s, c.now, c.a, c.key, c.recorded, c.gate);
  }

  lemma InvalidateDeliveries(env: Env, s: Store, c: Command)
    requires s.Valid() && c.DoInvalidate?
    ensures Invalidate(env, s, c.now, c.l, c.text).store.deliveries == s.deliveries
  {
    hide ExpireBypasses;
    if c.l in s.changeRequests { ExpireEffect(env, ClearStanding(s, c.l), c.now, c.l, c.text); }
  }

  lemma BypassDeliveries(env: Env, s: Store, c: Command)
    requires s.Valid() && c.DoBypass?
    ensures ApplyBypass(env, s, c.now, c.request).store.deliveries == s.deliveries
  {
    hide ApplyBypass;
    BypassCases(env, s, c.now, c.request);
  }

  lemma LoudDeliveries(env: Env, s: Store, c: Command, d: (int, string))
    requires s.Valid() && !Quiet(c) && !c.DoStart?
    ensures DeliveryKept(s, Apply(env, s, c).store, d)
  {
    hide Publish, Invalidate, ApplyBypass, SettleGate;
    if c.DoPublish? {
      PublishDeliveries(env, s, c);
    } else if c.DoInvalidate? {
      InvalidateDeliveries(env, s, c);
    } else if c.DoBypass? {
      BypassDeliveries(env, s, c);
    }
  }

  lemma StepDeliveries(env: Env, s: Store, c: Command, d: (int, string))
    requires s.Valid() && Admissible(s, c) && !Apply(env, s, c).cutShort
    ensures DeliveryKept(s, Apply(env, s, c).store, d)
  {
    hide Start, Claim, Recover, MarkRetryable, Finalize, Publish, Invalidate, ApplyBypass;
    if Quiet(c) {
      QuietStep(env, s, c);
    } else if c.DoStart? {
      StartDeliveries(env, s, c, d);
    } else {
      LoudDeliveries(env, s, c, d);
    }
  }

  lemma {:induction false} DeliveriesKept(env: Env, states: seq<Store>, cs: seq<Command>, i: nat, j: nat,
                                          d: (int, string))
    requires IsRun(env, states, cs) && i <= j <= |cs| && d in states[i].deliveries
    ensures d in states[j].deliveries && states[j].deliveries[d] == states[i].deliveries[d]
    decreases j
  {
    hide Apply;
    if i < j {
      DeliveriesKept(env, states, cs, i, j - 1, d);
      TookWhole(env, states, cs, j - 1);
      StepDeliveries(env, states[j - 1], cs[j - 1], d);
    }
  }

  lemma StartRecordsDelivery(env: Env, s: Store, now: int, newId: AttemptId, l: Locator, key: RequestKey,
                             expected: Option<AttemptId>, delivery: string)
    requires s.Valid()
    ensures var step := Start(env, s, now, newId, l, key, expected, Some(delivery));
      step.result.Ok? ==>
        && delivery != ""
        && (l.installation, delivery) in step.store.deliveries
        && step.store.deliveries[(l.installation, delivery)].attempt == step.result.value.attempt
  {
  }

  /**
   * Once a delivery created an Attempt, every later start for the same delivery, whatever else it
   * asks for, answers with that Attempt and leaves the store alone.
   */
  lemma DeliveryIsIdempotent(env: Env, states: seq<Store>, cs: seq<Command>, i: nat, j: nat, delivery: string,
                             now: int, newId: AttemptId, l: Locator, key: RequestKey, expected: Option<AttemptId>)
    requires IsRun(env, states, cs) && i < j <= |cs|
    requires cs[i].DoStart? && cs[i].delivery == Some(delivery) && cs[i].l.installation == l.installation
    requires states[i].Valid() && states[j].Valid()
    requires var c := cs[i]; Start(env, states[i], c.now, c.newId, c.l, c.key, c.expected, c.delivery).result.Ok?
    ensures var c := cs[i];
      var first := Start(env, states[i], c.now, c.newId, c.l, c.key, c.expected, c.delivery);
      var again := Start(env, states[j], now, newId, l, key, expected, Some(delivery));
      && again.store == states[j]
      && again.result.Ok?
      && again.result.value.attempt == first.result.value.attempt
      && again.result.value.deliveryReplayed
  {
    var c := cs[i];
    TookWhole(env, states, cs, i);
    StartRecordsDelivery(env, states[i], c.now, c.newId, c.l, c.key, c.expected, delivery);
    DeliveriesKept(env, states, cs, i + 1, j, (l.installation, delivery));
  }
}
