/** The operations as commands, and exactly which of them the audit payload check lets through to their end. */
module StoreCommands {
  import opened Prelude
  import opened Identity
  import opened Store
  import opened StoreInvariants
  import opened StoreSteps
  import opened StoreValid

  datatype Command =
    | DoStart(now: int, newId: AttemptId, l: Locator, key: RequestKey, expected: Option<AttemptId>,
      delivery: Option<string>)
    | DoRecordIdentity(a: AttemptId, identity: ReviewIdentity)
    | DoClaim(now: int, a: AttemptId)
    | DoMarkRetryable(now: int, a: AttemptId, text: string)
    | DoRecover(now: int, maxAttempts: int, leaseTicks: int)
    | DoPublish(now: int, a: AttemptId, key: RequestKey, recorded: Option<ReviewIdentity>, gate: GateState)
    | DoFinalize(now: int, a: AttemptId, status: JobStatus, text: string)
    | DoAppend(now: int, kind: string, l: Locator, about: Option<AttemptId>, actor: Actor, text: string)
    | DoInvalidate(now: int, l: Locator, text: string)
    | DoBypass(now: int, request: BypassRequest)
    | DoClaimSync(now: int, leaseTicks: int)
    | DoMarkSync(now: int, intentId: int, syncStatus: SyncStatus, lastError: Option<string>, nextRetryAt: Option<int>)

  /** What an operation leaves behind, and whether it was cut short by a refused audit payload. */
  datatype Effect = Effect(store: Store, cutShort: bool)

  function Outcome<T>(step: Step<T>): Effect {
    Effect(step.store, step.Unsafe())
  }

  function Apply(env: Env, s: Store, c: Command): Effect
    requires s.Valid()
  {
    match c
    case DoStart(now, newId, l, key, expected, delivery) =>
      Outcome(Start(env, s, now, newId, l, key, expected, delivery))
    case DoRecordIdentity(a, identity) => Outcome(RecordIdentity(s, a, identity))
    case DoClaim(now, a) => Outcome(Claim(env, s, now, a))
    case DoMarkRetryable(now, a, text) => Outcome(MarkRetryable(env, s, now, a, text))
    case DoRecover(now, maxAttempts, leaseTicks) =>
      Outcome(Recover(env, s, now, maxAttempts, leaseTicks, 0, NothingRecovered))
    case DoPublish(now, a, key, recorded, gate) => Outcome(Publish(env, s, now, a, key, recorded, gate))
    case DoFinalize(now, a, status, text) => Outcome(Finalize(env, s, now, a, status, text))
    case DoAppend(now, kind, l, about, actor, text) => Outcome(Append(env, s, now, kind, l, about, actor, text))
    case DoInvalidate(now, l, text) => Outcome(Invalidate(env, s, now, l, text))
    case DoBypass(now, request) => Outcome(ApplyBypass(env, s, now, request))
    case DoClaimSync(now, leaseTicks) => Outcome(ClaimSync(s, now, leaseTicks))
    case DoMarkSync(now, intentId, status, lastError, nextRetryAt) =>
      Outcome(MarkSync(s, now, intentId, status, lastError, nextRetryAt))
  }

  /** Attempt ids are drawn fresh. */
  predicate Admissible(s: Store, c: Command) {
    c.DoStart? ==> c.newId !in s.attempts
  }

  // ---- which audit payloads a command is going to log -------------------------------------------

  /** The bypass at position i of the dictionary is an active one of the change request. */
  ghost predicate ActiveAt(s: Store, l: Locator, i: nat)
    requires i < |s.bypassOrder| && s.bypassOrder[i] in s.bypasses
  {
    s.bypasses[s.bypassOrder[i]].changeRequest == l && s.bypasses[s.bypassOrder[i]].active
  }

  /** If that bypass is expired, the event about it is accepted. */
  ghost predicate ExpiryAccepted(env: Env, s: Store, l: Locator, reason: string, i: nat)
    requires i < |s.bypassOrder| && s.bypassOrder[i] in s.bypasses
  {
    ActiveAt(s, l, i) ==> env.Accepts(BypassExpired(s.bypasses[s.bypassOrder[i]].fingerprint, reason))
  }

  /** Expiring from position k on gets to position i: no event before it is refused. */
  ghost predicate Reached(env: Env, s: Store, l: Locator, reason: string, k: nat, i: nat)
    requires i <= |s.bypassOrder| && forall key <- s.bypassOrder :: key in s.bypasses
  {
    k <= i && forall j :: k <= j < i ==> ExpiryAccepted(env, s, l, reason, j)
  }

  ghost predicate ExpiriesAccepted(env: Env, s: Store, l: Locator, reason: string, k: nat)
    requires forall key <- s.bypassOrder :: key in s.bypasses
  {
    forall i :: k <= i < |s.bypassOrder| ==> ExpiryAccepted(env, s, l, reason, i)
  }

  /** The bypass at position i after expiring from position k on. */
  ghost function AfterExpiry(env: Env, s: Store, now: int, l: Locator, reason: string, k: nat, i: nat): Bypass
    requires i < |s.bypassOrder| && forall key <- s.bypassOrder :: key in s.bypasses
  {
    var b := s.bypasses[s.bypassOrder[i]];
    if ActiveAt(s, l, i) && Reached(env, s, l, reason, k, i) then ExpireBypass(b, now, reason) else b
  }

  ghost predicate ExpiredUpTo(env: Env, s: Store, now: int, l: Locator, reason: string, k: nat, r: Step<()>)
    requires forall key <- s.bypassOrder :: key in s.bypasses
  {
    && (r.result.Ok? <==> ExpiriesAccepted(env, s, l, reason, k))
    && r.store.bypassOrder == s.bypassOrder && r.store.bypasses.Keys == s.bypasses.Keys
    && forall i :: 0 <= i < |s.bypassOrder| ==>
         s.bypassOrder[i] in r.store.bypasses &&
         r.store.bypasses[s.bypassOrder[i]] == AfterExpiry(env, s, now, l, reason, k, i)
  }

  /** Expiring reaches exactly the active bypasses up to the first one whose event is refused, that one included. */
  lemma {:induction false} ExpireExactly(env: Env, s: Store, now: int, l: Locator, reason: string, k: nat)
    requires Ordered(s.bypasses, s.bypassOrder)
    ensures ExpiredUpTo(env, s, now, l, reason, k, ExpireBypasses(env, s, now, l, reason, k))
    decreases |s.bypassOrder| - k
  {
    if k < |s.bypassOrder| {
      var r := ExpireBypasses(env, s, now, l, reason, k);
      var key := s.bypassOrder[k];
      var b := s.bypasses[key];
      if !ActiveAt(s, l, k) {
        ExpireExactly(env, s, now, l, reason, k + 1);
        ExpirySkips(env, s, now, l, reason, k, r);
      } else {
        var expired := s.(bypasses := s.bypasses[key := ExpireBypass(b, now, reason)]);
        var payload := BypassExpired(b.fingerprint, reason);
        if env.Accepts(payload) {
          var t := expired.Log(now, "bypass_invalidated", l, Some(b.attempt), Actor(b.actorId, Some(b.actorLogin)),
            payload);
          ExpireExactly(env, t, now, l, reason, k + 1);
          ExpiryGoesOn(env, s, t, now, l, reason, k, r);
        } else {
          ExpiryStops(env, s, now, l, reason, k, r);
        }
      }
    }
  }

  lemma ReachedFrom(env: Env, s: Store, l: Locator, reason: string, k: nat, i: nat)
    requires forall key <- s.bypassOrder :: key in s.bypasses
    requires k < |s.bypassOrder| && i <= |s.bypassOrder| && ExpiryAccepted(env, s, l, reason, k)
    ensures i != k ==> (Reached(env, s, l, reason, k, i) <==> Reached(env, s, l, reason, k + 1, i))
    ensures ExpiriesAccepted(env, s, l, reason, k) <==> ExpiriesAccepted(env, s, l, reason, k + 1)
  {
    hide ExpiryAccepted;
  }

  lemma ExpirySkips(env: Env, s: Store, now: int, l: Locator, reason: string, k: nat, r: Step<()>)
    requires Ordered(s.bypasses, s.bypassOrder) && k < |s.bypassOrder| && !ActiveAt(s, l, k)
    requires ExpiredUpTo(env, s, now, l, reason, k + 1, r)
    ensures ExpiredUpTo(env, s, now, l, reason, k, r)
  {
    hide Reached, ExpiriesAccepted;
    ReachedFrom(env, s, l, reason, k, k);
    forall i | 0 <= i < |s.bypassOrder|
      ensures AfterExpiry(env, s, now, l, reason, k, i) == AfterExpiry(env, s, now, l, reason, k + 1, i)
    {
      ReachedFrom(env, s, l, reason, k, i);
    }
  }

  lemma ExpiryStops(env: Env, s: Store, now: int, l: Locator, reason: string, k: nat, r: Step<()>)
    requires Ordered(s.bypasses, s.bypassOrder) && k < |s.bypassOrder| && ActiveAt(s, l, k)
    requires !ExpiryAccepted(env, s, l, reason, k) && r.result.Raised?
    requires r.store ==
             s.(bypasses := s.bypasses[s.bypassOrder[k] := ExpireBypass(s.bypasses[s.bypassOrder[k]], now, reason)])
    ensures ExpiredUpTo(env, s, now, l, reason, k, r)
  {
    forall i | 0 <= i < |s.bypassOrder|
      ensures r.store.bypasses[s.bypassOrder[i]] == AfterExpiry(env, s, now, l, reason, k, i)
    {
    }
  }

  lemma ExpiryGoesOn(env: Env, s: Store, t: Store, now: int, l: Locator, reason: string, k: nat, r: Step<()>)
    requires Ordered(s.bypasses, s.bypassOrder) && k < |s.bypassOrder| && ActiveAt(s, l, k)
    requires ExpiryAccepted(env, s, l, reason, k) && t.bypassOrder == s.bypassOrder
    requires t.bypasses == s.bypasses[s.bypassOrder[k] := ExpireBypass(s.bypasses[s.bypassOrder[k]], now, reason)]
    requires ExpiredUpTo(env, t, now, l, reason, k + 1, r)
    ensures ExpiredUpTo(env, s, now, l, reason, k, r)
  {
    hide Reached, ExpiriesAccepted;
    ReachedFrom(env, s, l, reason, k, k);
    SameFrom(env, s, t, l, reason, k + 1);
    forall i | 0 <= i < |s.bypassOrder|
      ensures r.store.bypasses[s.bypassOrder[i]] == AfterExpiry(env, s, now, l, reason, k, i)
    {
      ReachedFrom(env, s, l, reason, k, i);
      NotYetReached(env, s, l, reason, k + 1, i);
      if i == k { ReachesStart(env, s, l, reason, k); }
    }
  }

  lemma NotYetReached(env: Env, s: Store, l: Locator, reason: string, k: nat, i: nat)
    requires i <= |s.bypassOrder| && forall key <- s.bypassOrder :: key in s.bypasses
    ensures i < k ==> !Reached(env, s, l, reason, k, i)
  {
  }

  lemma ReachesStart(env: Env, s: Store, l: Locator, reason: string, k: nat)
    requires k <= |s.bypassOrder| && forall key <- s.bypassOrder :: key in s.bypasses
    ensures Reached(env, s, l, reason, k, k)
  {
  }

  /** What expiring from position k on does depends on the bypasses from there on only. */
  lemma SameFrom(env: Env, s: Store, t: Store, l: Locator, reason: string, k: nat)
    requires t.bypassOrder == s.bypassOrder
    requires forall key <- s.bypassOrder :: key in s.bypasses && key in t.bypasses
    requires forall i :: k <= i < |s.bypassOrder| ==> t.bypasses[s.bypassOrder[i]] == s.bypasses[s.bypassOrder[i]]
    ensures ExpiriesAccepted(env, t, l, reason, k) <==> ExpiriesAccepted(env, s, l, reason, k)
    ensures forall i :: 0 <= i < |s.bypassOrder| ==>
              (Reached(env, t, l, reason, k, i) <==> Reached(env, s, l, reason, k, i))
  {
    forall i | k <= i < |s.bypassOrder|
      ensures ExpiryAccepted(env, t, l, reason, i) <==> ExpiryAccepted(env, s, l, reason, i)
    {
    }
  }

  /** The start is neither refused nor a replay: it goes on to designate an Attempt. */
  predicate Designates(s: Store, l: Locator, expected: Option<AttemptId>, delivery: Option<string>) {
    && (delivery.Some? ==> delivery.value != "" && (l.installation, delivery.value) !in s.deliveries)
    && (expected.Some? ==> Prior(s, l) == expected)
  }

  /** Every bypass the prior Attempt leaves behind can be expired. */
  ghost predicate RetirementAccepted(env: Env, s: Store, l: Locator)
    requires s.Valid()
  {
    l in s.changeRequests ==> ExpiriesAccepted(env, s, l, SupersededReason, 0)
  }

  /** If recovery gives the job up, the event that names its last error is accepted. */
  ghost predicate GivingUpAccepted(env: Env, s: Store, maxAttempts: int, a: AttemptId)
    requires a in s.jobs
  {
    var job := s.jobs[a];
    job.status.Retryable? && job.retries >= maxAttempts ==> env.Accepts(RetriesExhausted(job.retries, job.lastError))
  }

  /**
   * The payload check accepts everything the command is going to log that is not made of numbers,
   * ids and enumeration values only.
   */
  ghost predicate PayloadsAccepted(env: Env, s: Store, c: Command)
    requires s.Valid()
  {
    match c
    case DoStart(_, _, l, _, expected, delivery) =>
      Designates(s, l, expected, delivery) ==>
        RetirementAccepted(env, s, l) && env.Accepts(AuthorityGranted(Prior(s, l), delivery))
    case DoMarkRetryable(_, a, text) =>
      a in s.jobs && s.jobs[a].status.Running? ==>
        env.Accepts(RetryError(s.jobs[a].retries + 1, ScrubJobError(env, text)))
    case DoRecover(_, maxAttempts, _) => forall a :: a in s.jobs ==> GivingUpAccepted(env, s, maxAttempts, a)
    case DoFinalize(_, a, status, text) =>
      (status.Completed? || status.Failed?) && a in s.jobs && !s.jobs[a].status.Terminal() ==>
        env.Accepts(Finalized(status, ScrubJobError(env, text)))
    case DoAppend(_, _, _, _, _, text) => env.Accepts(Appended(text))
    case DoInvalidate(_, l, text) =>
      l in s.changeRequests ==> ExpiriesAccepted(env, s, l, text, 0) && env.Accepts(DecisionInvalidated(text))
    case DoBypass(_, request) => Grantable(s, request) ==> env.Accepts(GrantPayload(request))
    case _ => true
  }

  /** Demoting an Attempt and clearing a decision leave the bypasses to be expired as they are. */
  lemma SameExpiries(env: Env, s: Store, t: Store, l: Locator, reason: string)
    requires forall key <- s.bypassOrder :: key in s.bypasses
    requires t.bypasses == s.bypasses && t.bypassOrder == s.bypassOrder
    ensures ExpiriesAccepted(env, t, l, reason, 0) <==> ExpiriesAccepted(env, s, l, reason, 0)
    ensures forall i :: 0 <= i < |s.bypassOrder| ==>
              (Reached(env, t, l, reason, 0, i) <==> Reached(env, s, l, reason, 0, i)) &&
              (ActiveAt(t, l, i) <==> ActiveAt(s, l, i))
  {
    SameFrom(env, s, t, l, reason, 0);
  }

  lemma VacateExactly(env: Env, s: Store, now: int, l: Locator)
    requires s.Valid()
    ensures Vacate(env, s, now, l).result.Ok? <==> RetirementAccepted(env, s, l)
  {
    if l in s.changeRequests {
      assert Designated(s.changeRequests, s.attempts, l);
      var demoted := Demote(s, s.changeRequests[l].authoritative);
      ExpireExactly(env, demoted, now, l, SupersededReason, 0);
      SameExpiries(env, s, demoted, l, SupersededReason);
    }
  }

  lemma StartCutShort(env: Env, s: Store, now: int, newId: AttemptId, l: Locator, key: RequestKey,
                      expected: Option<AttemptId>, delivery: Option<string>)
    requires s.Valid()
    ensures Start(env, s, now, newId, l, key, expected, delivery).Unsafe() <==>
              Designates(s, l, expected, delivery) &&
              !(RetirementAccepted(env, s, l) && env.Accepts(AuthorityGranted(Prior(s, l), delivery)))
  {
    hide Vacate, Designate, RetirementAccepted;
    VacateResult(env, s, now, l);
    VacateExactly(env, s, now, l);
  }

  lemma InvalidateCutShort(env: Env, s: Store, now: int, l: Locator, reason: string)
    requires s.Valid()
    ensures Invalidate(env, s, now, l, reason).Unsafe() <==>
              l in s.changeRequests &&
              !(ExpiriesAccepted(env, s, l, reason, 0) && env.Accepts(DecisionInvalidated(reason)))
  {
    hide ExpireBypasses, ExpiriesAccepted;
    if l in s.changeRequests {
      var cleared := ClearStanding(s, l);
      ExpireEffect(env, cleared, now, l, reason);
      ExpireExactly(env, cleared, now, l, reason, 0);
      SameExpiries(env, s, cleared, l, reason);
    }
  }

  lemma RecoverJobResult(env: Env, s: Store, now: int, maxAttempts: int, leaseTicks: int, a: AttemptId,
                         report: RecoveryReport)
    requires a in s.jobs && a in s.attempts
    ensures var step := RecoverJob(env, s, now, maxAttempts, leaseTicks, a, report);
      && (step.result.Ok? <==> GivingUpAccepted(env, s, maxAttempts, a))
      && (step.result.Raised? ==> step.Unsafe())
      && a in step.store.jobs && step.store.jobs == s.jobs[a := step.store.jobs[a]]
      && step.store.attempts == s.attempts && step.store.jobOrder == s.jobOrder
  {
    hide Stale;
  }

  /** A recovery pass is cut short at the first job it gives up with a refused event. */
  lemma {:induction false} RecoverCutShort(env: Env, s: Store, now: int, maxAttempts: int, leaseTicks: int, k: nat,
                                           report: RecoveryReport)
    requires Ordered(s.jobs, s.jobOrder) && forall a <- s.jobOrder :: a in s.attempts
    ensures var step := Recover(env, s, now, maxAttempts, leaseTicks, k, report);
      && (step.result.Ok? <==>
            forall i :: k <= i < |s.jobOrder| ==> GivingUpAccepted(env, s, maxAttempts, s.jobOrder[i]))
      && (step.result.Raised? ==> step.Unsafe())
    decreases |s.jobOrder| - k
  {
    hide RecoverJob;
    if k < |s.jobOrder| {
      var a := s.jobOrder[k];
      var one := RecoverJob(env, s, now, maxAttempts, leaseTicks, a, report);
      RecoverJobResult(env, s, now, maxAttempts, leaseTicks, a, report);
      if one.result.Ok? {
        RecoverCutShort(env, one.store, now, maxAttempts, leaseTicks, k + 1, one.result.value);
        forall i | k < i < |s.jobOrder|
          ensures one.store.jobs[s.jobOrder[i]] == s.jobs[s.jobOrder[i]]
        {
        }
        forall i | k < i < |s.jobOrder|
          ensures GivingUpAccepted(env, one.store, maxAttempts, s.jobOrder[i]) <==>
                  GivingUpAccepted(env, s, maxAttempts, s.jobOrder[i])
        {
        }
      }
    }
  }

  lemma RecoveryCutShort(env: Env, s: Store, now: int, maxAttempts: int, leaseTicks: int)
    requires s.Valid()
    ensures Recover(env, s, now, maxAttempts, leaseTicks, 0, NothingRecovered).Unsafe() <==>
              exists a :: a in s.jobs && !GivingUpAccepted(env, s, maxAttempts, a)
  {
    hide Recover, GivingUpAccepted;
    RecoverCutShort(env, s, now, maxAttempts, leaseTicks, 0, NothingRecovered);
    if a :| a in s.jobs && !GivingUpAccepted(env, s, maxAttempts, a) {
      assert a in s.jobOrder;
    }
  }

  lemma PublishCompletes(env: Env, s: Store, now: int, a: AttemptId, key: RequestKey, identity: Option<ReviewIdentity>,
                         gate: GateState)
    requires s.Linked()
    ensures !Publish(env, s, now, a, key, identity, gate).Unsafe()
  {
    hide PublicationInputsMatch, CompleteJob;
    assert a in s.attempts ==> Located(s.attempts, s.changeRequests, a);
  }

  lemma BypassCutShort(env: Env, s: Store, now: int, r: BypassRequest)
    requires s.Valid()
    ensures ApplyBypass(env, s, now, r).Unsafe() <==> Grantable(s, r) && !env.Accepts(GrantPayload(r))
  {
    hide SettleGate;
    assert r.attempt in s.attempts ==> Located(s.attempts, s.changeRequests, r.attempt);
    if Grantable(s, r) { GrantedValid(s, now, r); }
    assert Grantable(s, r) && env.Accepts(GrantPayload(r)) ==>
      SettleGate(GrantedLog(s, now, r), now, r, GrantRecord(s, now, r)).result.Ok? by {
      if Grantable(s, r) { SettleCompletes(GrantedLog(s, now, r), now, r, GrantRecord(s, now, r)); }
    }
  }

  lemma SettleCompletes(s: Store, now: int, r: BypassRequest, record: Bypass)
    requires r.changeRequest in s.changeRequests
    requires forall key <- s.bypassOrder :: key in s.bypasses
    ensures SettleGate(s, now, r, record).result.Ok?
  {
  }

  /** An operation is cut short exactly when the payload check refuses something it is going to log. */
  lemma CutShortExactly(env: Env, s: Store, c: Command)
    requires s.Valid()
    ensures Apply(env, s, c).cutShort <==> !PayloadsAccepted(env, s, c)
  {
    hide Start, Recover, Publish, Invalidate, ApplyBypass, Claim;
    match c
    case DoStart(now, newId, l, key, expected, delivery) =>
      StartCutShort(env, s, now, newId, l, key, expected, delivery);
    case DoClaim(now, a) => ClaimCases(env, s, now, a);
    case DoRecover(now, maxAttempts, leaseTicks) => RecoveryCutShort(env, s, now, maxAttempts, leaseTicks);
    case DoPublish(now, a, key, recorded, gate) => PublishCompletes(env, s, now, a, key, recorded, gate);
    case DoInvalidate(now, l, text) => InvalidateCutShort(env, s, now, l, text);
    case DoBypass(now, request) => BypassCutShort(env, s, now, request);
    case _ =>
  }
}
