/**
 * What a refused audit payload costs. An operation that logs it stops there and leaves the state as
 * it is then; for each invariant, this module says exactly after which operations it still holds.
 */
module StoreRefusals {
  import opened Prelude
  import opened Identity
  import opened Store
  import opened StoreInvariants
  import opened StoreSteps
  import opened StoreValid
  import opened StoreOutbox
  import opened StoreLedger
  import opened StoreCommands
  import opened StoreRuns
  import opened StoreBypass

  // ---- the state a refused payload leaves behind ------------------------------------------------

  /** The bypasses expiring reaches are expired, the others are as they were. */
  ghost predicate Trimmed(env: Env, s: Store, t: Store, now: int, l: Locator, reason: string)
    requires forall key <- s.bypassOrder :: key in s.bypasses
  {
    && t.bypassOrder == s.bypassOrder && t.bypasses.Keys == s.bypasses.Keys
    && forall i :: 0 <= i < |s.bypassOrder| ==>
         s.bypassOrder[i] in t.bypasses &&
         t.bypasses[s.bypassOrder[i]] == AfterExpiry(env, s, now, l, reason, 0, i)
  }

  /** Expiring from a state with the same bypasses. */
  lemma ExpiryTrims(env: Env, s: Store, m: Store, now: int, l: Locator, reason: string)
    requires Ordered(s.bypasses, s.bypassOrder)
    requires m.bypasses == s.bypasses && m.bypassOrder == s.bypassOrder
    ensures var r := ExpireBypasses(env, m, now, l, reason, 0);
      && Trimmed(env, s, r.store, now, l, reason)
      && r.store == m.(bypasses := r.store.bypasses, audit := r.store.audit)
      && SameRevisionEvents(r.store.audit, m.audit)
      && Expired(s.bypasses, r.store.bypasses, l, now, reason)
      && (r.result.Ok? <==> ExpiriesAccepted(env, s, l, reason, 0))
  {
    hide ExpireBypasses, ExpiriesAccepted;
    ExpireExactly(env, m, now, l, reason, 0);
    ExpireEffect(env, m, now, l, reason);
    SameExpiries(env, s, m, l, reason);
    hide Reached, ActiveAt;
    var t := ExpireBypasses(env, m, now, l, reason, 0).store;
    forall i | 0 <= i < |s.bypassOrder|
      ensures s.bypassOrder[i] in t.bypasses &&
              t.bypasses[s.bypassOrder[i]] == AfterExpiry(env, s, now, l, reason, 0, i)
    {
    }
  }

  /** A start is cut short while it expires bypasses, or with the new Attempt designated but not logged. */
  lemma CutStart(env: Env, s: Store, c: Command) returns (t: Store)
    requires s.Valid() && c.DoStart? && !PayloadsAccepted(env, s, c)
    ensures t == Apply(env, s, c).store
    ensures if RetirementAccepted(env, s, c.l) then
              && Vacate(env, s, c.now, c.l).result.Ok?
              && t == AfterDesignation(env, s, c.now, c.newId, c.l, c.key, c.delivery)
            else
              && c.l in s.changeRequests
              && Designated(s.changeRequests, s.attempts, c.l)
              && t == Demote(s, s.changeRequests[c.l].authoritative).(bypasses := t.bypasses, audit := t.audit)
              && SameRevisionEvents(t.audit, s.audit)
              && Trimmed(env, s, t, c.now, c.l, SupersededReason)
  {
    hide Start, Vacate, RetirementAccepted, Designate, ExpireBypasses, Trimmed;
    t := Start(env, s, c.now, c.newId, c.l, c.key, c.expected, c.delivery).store;
    StartCases(env, s, c.now, c.newId, c.l, c.key, c.expected, c.delivery);
    StartCutShort(env, s, c.now, c.newId, c.l, c.key, c.expected, c.delivery);
    VacateExactly(env, s, c.now, c.l);
    if !RetirementAccepted(env, s, c.l) { RetirementCut(env, s, c.now, c.l); }
  }

  lemma RetirementCut(env: Env, s: Store, now: int, l: Locator)
    requires s.Valid() && !RetirementAccepted(env, s, l)
    ensures l in s.changeRequests && Designated(s.changeRequests, s.attempts, l)
    ensures var t := Vacate(env, s, now, l).store;
      && t == Demote(s, s.changeRequests[l].authoritative).(bypasses := t.bypasses, audit := t.audit)
      && SameRevisionEvents(t.audit, s.audit)
      && Trimmed(env, s, t, now, l, SupersededReason)
  {
    assert Designated(s.changeRequests, s.attempts, l);
    ExpiryTrims(env, s, Demote(s, s.changeRequests[l].authoritative), now, l, SupersededReason);
  }

  /** An invalidation is cut short while it expires bypasses, or just before it is logged. */
  lemma CutInvalidate(env: Env, s: Store, c: Command) returns (t: Store)
    requires s.Valid() && c.DoInvalidate? && !PayloadsAccepted(env, s, c)
    ensures t == Apply(env, s, c).store
    ensures c.l in s.changeRequests
    ensures t == ClearStanding(s, c.l).(bypasses := t.bypasses, intents := t.intents, audit := t.audit)
    ensures t.intents == if ExpiriesAccepted(env, s, c.l, c.text, 0) then
                           Superseding(s.intents, c.now, s.changeRequests[c.l].standing)
                         else s.intents
    ensures SameRevisionEvents(t.audit, s.audit)
    ensures Trimmed(env, s, t, c.now, c.l, c.text) && Expired(s.bypasses, t.bypasses, c.l, c.now, c.text)
  {
    hide ExpireBypasses, ExpiriesAccepted, Trimmed, Expired;
    t := Invalidate(env, s, c.now, c.l, c.text).store;
    ExpiryTrims(env, s, ClearStanding(s, c.l), c.now, c.l, c.text);
    var expired := ExpireBypasses(env, ClearStanding(s, c.l), c.now, c.l, c.text, 0);
    TrimmedSame(env, s, expired.store, t, c.now, c.l, c.text);
  }

  lemma TrimmedSame(env: Env, s: Store, t: Store, u: Store, now: int, l: Locator, reason: string)
    requires forall key <- s.bypassOrder :: key in s.bypasses
    requires u.bypasses == t.bypasses && u.bypassOrder == t.bypassOrder
    ensures Trimmed(env, s, u, now, l, reason) <==> Trimmed(env, s, t, now, l, reason)
  {
    hide AfterExpiry;
  }

  /** A bypass call is cut short with its record made and nothing else done. */
  lemma CutBypass(env: Env, s: Store, c: Command)
    requires s.Valid() && c.DoBypass? && !PayloadsAccepted(env, s, c)
    ensures Grantable(s, c.request)
    ensures Apply(env, s, c).store == Granted(s, c.now, c.request)
  {
    hide SettleGate;
    assert Located(s.attempts, s.changeRequests, c.request.attempt);
  }

  // ---- authority and standing -----------------------------------------------------------------------

  /** Every active bypass of the change request is expired before an event is refused, or by the refused one. */
  ghost predicate AllReached(env: Env, s: Store, l: Locator, reason: string)
    requires forall key <- s.bypassOrder :: key in s.bypasses
  {
    forall i :: 0 <= i < |s.bypassOrder| && ActiveAt(s, l, i) ==> Reached(env, s, l, reason, 0, i)
  }

  /**
   * Authority, standing and bypasses still agree after the refusal, unless a start is stopped while
   * it retires the prior Attempt or an invalidation leaves a bypass active.
   */
  ghost predicate SoundSurvives(env: Env, s: Store, c: Command)
    requires s.Valid()
  {
    match c
    case DoStart(_, _, l, _, _, _) => RetirementAccepted(env, s, l)
    case DoInvalidate(_, l, text) => AllReached(env, s, l, text)
    case _ => true
  }

  lemma CutStartSound(env: Env, s: Store, c: Command)
    requires s.Valid() && Sound(s) && c.DoStart? && Admissible(s, c) && !PayloadsAccepted(env, s, c)
    ensures Sound(Apply(env, s, c).store) <==> RetirementAccepted(env, s, c.l)
  {
    hide Apply, PayloadsAccepted, RetirementAccepted, Vacate, Trimmed;
    var t := CutStart(env, s, c);
    if RetirementAccepted(env, s, c.l) {
      VacateResult(env, s, c.now, c.l);
      VacateVacant(env, s, c.now, c.l);
      DesignateSound(Vacate(env, s, c.now, c.l).store, c.now, c.newId, c.l, c.key, c.delivery,
        NewLease(s, c.newId, c.l, c.key));
    } else {
      var prior := s.changeRequests[c.l].authoritative;
      assert ChangeRequestOk(s, c.l);
      assert t.attempts[prior].status.Superseded? && t.changeRequests[c.l].authoritative == prior;
      assert Sound(t) ==> AttemptOk(t, prior);
    }
  }

  lemma CutInvalidateSound(env: Env, s: Store, c: Command)
    requires s.Valid() && Sound(s) && c.DoInvalidate? && !PayloadsAccepted(env, s, c)
    ensures Sound(Apply(env, s, c).store) <==> AllReached(env, s, c.l, c.text)
  {
    hide Apply, PayloadsAccepted, ExpiriesAccepted, Trimmed, AllReached, Sound;
    var t := CutInvalidate(env, s, c);
    TrimmedActive(env, s, t, c.now, c.l, c.text);
    if AllReached(env, s, c.l, c.text) {
      ClearedSound(s, t, c.now, c.l, c.text);
    } else {
      var key :| key in s.bypasses && s.bypasses[key].changeRequest == c.l && t.bypasses[key].active;
      LeftActive(t, key);
    }
  }

  lemma LeftActive(t: Store, key: BypassKey)
    requires key in t.bypasses && t.bypasses[key].active && t.bypasses[key].changeRequest in t.changeRequests
    requires t.changeRequests[t.bypasses[key].changeRequest].standing == None
    ensures !Sound(t)
  {
    hide AttemptsOk, ChangeRequestsOk;
    assert t.Linked() ==> !BypassOk(t, key);
  }

  lemma TrimmedActive(env: Env, s: Store, t: Store, now: int, l: Locator, reason: string)
    requires Ordered(s.bypasses, s.bypassOrder) && Trimmed(env, s, t, now, l, reason)
    ensures AllReached(env, s, l, reason) <==>
              forall key :: key in s.bypasses && s.bypasses[key].changeRequest == l ==> !t.bypasses[key].active
  {
    hide Reached;
    if AllReached(env, s, l, reason) {
      forall key | key in s.bypasses && s.bypasses[key].changeRequest == l
        ensures !t.bypasses[key].active
      {
        assert key in s.bypassOrder;
        var i :| 0 <= i < |s.bypassOrder| && s.bypassOrder[i] == key;
        assert t.bypasses[s.bypassOrder[i]] == AfterExpiry(env, s, now, l, reason, 0, i);
      }
    } else {
      var i :| 0 <= i < |s.bypassOrder| && ActiveAt(s, l, i) && !Reached(env, s, l, reason, 0, i);
      assert t.bypasses[s.bypassOrder[i]].active;
    }
  }

  lemma GrantedStaysSound(s: Store, now: int, r: BypassRequest)
    requires s.Valid() && Sound(s) && Grantable(s, r)
    ensures Sound(Granted(s, now, r))
  {
    GrantedSound(s, Granted(s, now, r), r);
  }

  lemma QuietSound(env: Env, s: Store, c: Command)
    requires s.Valid() && Sound(s) && Quiet(c)
    ensures Sound(Apply(env, s, c).store)
  {
    hide Claim, MarkRetryable, Recover, Finalize, Sound;
    match c
    case DoRecordIdentity(a, identity) => RecordIdentitySound(s, a, identity);
    case DoClaim(now, a) => ClaimSound(env, s, now, a);
    case DoMarkRetryable(now, a, text) => MarkRetryableSound(env, s, now, a, text);
    case DoRecover(now, maxAttempts, leaseTicks) =>
      RecoverSound(env, s, now, maxAttempts, leaseTicks, 0, NothingRecovered);
    case DoFinalize(now, a, status, text) => FinalizeSound(env, s, now, a, status, text);
    case DoAppend(_, _, _, _, _, _) => LogSound(s, Apply(env, s, c).store);
  }

  /**
   * One step keeps authority, standing and bypasses consistent exactly when nothing is refused or the refusal is
   * harmless.
   */
  lemma StepSoundExactly(env: Env, s: Store, c: Command)
    requires s.Valid() && Sound(s) && Admissible(s, c)
    ensures Sound(Apply(env, s, c).store) <==> PayloadsAccepted(env, s, c) || SoundSurvives(env, s, c)
  {
    hide Apply, Sound;
    CutShortExactly(env, s, c);
    if PayloadsAccepted(env, s, c) {
      StepSound(env, s, c);
    } else {
      hide RetirementAccepted, AllReached;
      if c.DoStart? { CutStartSound(env, s, c); }
      else if c.DoInvalidate? { CutInvalidateSound(env, s, c); }
      else if c.DoBypass? {
        CutBypass(env, s, c);
        GrantedStaysSound(s, c.now, c.request);
      } else {
        assert Quiet(c);
        QuietSound(env, s, c);
      }
    }
  }

  // ---- the revision ledger ------------------------------------------------------------------------------

  /** The ledger balances after the refusal unless a revision was made and not logged. */
  ghost predicate LedgerSurvives(env: Env, s: Store, c: Command)
    requires s.Valid()
  {
    match c
    case DoStart(_, _, l, _, _, _) => !RetirementAccepted(env, s, l)
    case DoInvalidate(_, _, _) => false
    case _ => true
  }

  /** A revision without an event of its own. */
  lemma Unbalanced(s: Store, t: Store, l: Locator)
    requires Ledger(s) && SameRevisionEvents(t.audit, s.audit) && l in t.changeRequests
    requires t.changeRequests[l].revision == if l in s.changeRequests then s.changeRequests[l].revision + 1 else 0
    ensures !Ledger(t)
  {
    assert RevisionEvents(t.audit, l) == RevisionEvents(s.audit, l);
  }

  lemma CutStartLedger(env: Env, s: Store, c: Command)
    requires s.Valid() && Ledger(s) && c.DoStart? && !PayloadsAccepted(env, s, c)
    ensures Ledger(Apply(env, s, c).store) <==> !RetirementAccepted(env, s, c.l)
  {
    hide Apply, PayloadsAccepted, RetirementAccepted, Vacate, Trimmed, Ledger;
    var t := CutStart(env, s, c);
    if RetirementAccepted(env, s, c.l) {
      VacatePlacesOf(env, s, c.now, c.l);
      Unbalanced(s, t, c.l);
    } else {
      LedgerKept(s, t);
    }
  }

  lemma VacatePlacesOf(env: Env, s: Store, now: int, l: Locator)
    requires s.Valid() && Vacate(env, s, now, l).result.Ok?
    ensures var r := Vacate(env, s, now, l).store;
      r.changeRequests == s.changeRequests && SameRevisionEvents(r.audit, s.audit)
  {
    VacatePlaces(env, s, now, l);
  }

  lemma CutInvalidateLedger(env: Env, s: Store, c: Command)
    requires s.Valid() && Ledger(s) && c.DoInvalidate? && !PayloadsAccepted(env, s, c)
    ensures !Ledger(Apply(env, s, c).store)
  {
    hide Apply, PayloadsAccepted, ExpiriesAccepted, Trimmed, Expired;
    var t := CutInvalidate(env, s, c);
    Unbalanced(s, t, c.l);
  }

  lemma QuietCutLedger(env: Env, s: Store, c: Command)
    requires s.Valid() && Ledger(s) && Quiet(c) && !PayloadsAccepted(env, s, c)
    ensures Ledger(Apply(env, s, c).store)
  {
    hide Claim, MarkRetryable, Recover, Finalize, Ledger;
    match c
    case DoMarkRetryable(now, a, text) => MarkRetryableLedger(env, s, now, a, text);
    case DoRecover(now, maxAttempts, leaseTicks) =>
      RecoverLedger(env, s, now, maxAttempts, leaseTicks, 0, NothingRecovered);
    case DoFinalize(now, a, status, text) => FinalizeLedger(env, s, now, a, status, text);
    case DoAppend(_, _, _, _, _, _) =>
  }

  /**
   * One step keeps the ledger balanced exactly when it is carried out and does not pose as a
   * revision, or is refused without having made one.
   */
  lemma StepLedgerExactly(env: Env, s: Store, c: Command)
    requires s.Valid() && Ledger(s)
    ensures Ledger(Apply(env, s, c).store) <==>
              if PayloadsAccepted(env, s, c) then AppendsWell(c) else LedgerSurvives(env, s, c)
  {
    hide Apply, Ledger;
    CutShortExactly(env, s, c);
    if PayloadsAccepted(env, s, c) {
      if AppendsWell(c) { StepLedger(env, s, c); } else { PosedAppend(env, s, c); }
    } else {
      hide RetirementAccepted, PayloadsAccepted;
      if c.DoStart? { CutStartLedger(env, s, c); }
      else if c.DoInvalidate? { CutInvalidateLedger(env, s, c); }
      else if c.DoBypass? {
        CutBypass(env, s, c);
        QuietKept(s, Granted(s, c.now, c.request));
      } else {
        CutMeansQuiet(env, s, c);
        QuietCutLedger(env, s, c);
      }
    }
  }

  lemma PosedAppend(env: Env, s: Store, c: Command)
    requires s.Valid() && Ledger(s) && c.DoAppend? && RevisionKind(c.kind) && PayloadsAccepted(env, s, c)
    ensures !Ledger(Apply(env, s, c).store)
  {
    AppendLedger(env, s, c.now, c.kind, c.l, c.about, c.actor, c.text);
  }

  /** The other operations log nothing that could be refused. */
  lemma CutMeansQuiet(env: Env, s: Store, c: Command)
    requires s.Valid() && !PayloadsAccepted(env, s, c)
    ensures Quiet(c) || c.DoStart? || c.DoInvalidate? || c.DoBypass?
  {
  }

  // ---- the outbox -------------------------------------------------------------------------------------------

  /** Some live intent is waiting to announce a decision of the change request. */
  ghost predicate LiveIntentFor(s: Store, l: Locator) {
    exists i :: 0 <= i < |s.intents| && s.intents[i].status.Live() && s.intents[i].attempt in s.attempts &&
      s.attempts[s.intents[i].attempt].changeRequest == l
  }

  /** The outbox is still in step unless an invalidation is stopped before it supersedes a live intent. */
  ghost predicate OutboxSurvives(env: Env, s: Store, c: Command)
    requires s.Valid()
  {
    c.DoInvalidate? ==> ExpiriesAccepted(env, s, c.l, c.text, 0) || !LiveIntentFor(s, c.l)
  }

  lemma CutStartOutbox(env: Env, s: Store, c: Command)
    requires s.Valid() && Sound(s) && Outbox(s) && c.DoStart? && Admissible(s, c) && !PayloadsAccepted(env, s, c)
    ensures var t := Apply(env, s, c).store; t.Linked() && Outbox(t)
  {
    hide Apply, PayloadsAccepted, RetirementAccepted, Vacate, Trimmed, Outbox, Sound;
    var t := CutStart(env, s, c);
    if RetirementAccepted(env, s, c.l) {
      VacatePlaces(env, s, c.now, c.l);
      VacateResult(env, s, c.now, c.l);
      VacateLinked(env, s, c.now, c.l);
      DesignateOutbox(s, Vacate(env, s, c.now, c.l).store, c.now, c.newId, c.l, c.key, c.delivery,
        NewLease(s, c.newId, c.l, c.key));
    } else {
      LinksKept(s, t);
      OutboxKept(s, t);
    }
  }

  lemma Unsuperseded(intents: seq<Intent>, now: int, x: Option<AttemptId>)
    requires x.Some? ==> forall i :: 0 <= i < |intents| && intents[i].status.Live() ==> intents[i].attempt != x.value
    ensures Superseding(intents, now, x) == intents
  {
    if x.Some? {
      var superseded := SupersedeIntents(intents, now, x.value);
      forall i | 0 <= i < |intents| ensures superseded[i] == intents[i] {
        assert superseded[i] == SupersedeIntent(intents[i], now, x.value);
      }
      assert superseded == intents;
    }
  }

  lemma CutInvalidateOutbox(env: Env, s: Store, c: Command)
    requires s.Valid() && Sound(s) && Outbox(s) && c.DoInvalidate? && !PayloadsAccepted(env, s, c)
    ensures var t := Apply(env, s, c).store;
      t.Linked() && (Outbox(t) <==> OutboxSurvives(env, s, c))
  {
    hide Apply, PayloadsAccepted, ExpiriesAccepted, Trimmed, Expired;
    var t := CutInvalidate(env, s, c);
    var standing := s.changeRequests[c.l].standing;
    assert ChangeRequestOk(s, c.l);
    LinksKept(s, t);
    if OutboxSurvives(env, s, c) {
      if !ExpiriesAccepted(env, s, c.l, c.text, 0) {
        forall i | 0 <= i < |s.intents| && s.intents[i].status.Live()
          ensures standing.Some? ==> s.intents[i].attempt != standing.value
        {
          assert IntentOk(s, s.intents[i]);
        }
        Unsuperseded(s.intents, c.now, standing);
      }
      OutboxBumped(s, t, c.now, c.l, standing);
    } else {
      var i :| 0 <= i < |s.intents| && s.intents[i].status.Live() && s.intents[i].attempt in s.attempts &&
        s.attempts[s.intents[i].attempt].changeRequest == c.l;
      assert IntentOk(s, s.intents[i]);
      assert !IntentOk(t, t.intents[i]);
    }
  }

  lemma GrantedOutbox(s: Store, now: int, r: BypassRequest)
    requires s.Valid() && Outbox(s) && Grantable(s, r)
    ensures Granted(s, now, r).Linked() && Outbox(Granted(s, now, r))
  {
    GrantedValid(s, now, r);
    OutboxKept(s, Granted(s, now, r));
  }

  /** Marking an intent is the one completed step that can put the outbox out of step. */
  lemma StaleMark(env: Env, s: Store, c: Command)
    requires s.Valid() && Outbox(s) && !MarksWell(s, c)
    ensures !Outbox(Apply(env, s, c).store)
  {
    MarkSyncOutbox(s, c.now, c.intentId, c.syncStatus, c.lastError, c.nextRetryAt);
  }

  /**
   * One step keeps the outbox in step exactly when it is carried out and revives no outdated
   * intent, or is refused in time.
   */
  lemma StepOutboxExactly(env: Env, s: Store, c: Command)
    requires s.Valid() && Sound(s) && Outbox(s) && Admissible(s, c)
    ensures var t := Apply(env, s, c).store;
      && t.Linked()
      && (Outbox(t) <==> if PayloadsAccepted(env, s, c) then MarksWell(s, c) else OutboxSurvives(env, s, c))
  {
    hide Apply, Outbox, Sound, PayloadsAccepted, MarksWell, OutboxSurvives;
    StepValid(env, s, c);
    CutShortExactly(env, s, c);
    if PayloadsAccepted(env, s, c) {
      if MarksWell(s, c) { StepOutbox(env, s, c); } else { StaleMark(env, s, c); }
    } else {
      CutMeansQuiet(env, s, c);
      if c.DoInvalidate? {
        CutInvalidateOutbox(env, s, c);
      } else {
        OtherCutOutbox(env, s, c);
        SurvivesOthers(env, s, c);
      }
    }
  }

  lemma SurvivesOthers(env: Env, s: Store, c: Command)
    requires s.Valid() && !c.DoInvalidate?
    ensures OutboxSurvives(env, s, c)
  {
  }

  lemma OtherCutOutbox(env: Env, s: Store, c: Command)
    requires s.Valid() && Sound(s) && Outbox(s) && Admissible(s, c) && !PayloadsAccepted(env, s, c) && !c.DoInvalidate?
    ensures var t := Apply(env, s, c).store; t.Linked() && Outbox(t)
  {
    hide Apply, Outbox, Sound, PayloadsAccepted;
    CutMeansQuiet(env, s, c);
    if c.DoStart? {
      CutStartOutbox(env, s, c);
    } else if c.DoBypass? {
      CutBypass(env, s, c);
      GrantedOutbox(s, c.now, c.request);
    } else {
      QuietStep(env, s, c);
      OutboxUntouched(s, Apply(env, s, c).store);
    }
  }

  // ---- the gate and the accepted risks --------------------------------------------------------------------------

  /** Expiring stops before it reaches an active bypass of the Attempt for one of the findings. */
  ghost predicate NoneReached(env: Env, s: Store, l: Locator, reason: string, a: AttemptId, blocking: set<string>)
    requires forall key <- s.bypassOrder :: key in s.bypasses
  {
    forall i :: 0 <= i < |s.bypassOrder| && ActiveAt(s, l, i) && Reached(env, s, l, reason, 0, i) ==>
      s.bypassOrder[i].0 != a || s.bypassOrder[i].1 !in blocking
  }

  /**
   * The standing gate still tells whether all blocking findings are accepted, unless a start that
   * is stopped has expired one of them, or the refused bypass would have accepted the last one.
   */
  ghost predicate GateSurvives(env: Env, s: Store, c: Command, a: AttemptId, blocking: set<string>)
    requires s.Valid()
  {
    match c
    case DoStart(_, _, l, _, _, _) =>
      RetirementAccepted(env, s, l) ||
      (Stands(s, a) && s.attempts[a].changeRequest == l && StandingGate(s, a) == Some(PassedWithBypass) ==>
        NoneReached(env, s, l, SupersededReason, a, blocking))
    case DoBypass(_, request) => request.attempt == a ==> !(blocking <= Accepted(s, a) + {request.fingerprint})
    case _ => true
  }

  lemma TrimmedAccepted(env: Env, s: Store, t: Store, now: int, l: Locator, reason: string, a: AttemptId)
    requires Ordered(s.bypasses, s.bypassOrder) && Trimmed(env, s, t, now, l, reason)
    ensures Accepted(t, a) <= Accepted(s, a)
    ensures forall i :: 0 <= i < |s.bypassOrder| && s.bypassOrder[i].0 == a && s.bypasses[s.bypassOrder[i]].active ==>
              (s.bypassOrder[i].1 in Accepted(t, a) <==>
                !(ActiveAt(s, l, i) && Reached(env, s, l, reason, 0, i)))
  {
    hide Reached, ActiveAt;
    forall f | f in Accepted(t, a) ensures f in Accepted(s, a) {
      assert (a, f) in s.bypassOrder;
      var i :| 0 <= i < |s.bypassOrder| && s.bypassOrder[i] == (a, f);
      assert t.bypasses[s.bypassOrder[i]] == AfterExpiry(env, s, now, l, reason, 0, i);
      assert s.bypasses[(a, f)].active;
    }
    forall i | 0 <= i < |s.bypassOrder| && s.bypassOrder[i].0 == a && s.bypasses[s.bypassOrder[i]].active
      ensures s.bypassOrder[i].1 in Accepted(t, a) <==> !(ActiveAt(s, l, i) && Reached(env, s, l, reason, 0, i))
    {
      var key := s.bypassOrder[i];
      assert t.bypasses[key] == AfterExpiry(env, s, now, l, reason, 0, i);
      assert key == (a, key.1);
    }
  }

  lemma CutStartGate(env: Env, s: Store, c: Command, a: AttemptId, blocking: set<string>)
    requires s.Valid() && Sound(s) && c.DoStart? && Admissible(s, c) && !PayloadsAccepted(env, s, c)
    requires GateCovers(s, a, blocking)
    ensures GateCovers(Apply(env, s, c).store, a, blocking) <==> GateSurvives(env, s, c, a, blocking)
  {
    hide Apply, PayloadsAccepted, RetirementAccepted, Vacate, Trimmed, Reached, ActiveAt, Sound;
    var t := CutStart(env, s, c);
    if RetirementAccepted(env, s, c.l) {
      if Stands(t, a) {
        VacatePlaces(env, s, c.now, c.l);
        VacateElsewhere(env, s, c.now, c.l, a);
        AcceptedKept(Vacate(env, s, c.now, c.l).store, t, a);
      }
    } else {
      TrimmedAccepted(env, s, t, c.now, c.l, SupersededReason, a);
      assert Stands(t, a) <==> Stands(s, a);
      if Stands(s, a) {
        if s.attempts[a].changeRequest == c.l {
          TrimmedCovers(env, s, t, c.now, c.l, SupersededReason, a, blocking);
        } else {
          FarTrim(env, s, t, c.now, c.l, SupersededReason, a);
        }
      }
    }
  }

  /** What was covered stays covered exactly when expiring reaches no blocking finding of the Attempt. */
  lemma TrimmedCovers(env: Env, s: Store, t: Store, now: int, l: Locator, reason: string, a: AttemptId,
                      blocking: set<string>)
    requires Ordered(s.bypasses, s.bypassOrder) && Trimmed(env, s, t, now, l, reason)
    ensures Accepted(t, a) <= Accepted(s, a)
    ensures blocking <= Accepted(s, a) ==>
              (blocking <= Accepted(t, a) <==> NoneReached(env, s, l, reason, a, blocking))
  {
    hide Reached, Trimmed;
    TrimmedAccepted(env, s, t, now, l, reason, a);
    if blocking <= Accepted(s, a) {
      forall f | f in blocking
        ensures exists i ::
                  0 <= i < |s.bypassOrder| && s.bypassOrder[i] == (a, f) && s.bypasses[s.bypassOrder[i]].active
      {
        assert f in Accepted(s, a);
        assert (a, f) in s.bypassOrder;
      }
    }
  }

  lemma FarTrim(env: Env, s: Store, t: Store, now: int, l: Locator, reason: string, a: AttemptId)
    requires s.Valid() && Sound(s) && Trimmed(env, s, t, now, l, reason)
    requires a in s.attempts && s.attempts[a].changeRequest != l
    ensures Accepted(t, a) == Accepted(s, a)
  {
    hide Reached;
    forall key | key in s.bypasses && key.0 == a
      ensures t.bypasses[key].active == s.bypasses[key].active
    {
      assert BypassOk(s, key);
      assert key in s.bypassOrder;
      var i :| 0 <= i < |s.bypassOrder| && s.bypassOrder[i] == key;
      assert t.bypasses[s.bypassOrder[i]] == AfterExpiry(env, s, now, l, reason, 0, i);
    }
    AcceptedKept(s, t, a);
  }

  lemma CutBypassGate(env: Env, s: Store, c: Command, a: AttemptId, blocking: set<string>)
    requires s.Valid() && c.DoBypass? && !PayloadsAccepted(env, s, c)
    requires GateCovers(s, a, blocking)
    ensures GateCovers(Apply(env, s, c).store, a, blocking) <==> GateSurvives(env, s, c, a, blocking)
  {
    hide Apply, PayloadsAccepted;
    CutBypass(env, s, c);
    var r := c.request;
    var t := Granted(s, c.now, r);
    if r.attempt == a {
      AcceptedMore(s, c.now, r);
    } else {
      AcceptedKept(s, t, a);
    }
  }

  lemma AcceptedMore(s: Store, now: int, r: BypassRequest)
    requires (r.attempt, r.fingerprint) !in s.bypasses
    ensures Accepted(Granted(s, now, r), r.attempt) == Accepted(s, r.attempt) + {r.fingerprint}
  {
    var t := Granted(s, now, r);
    forall f ensures f in Accepted(t, r.attempt) <==> f in Accepted(s, r.attempt) + {r.fingerprint} {
      assert f in Accepted(t, r.attempt) <==> (r.attempt, f) in t.bypasses && t.bypasses[(r.attempt, f)].active;
      assert f in Accepted(s, r.attempt) <==> (r.attempt, f) in s.bypasses && s.bypasses[(r.attempt, f)].active;
    }
  }

  lemma CutInvalidateGate(env: Env, s: Store, c: Command, a: AttemptId, blocking: set<string>)
    requires s.Valid() && Sound(s) && c.DoInvalidate? && !PayloadsAccepted(env, s, c)
    requires GateCovers(s, a, blocking)
    ensures GateCovers(Apply(env, s, c).store, a, blocking)
  {
    hide Apply, PayloadsAccepted, ExpiriesAccepted, Trimmed, Sound;
    var t := CutInvalidate(env, s, c);
    if Stands(t, a) { FarTrim(env, s, t, c.now, c.l, c.text, a); }
  }

  /** After a refusal, the standing gate still means what it says exactly when the refusal is harmless to it. */
  lemma RefusedGateExactly(env: Env, s: Store, c: Command, a: AttemptId, blocking: set<string>)
    requires s.Valid() && Sound(s) && Admissible(s, c) && !PayloadsAccepted(env, s, c)
    requires GateCovers(s, a, blocking)
    ensures GateCovers(Apply(env, s, c).store, a, blocking) <==> GateSurvives(env, s, c, a, blocking)
  {
    hide Apply, PayloadsAccepted, GateCovers, Sound;
    CutMeansQuiet(env, s, c);
    if c.DoStart? { CutStartGate(env, s, c, a, blocking); }
    else if c.DoInvalidate? { CutInvalidateGate(env, s, c, a, blocking); }
    else if c.DoBypass? { CutBypassGate(env, s, c, a, blocking); }
    else {
      QuietStep(env, s, c);
      QuietDecision(s, Apply(env, s, c).store, a);
      SameDecisionCovers(s, Apply(env, s, c).store, a, blocking);
    }
  }

  // ---- whole histories, refusals included ------------------------------------------------------------------------

  ghost predicate Went(env: Env, states: seq<Store>, cs: seq<Command>, i: nat)
    requires i < |cs| && i + 1 < |states|
  {
    && states[i].Valid()
    && Admissible(states[i], cs[i])
    && states[i + 1] == Apply(env, states[i], cs[i]).store
  }

  /** The states the store goes through while it carries out the commands as far as the payload check lets it. */
  ghost predicate IsHistory(env: Env, states: seq<Store>, cs: seq<Command>) {
    && |states| == |cs| + 1
    && states[0] == Empty
    && forall i {:trigger Went(env, states, cs, i)} :: 0 <= i < |cs| ==> Went(env, states, cs, i)
  }

  lemma RunIsHistory(env: Env, states: seq<Store>, cs: seq<Command>)
    requires IsRun(env, states, cs)
    ensures IsHistory(env, states, cs)
  {
    hide Apply, PayloadsAccepted;
    forall i | 0 <= i < |cs| ensures Went(env, states, cs, i) { assert Took(env, states, cs, i); }
  }

  ghost predicate KeptSound(env: Env, states: seq<Store>, cs: seq<Command>, i: nat)
    requires i < |cs| && i < |states|
  {
    states[i].Valid() && (PayloadsAccepted(env, states[i], cs[i]) || SoundSurvives(env, states[i], cs[i]))
  }

  lemma {:induction false} SoundSoFar(env: Env, states: seq<Store>, cs: seq<Command>, n: nat)
    requires IsHistory(env, states, cs) && n <= |cs|
    requires forall i {:trigger KeptSound(env, states, cs, i)} :: 0 <= i < n ==> KeptSound(env, states, cs, i)
    ensures Sound(states[n])
  {
    hide Apply, PayloadsAccepted, SoundSurvives;
    if n > 0 {
      SoundSoFar(env, states, cs, n - 1);
      assert Went(env, states, cs, n - 1) && KeptSound(env, states, cs, n - 1);
      StepSoundExactly(env, states[n - 1], cs[n - 1]);
    }
  }

  /** In every history, all states are sound exactly when every refusal on the way is harmless. */
  lemma HistorySoundExactly(env: Env, states: seq<Store>, cs: seq<Command>)
    requires IsHistory(env, states, cs)
    ensures (forall n :: 0 <= n <= |cs| ==> Sound(states[n])) <==>
            (forall i :: 0 <= i < |cs| ==> KeptSound(env, states, cs, i))
  {
    hide Apply, PayloadsAccepted, SoundSurvives, Sound;
    if forall n :: 0 <= n <= |cs| ==> Sound(states[n]) {
      forall i | 0 <= i < |cs| ensures KeptSound(env, states, cs, i) {
        assert Went(env, states, cs, i);
        assert Sound(states[i]) && Sound(states[i + 1]);
        StepSoundExactly(env, states[i], cs[i]);
      }
    }
    if forall i :: 0 <= i < |cs| ==> KeptSound(env, states, cs, i) {
      forall n | 0 <= n <= |cs| ensures Sound(states[n]) { SoundSoFar(env, states, cs, n); }
    }
  }

  ghost predicate KeptLedger(env: Env, states: seq<Store>, cs: seq<Command>, i: nat)
    requires i < |cs| && i < |states|
  {
    && states[i].Valid()
    && if PayloadsAccepted(env, states[i], cs[i]) then AppendsWell(cs[i]) else LedgerSurvives(env, states[i], cs[i])
  }

  lemma {:induction false} LedgerSoFar(env: Env, states: seq<Store>, cs: seq<Command>, n: nat)
    requires IsHistory(env, states, cs) && n <= |cs|
    requires forall i {:trigger KeptLedger(env, states, cs, i)} :: 0 <= i < n ==> KeptLedger(env, states, cs, i)
    ensures Ledger(states[n])
  {
    hide Apply, PayloadsAccepted, LedgerSurvives;
    if n > 0 {
      LedgerSoFar(env, states, cs, n - 1);
      assert Went(env, states, cs, n - 1) && KeptLedger(env, states, cs, n - 1);
      StepLedgerExactly(env, states[n - 1], cs[n - 1]);
    }
  }

  /**
   * In every history, the ledger always balances exactly when no revision goes unlogged and no logged event poses as
   * one.
   */
  lemma HistoryLedgerExactly(env: Env, states: seq<Store>, cs: seq<Command>)
    requires IsHistory(env, states, cs)
    ensures (forall n :: 0 <= n <= |cs| ==> Ledger(states[n])) <==>
            (forall i :: 0 <= i < |cs| ==> KeptLedger(env, states, cs, i))
  {
    hide Apply, PayloadsAccepted, LedgerSurvives, Ledger;
    if forall n :: 0 <= n <= |cs| ==> Ledger(states[n]) {
      forall i | 0 <= i < |cs| ensures KeptLedger(env, states, cs, i) {
        assert Went(env, states, cs, i);
        assert Ledger(states[i]) && Ledger(states[i + 1]);
        StepLedgerExactly(env, states[i], cs[i]);
      }
    }
    if forall i :: 0 <= i < |cs| ==> KeptLedger(env, states, cs, i) {
      forall n | 0 <= n <= |cs| ensures Ledger(states[n]) { LedgerSoFar(env, states, cs, n); }
    }
  }

  ghost predicate KeptOutbox(env: Env, states: seq<Store>, cs: seq<Command>, i: nat)
    requires i < |cs| && i < |states|
  {
    && states[i].Valid()
    && if PayloadsAccepted(env, states[i], cs[i]) then MarksWell(states[i], cs[i])
       else OutboxSurvives(env, states[i], cs[i])
  }

  ghost predicate Announced(s: Store) {
    Sound(s) && Outbox(s)
  }

  lemma {:induction false} OutboxSoFar(env: Env, states: seq<Store>, cs: seq<Command>, n: nat)
    requires IsHistory(env, states, cs) && n <= |cs|
    requires forall i :: 0 <= i <= n ==> Sound(states[i])
    requires forall i {:trigger KeptOutbox(env, states, cs, i)} :: 0 <= i < n ==> KeptOutbox(env, states, cs, i)
    ensures states[n].Linked() && Outbox(states[n])
  {
    hide Apply, PayloadsAccepted, OutboxSurvives, MarksWell, Sound;
    if n > 0 {
      OutboxSoFar(env, states, cs, n - 1);
      assert Went(env, states, cs, n - 1) && KeptOutbox(env, states, cs, n - 1);
      assert Sound(states[n - 1]);
      StepOutboxExactly(env, states[n - 1], cs[n - 1]);
    }
  }

  /**
   * In every history of sound states, the outbox is always in step exactly when no outdated intent
   * is revived and no invalidation is stopped in front of a live intent.
   */
  lemma HistoryOutboxExactly(env: Env, states: seq<Store>, cs: seq<Command>)
    requires IsHistory(env, states, cs)
    requires forall n :: 0 <= n <= |cs| ==> Sound(states[n])
    ensures (forall n :: 0 <= n <= |cs| ==> Announced(states[n])) <==>
            (forall i :: 0 <= i < |cs| ==> KeptOutbox(env, states, cs, i))
  {
    hide Apply, PayloadsAccepted, OutboxSurvives, MarksWell, Outbox, Sound;
    if forall n :: 0 <= n <= |cs| ==> Announced(states[n]) {
      forall i | 0 <= i < |cs| ensures KeptOutbox(env, states, cs, i) {
        assert Went(env, states, cs, i);
        assert Announced(states[i]) && Announced(states[i + 1]);
        StepOutboxExactly(env, states[i], cs[i]);
      }
    }
    if forall i :: 0 <= i < |cs| ==> KeptOutbox(env, states, cs, i) {
      forall n | 0 <= n <= |cs| ensures Announced(states[n]) { OutboxSoFar(env, states, cs, n); }
    }
  }

  ghost predicate KeptGate(env: Env, states: seq<Store>, cs: seq<Command>, i: nat, a: AttemptId, blocking: set<string>)
    requires i < |cs| && i < |states|
  {
    && states[i].Valid()
    && (PayloadsAccepted(env, states[i], cs[i]) || GateSurvives(env, states[i], cs[i], a, blocking))
  }

  lemma StepGateExactly(env: Env, s: Store, c: Command, a: AttemptId, blocking: set<string>)
    requires s.Valid() && Sound(s) && Admissible(s, c) && Consistent(c, a, blocking) && blocking != {}
    requires GateCovers(s, a, blocking)
    ensures GateCovers(Apply(env, s, c).store, a, blocking) <==>
              PayloadsAccepted(env, s, c) || GateSurvives(env, s, c, a, blocking)
  {
    hide Apply, PayloadsAccepted, GateCovers, GateSurvives, Sound;
    CutShortExactly(env, s, c);
    if PayloadsAccepted(env, s, c) {
      StepCovers(env, s, c, a, blocking);
    } else {
      RefusedGateExactly(env, s, c, a, blocking);
    }
  }

  lemma {:induction false} GateSoFar(env: Env, states: seq<Store>, cs: seq<Command>, n: nat, a: AttemptId,
                                     blocking: set<string>)
    requires IsHistory(env, states, cs) && n <= |cs| && blocking != {}
    requires forall i :: 0 <= i <= n ==> Sound(states[i])
    requires forall i {:trigger cs[i]} :: 0 <= i < n ==> Consistent(cs[i], a, blocking)
    requires forall i {:trigger KeptGate(env, states, cs, i, a, blocking)} :: 0 <= i < n ==>
               KeptGate(env, states, cs, i, a, blocking)
    ensures GateCovers(states[n], a, blocking)
  {
    hide Apply, PayloadsAccepted, GateSurvives, Sound;
    if n > 0 {
      GateSoFar(env, states, cs, n - 1, a, blocking);
      assert Went(env, states, cs, n - 1) && KeptGate(env, states, cs, n - 1, a, blocking);
      assert Sound(states[n - 1]);
      StepGateExactly(env, states[n - 1], cs[n - 1], a, blocking);
    }
  }

  /**
   * In every history of sound states whose bypass calls on an Attempt name one non-empty blocking
   * set, its gate always means that the set is covered exactly when every refusal is harmless to it.
   */
  lemma HistoryGateExactly(env: Env, states: seq<Store>, cs: seq<Command>, a: AttemptId, blocking: set<string>)
    requires IsHistory(env, states, cs) && blocking != {}
    requires forall n :: 0 <= n <= |cs| ==> Sound(states[n])
    requires forall i {:trigger cs[i]} :: 0 <= i < |cs| ==> Consistent(cs[i], a, blocking)
    ensures (forall n :: 0 <= n <= |cs| ==> GateCovers(states[n], a, blocking)) <==>
            (forall i :: 0 <= i < |cs| ==> KeptGate(env, states, cs, i, a, blocking))
  {
    hide Apply, PayloadsAccepted, GateSurvives, GateCovers, Sound, Consistent;
    if forall n :: 0 <= n <= |cs| ==> GateCovers(states[n], a, blocking) {
      forall i | 0 <= i < |cs| ensures KeptGate(env, states, cs, i, a, blocking) {
        assert Went(env, states, cs, i);
        assert GateCovers(states[i], a, blocking) && GateCovers(states[i + 1], a, blocking) && Sound(states[i]);
        StepGateExactly(env, states[i], cs[i], a, blocking);
      }
    }
    if forall i :: 0 <= i < |cs| ==> KeptGate(env, states, cs, i, a, blocking) {
      forall n | 0 <= n <= |cs| ensures GateCovers(states[n], a, blocking) {
        GateSoFar(env, states, cs, n, a, blocking);
      }
    }
  }
}
