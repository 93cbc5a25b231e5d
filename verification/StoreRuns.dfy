/** Runs of the store: any sequence of operations from the empty store. */
module StoreRuns {
  import opened Prelude
  import opened Identity
  import opened Store
  import opened StoreInvariants
  import opened StoreSteps
  import opened StoreValid
  import opened StoreOutbox
  import opened StoreLedger
  import opened StoreCommands

  /** An intent is put back to work only while it states the present revision. */
  ghost predicate MarksWell(s: Store, c: Command)
    requires s.Linked()
  {
    c.DoMarkSync? && 1 <= c.intentId <= |s.intents| && c.syncStatus.Live() ==>
      var intent := s.intents[c.intentId - 1];
      intent.attempt in s.attempts && UpToDate(s, intent)
  }

  /** Events appended from outside do not pose as revisions. */
  predicate AppendsWell(c: Command) {
    c.DoAppend? ==> !RevisionKind(c.kind)
  }

  // ---- one step -------------------------------------------------------------------------------

  /** Whatever happens, even a step cut short, the dictionaries stay linked. */
  lemma StepValid(env: Env, s: Store, c: Command)
    requires s.Valid() && Admissible(s, c)
    ensures Apply(env, s, c).store.Valid()
  {
    hide Start, Claim, Recover, MarkRetryable, Finalize, Publish, Invalidate, ApplyBypass;
    match c
    case DoStart(now, newId, l, key, expected, delivery) => StartValid(env, s, now, newId, l, key, expected, delivery);
    case DoRecordIdentity(a, identity) => RecordIdentityValid(s, a, identity);
    case DoClaim(now, a) => ClaimValid(env, s, now, a);
    case DoMarkRetryable(now, a, text) => MarkRetryableValid(env, s, now, a, text);
    case DoRecover(now, maxAttempts, leaseTicks) => RecoverValid(env, s, now, maxAttempts, leaseTicks);
    case DoPublish(now, a, key, recorded, gate) => PublishValid(env, s, now, a, key, recorded, gate);
    case DoFinalize(now, a, status, text) => FinalizeValid(env, s, now, a, status, text);
    case DoAppend(_, _, _, _, _, _) => SyncValid(s, Apply(env, s, c).store);
    case DoInvalidate(now, l, text) => InvalidateValid(env, s, now, l, text);
    case DoBypass(now, request) => ApplyBypassValid(env, s, now, request);
    case DoClaimSync(_, _) => SyncValid(s, Apply(env, s, c).store);
    case DoMarkSync(_, _, _, _, _) => SyncValid(s, Apply(env, s, c).store);
  }

  lemma StepSound(env: Env, s: Store, c: Command)
    requires s.Valid() && Sound(s) && Admissible(s, c) && !Apply(env, s, c).cutShort
    ensures Sound(Apply(env, s, c).store)
  {
    hide Start, Claim, Recover, MarkRetryable, Finalize, Publish, Invalidate, ApplyBypass;
    hide Sound;
    match c
    case DoStart(now, newId, l, key, expected, delivery) => StartSound(env, s, now, newId, l, key, expected, delivery);
    case DoRecordIdentity(a, identity) => RecordIdentitySound(s, a, identity);
    case DoClaim(now, a) => ClaimSound(env, s, now, a);
    case DoMarkRetryable(now, a, text) => MarkRetryableSound(env, s, now, a, text);
    case DoRecover(now, maxAttempts, leaseTicks) =>
      RecoverSound(env, s, now, maxAttempts, leaseTicks, 0, NothingRecovered);
    case DoPublish(now, a, key, recorded, gate) => PublishSound(env, s, now, a, key, recorded, gate);
    case DoFinalize(now, a, status, text) => FinalizeSound(env, s, now, a, status, text);
    case DoAppend(_, _, _, _, _, _) => LogSound(s, Apply(env, s, c).store);
    case DoInvalidate(now, l, text) => InvalidateSound(env, s, now, l, text);
    case DoBypass(now, request) => ApplyBypassSound(env, s, now, request);
    case DoClaimSync(_, _) => LogSound(s, Apply(env, s, c).store);
    case DoMarkSync(_, _, _, _, _) => LogSound(s, Apply(env, s, c).store);
  }

  /** Operations on jobs, identities and the audit trail: no decision, bypass or intent is involved. */
  predicate Quiet(c: Command) {
    c.DoRecordIdentity? || c.DoClaim? || c.DoMarkRetryable? || c.DoRecover? || c.DoFinalize? || c.DoAppend?
  }

  lemma QuietStep(env: Env, s: Store, c: Command)
    requires s.Valid() && Quiet(c)
    ensures OnlyJobs(s, Apply(env, s, c).store)
  {
    hide Start, Claim, Recover, MarkRetryable, Finalize, OnlyJobs;
    match c
    case DoRecordIdentity(a, identity) => RecordIdentityKeys(s, a, identity);
    case DoClaim(now, a) => ClaimKeys(env, s, now, a);
    case DoMarkRetryable(now, a, text) => MarkRetryableKeys(env, s, now, a, text);
    case DoRecover(now, maxAttempts, leaseTicks) =>
      RecoverKeys(env, s, now, maxAttempts, leaseTicks, 0, NothingRecovered);
    case DoFinalize(now, a, status, text) => FinalizeKeys(env, s, now, a, status, text);
    case DoAppend(_, _, _, _, _, _) => TrailOnly(s, Apply(env, s, c).store);
  }

  lemma StepOutbox(env: Env, s: Store, c: Command)
    requires s.Valid() && Sound(s) && Outbox(s) && Admissible(s, c) && !Apply(env, s, c).cutShort && MarksWell(s, c)
    ensures var t := Apply(env, s, c).store; t.Linked() && Outbox(t)
  {
    if Quiet(c) {
      QuietStep(env, s, c);
      OutboxUntouched(s, Apply(env, s, c).store);
    } else {
      LoudStepOutbox(env, s, c);
    }
  }

  lemma LoudStepOutbox(env: Env, s: Store, c: Command)
    requires s.Valid() && Sound(s) && Outbox(s) && Admissible(s, c) && !Apply(env, s, c).cutShort && MarksWell(s, c)
    requires !Quiet(c)
    ensures var t := Apply(env, s, c).store; t.Linked() && Outbox(t)
  {
    hide Start, Claim, Recover, MarkRetryable, Finalize, Publish, Invalidate, ApplyBypass;
    hide Outbox, Sound;
    match c
    case DoStart(now, newId, l, key, expected, delivery) => StartOutbox(env, s, now, newId, l, key, expected, delivery);
    case DoPublish(now, a, key, recorded, gate) => PublishOutbox(env, s, now, a, key, recorded, gate);
    case DoInvalidate(now, l, text) => InvalidateOutbox(env, s, now, l, text);
    case DoBypass(now, request) => ApplyBypassOutbox(env, s, now, request);
    case DoClaimSync(now, leaseTicks) => ClaimSyncOutbox(s, now, leaseTicks);
    case DoMarkSync(now, intentId, status, lastError, nextRetryAt) =>
      if 1 <= intentId <= |s.intents| { MarkSyncOutbox(s, now, intentId, status, lastError, nextRetryAt); }
  }

  lemma StepLedger(env: Env, s: Store, c: Command)
    requires s.Valid() && Ledger(s) && !Apply(env, s, c).cutShort && AppendsWell(c)
    ensures Ledger(Apply(env, s, c).store)
  {
    hide Start, Claim, Recover, MarkRetryable, Finalize, Publish, Invalidate, ApplyBypass;
    hide Ledger;
    var t := Apply(env, s, c).store;
    match c
    case DoStart(now, newId, l, key, expected, delivery) => StartLedger(env, s, now, newId, l, key, expected, delivery);
    case DoRecordIdentity(_, _) => QuietKept(s, t);
    case DoClaim(now, a) => ClaimLedger(env, s, now, a);
    case DoMarkRetryable(now, a, text) => MarkRetryableLedger(env, s, now, a, text);
    case DoRecover(now, maxAttempts, leaseTicks) =>
      RecoverLedger(env, s, now, maxAttempts, leaseTicks, 0, NothingRecovered);
    case DoPublish(now, a, key, recorded, gate) => PublishLedger(env, s, now, a, key, recorded, gate);
    case DoFinalize(now, a, status, text) => FinalizeLedger(env, s, now, a, status, text);
    case DoAppend(now, kind, l, about, actor, text) => AppendLedger(env, s, now, kind, l, about, actor, text);
    case DoInvalidate(now, l, text) => InvalidateLedger(env, s, now, l, text);
    case DoBypass(now, request) => ApplyBypassLedger(env, s, now, request);
    case DoClaimSync(_, _) => QuietKept(s, t);
    case DoMarkSync(_, _, _, _, _) => QuietKept(s, t);
  }

  // ---- whole runs --------------------------------------------------------------------------------

  /** The payload check accepts what command i logs, and the store carries it out. */
  ghost predicate Took(env: Env, states: seq<Store>, cs: seq<Command>, i: nat)
    requires i < |cs| && i + 1 < |states|
  {
    && states[i].Valid()
    && Admissible(states[i], cs[i])
    && PayloadsAccepted(env, states[i], cs[i])
    && states[i + 1] == Apply(env, states[i], cs[i]).store
  }

  /** The states the store goes through while it carries out the commands, none of them cut short. */
  ghost predicate IsRun(env: Env, states: seq<Store>, cs: seq<Command>) {
    && |states| == |cs| + 1
    && states[0] == Empty
    && forall i {:trigger Took(env, states, cs, i)} :: 0 <= i < |cs| ==> Took(env, states, cs, i)
  }

  /** With its payloads accepted, the command was carried out to its end. */
  lemma TookWhole(env: Env, states: seq<Store>, cs: seq<Command>, i: nat)
    requires IsRun(env, states, cs) && i < |cs|
    ensures states[i].Valid() && Admissible(states[i], cs[i])
    ensures !Apply(env, states[i], cs[i]).cutShort
    ensures states[i + 1] == Apply(env, states[i], cs[i]).store
  {
    hide Apply, PayloadsAccepted;
    assert Took(env, states, cs, i);
    CutShortExactly(env, states[i], cs[i]);
  }

  lemma {:induction false} RunSound(env: Env, states: seq<Store>, cs: seq<Command>, i: nat)
    requires IsRun(env, states, cs) && i <= |cs|
    ensures states[i].Valid() && Sound(states[i])
  {
    hide Apply;
    if i > 0 {
      RunSound(env, states, cs, i - 1);
      TookWhole(env, states, cs, i - 1);
      StepValid(env, states[i - 1], cs[i - 1]);
      StepSound(env, states[i - 1], cs[i - 1]);
    }
  }

  ghost predicate MarkedWell(states: seq<Store>, cs: seq<Command>, i: nat)
    requires i < |cs| && i < |states|
  {
    states[i].Linked() && MarksWell(states[i], cs[i])
  }

  lemma {:induction false} RunOutbox(env: Env, states: seq<Store>, cs: seq<Command>, i: nat)
    requires IsRun(env, states, cs) && i <= |cs|
    requires forall j {:trigger MarkedWell(states, cs, j)} :: 0 <= j < i ==> MarkedWell(states, cs, j)
    ensures states[i].Linked() && Outbox(states[i])
  {
    hide Apply;
    if i > 0 {
      RunOutbox(env, states, cs, i - 1);
      RunSound(env, states, cs, i - 1);
      assert MarkedWell(states, cs, i - 1);
      TookWhole(env, states, cs, i - 1);
      StepOutbox(env, states[i - 1], cs[i - 1]);
    }
  }

  lemma {:induction false} RunLedger(env: Env, states: seq<Store>, cs: seq<Command>, i: nat)
    requires IsRun(env, states, cs) && i <= |cs|
    requires forall j :: 0 <= j < i ==> AppendsWell(cs[j])
    ensures Ledger(states[i])
  {
    hide Apply;
    if i > 0 {
      RunLedger(env, states, cs, i - 1);
      TookWhole(env, states, cs, i - 1);
      StepLedger(env, states[i - 1], cs[i - 1]);
    }
  }
}
