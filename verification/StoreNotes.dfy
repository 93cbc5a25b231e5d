/** What the operations write to the audit trail, event by event. */
module StoreNotes {
  import opened Prelude
  import opened Store
  import opened StoreInvariants
  import opened StoreSteps

  /** An audit event without its number and its time. */
  datatype Note = Note(kind: string, changeRequest: Locator, attempt: Option<AttemptId>, actor: Actor, payload: Payload)

  /** The trail with the notes written to it, numbered on from where it ended. */
  function Written(audit: seq<AuditEvent>, now: int, notes: seq<Note>): seq<AuditEvent> {
    audit + seq(|notes|, i requires 0 <= i < |notes| =>
      AuditEvent(|audit| + i + 1, notes[i].kind, now, notes[i].changeRequest, notes[i].attempt, notes[i].actor,
        notes[i].payload))
  }

  lemma WrittenNothing(audit: seq<AuditEvent>, now: int)
    ensures Written(audit, now, []) == audit
  {
  }

  lemma WrittenOne(s: Store, now: int, n: Note)
    ensures s.Log(now, n.kind, n.changeRequest, n.attempt, n.actor, n.payload).audit == Written(s.audit, now, [n])
  {
  }

  lemma WrittenMore(audit: seq<AuditEvent>, now: int, a: seq<Note>, b: seq<Note>)
    ensures Written(Written(audit, now, a), now, b) == Written(audit, now, a + b)
  {
  }

  /** One event per active bypass of the change request, in the order of the dictionary, from position k on. */
  function ExpiryNotes(s: Store, l: Locator, reason: string, k: nat): seq<Note>
    requires forall key <- s.bypassOrder :: key in s.bypasses
    decreases |s.bypassOrder| - k
  {
    if k >= |s.bypassOrder| then []
    else
      var b := s.bypasses[s.bypassOrder[k]];
      (if b.changeRequest == l && b.active then [ExpiryNote(b, l, reason)] else []) +
      ExpiryNotes(s, l, reason, k + 1)
  }

  lemma {:induction false} SameExpiryNotes(s: Store, t: Store, l: Locator, reason: string, k: nat)
    requires t.bypassOrder == s.bypassOrder
    requires forall key <- s.bypassOrder :: key in s.bypasses && key in t.bypasses
    requires forall i :: k <= i < |s.bypassOrder| ==> t.bypasses[s.bypassOrder[i]] == s.bypasses[s.bypassOrder[i]]
    ensures ExpiryNotes(t, l, reason, k) == ExpiryNotes(s, l, reason, k)
    decreases |s.bypassOrder| - k
  {
    if k < |s.bypassOrder| { SameExpiryNotes(s, t, l, reason, k + 1); }
  }

  function ExpiryNote(b: Bypass, l: Locator, reason: string): Note {
    Note("bypass_invalidated", l, Some(b.attempt), Actor(b.actorId, Some(b.actorLogin)),
      BypassExpired(b.fingerprint, reason))
  }

  /** The store after one bypass was expired and that was logged. */
  function OneExpired(s: Store, now: int, l: Locator, reason: string, key: BypassKey): Store
    requires key in s.bypasses
  {
    var b := s.bypasses[key];
    var n := ExpiryNote(b, l, reason);
    s.(bypasses := s.bypasses[key := ExpireBypass(b, now, reason)]).Log(now, n.kind, l, n.attempt, n.actor, n.payload)
  }

  lemma ExpiryUnfolds(env: Env, s: Store, now: int, l: Locator, reason: string, k: nat)
    requires forall key <- s.bypassOrder :: key in s.bypasses
    requires k < |s.bypassOrder| && ExpireBypasses(env, s, now, l, reason, k).result.Ok?
    ensures var b := s.bypasses[s.bypassOrder[k]];
      ExpireBypasses(env, s, now, l, reason, k) ==
        if b.changeRequest == l && b.active then
          ExpireBypasses(env, OneExpired(s, now, l, reason, s.bypassOrder[k]), now, l, reason, k + 1)
        else ExpireBypasses(env, s, now, l, reason, k + 1)
  {
  }

  /** The first event is logged before the others. */
  lemma FirstNoteWritten(s: Store, t: Store, now: int, l: Locator, reason: string, k: nat)
    requires Ordered(s.bypasses, s.bypassOrder) && k < |s.bypassOrder|
    requires var b := s.bypasses[s.bypassOrder[k]]; b.changeRequest == l && b.active
    requires t == OneExpired(s, now, l, reason, s.bypassOrder[k])
    ensures Written(t.audit, now, ExpiryNotes(t, l, reason, k + 1)) ==
            Written(s.audit, now, ExpiryNotes(s, l, reason, k))
  {
    hide Written, ExpireBypass;
    var b := s.bypasses[s.bypassOrder[k]];
    SameExpiryNotes(s, t, l, reason, k + 1);
    WrittenOne(s, now, ExpiryNote(b, l, reason));
    WrittenMore(s.audit, now, [ExpiryNote(b, l, reason)], ExpiryNotes(s, l, reason, k + 1));
  }

  /** Expiry that is not interrupted logs exactly those events. */
  lemma {:induction false} ExpiryWritten(env: Env, s: Store, now: int, l: Locator, reason: string, k: nat)
    requires Ordered(s.bypasses, s.bypassOrder) && ExpireBypasses(env, s, now, l, reason, k).result.Ok?
    ensures ExpireBypasses(env, s, now, l, reason, k).store.audit ==
            Written(s.audit, now, ExpiryNotes(s, l, reason, k))
    decreases |s.bypassOrder| - k
  {
    if k >= |s.bypassOrder| {
      WrittenNothing(s.audit, now);
    } else {
      hide ExpireBypasses, Written, ExpireBypass, ExpiryNote;
      var key := s.bypassOrder[k];
      var b := s.bypasses[key];
      ExpiryUnfolds(env, s, now, l, reason, k);
      if b.changeRequest != l || !b.active {
        ExpiryWritten(env, s, now, l, reason, k + 1);
        assert ExpiryNotes(s, l, reason, k) == ExpiryNotes(s, l, reason, k + 1);
      } else {
        var t := OneExpired(s, now, l, reason, key);
        ExpiryWritten(env, t, now, l, reason, k + 1);
        FirstNoteWritten(s, t, now, l, reason, k);
      }
    }
  }

  /** Exactly the active bypasses of the change request were expired. */
  ghost predicate BypassesExpired(before: map<BypassKey, Bypass>, after: map<BypassKey, Bypass>, l: Locator, now: int,
                                  reason: string)
  {
    && after.Keys == before.Keys
    && forall key :: key in before ==>
         after[key] ==
           if before[key].changeRequest == l && before[key].active then
             before[key].(active := false, invalidationReason := Some(reason), invalidatedAt := Some(now))
           else before[key]
  }

  /** Exactly the Attempt's intents that were waiting or in progress were superseded. */
  ghost predicate IntentsSuperseded(before: seq<Intent>, after: seq<Intent>, now: int, a: AttemptId) {
    && |after| == |before|
    && forall i :: 0 <= i < |before| ==>
         after[i] ==
           if before[i].attempt == a && (before[i].status.Queued? || before[i].status.InProgress?) then
             before[i].(status := SyncStatus.Superseded, updatedAt := now)
           else before[i]
  }

  /** Expiring touches nothing but the active bypasses of the change request. */
  lemma {:induction false} InactiveStay(env: Env, s: Store, now: int, l: Locator, reason: string, k: nat,
                                        key: BypassKey)
    requires Ordered(s.bypasses, s.bypassOrder) && key in s.bypasses && !s.bypasses[key].active
    ensures var r := ExpireBypasses(env, s, now, l, reason, k);
      key in r.store.bypasses && r.store.bypasses[key] == s.bypasses[key]
    decreases |s.bypassOrder| - k
  {
    if k < |s.bypassOrder| {
      var b := s.bypasses[s.bypassOrder[k]];
      if b.changeRequest != l || !b.active {
        InactiveStay(env, s, now, l, reason, k + 1, key);
      } else {
        var expired := s.(bypasses := s.bypasses[s.bypassOrder[k] := ExpireBypass(b, now, reason)]);
        var payload := BypassExpired(b.fingerprint, reason);
        if env.Accepts(payload) {
          InactiveStay(env,
            expired.Log(now, "bypass_invalidated", l, Some(b.attempt), Actor(b.actorId, Some(b.actorLogin)), payload),
            now, l, reason, k + 1, key);
        }
      }
    }
  }

  /** All an uninterrupted expiry does. */
  lemma ExpiryDone(env: Env, s: Store, now: int, l: Locator, reason: string)
    requires Ordered(s.bypasses, s.bypassOrder) && ExpireBypasses(env, s, now, l, reason, 0).result.Ok?
    ensures var t := ExpireBypasses(env, s, now, l, reason, 0).store;
      && t == s.(bypasses := t.bypasses, audit := Written(s.audit, now, ExpiryNotes(s, l, reason, 0)))
      && BypassesExpired(s.bypasses, t.bypasses, l, now, reason)
  {
    hide ExpireBypasses;
    ExpireEffect(env, s, now, l, reason);
    ExpiryWritten(env, s, now, l, reason, 0);
    var t := ExpireBypasses(env, s, now, l, reason, 0).store;
    forall key | key in s.bypasses
      ensures t.bypasses[key] ==
                if s.bypasses[key].changeRequest == l && s.bypasses[key].active then
                  s.bypasses[key].(active := false, invalidationReason := Some(reason), invalidatedAt := Some(now))
                else s.bypasses[key]
    {
      if !s.bypasses[key].active { InactiveStay(env, s, now, l, reason, 0, key); }
    }
  }

  lemma SupersedingDone(before: seq<Intent>, now: int, a: AttemptId)
    ensures IntentsSuperseded(before, SupersedeIntents(before, now, a), now, a)
  {
  }
}
