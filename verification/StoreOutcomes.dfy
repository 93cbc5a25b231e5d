/** What each operation answers and changes, read off the records before it. */
module StoreOutcomes {
  import opened Prelude
  import opened Identity
  import opened Store
  import opened StoreInvariants
  import opened StoreSteps
  import opened StoreValid
  import opened StoreNotes

  // ---- authority -----------------------------------------------------------------------------------

  /** The identity names the repository, the target, both heads and the policy of the key. */
  predicate SameReview(identity: ReviewIdentity, key: RequestKey) {
    && identity.candidate.sourceRepository == key.sourceRepository
    && identity.candidate.targetRef == key.targetRef
    && identity.candidate.targetHeadOid == key.targetHeadOid
    && identity.candidate.proposedHeadOid == key.proposedHeadOid
    && identity.policyVersion == key.policyVersion
  }

  /** An identity is recorded once, for a known Attempt, and only the one its key names. */
  lemma IdentityExactly(s: Store, a: AttemptId, identity: ReviewIdentity)
    ensures var step := RecordIdentity(s, a, identity);
      if a !in s.attempts then step == Step(s, Raised(StateConflict(UnknownAttempt)))
      else if !SameReview(identity, s.attempts[a].key) then step == Step(s, Raised(StateConflict(IdentityMismatch)))
      else if s.attempts[a].identity !in {None, Some(identity)} then
        step == Step(s, Raised(StateConflict(IdentityImmutable)))
      else
        && step.result.Ok?
        && step.store == s.(attempts := s.attempts[a :=
             Attempt(s.attempts[a].changeRequest, s.attempts[a].key, s.attempts[a].status, Some(identity))])
  {
  }

  /** The Attempts once the prior one, if any, is superseded. */
  function Superseding(attempts: map<AttemptId, Attempt>, prior: Option<AttemptId>): map<AttemptId, Attempt>
    requires prior.Some? ==> prior.value in attempts
  {
    if prior.None? then attempts
    else attempts[prior.value := attempts[prior.value].(status := AttemptStatus.Superseded)]
  }

  /** The jobs once that of the prior Attempt is withdrawn: only one that still waits is. */
  function Withdrawing(jobs: map<AttemptId, Job>, prior: Option<AttemptId>): map<AttemptId, Job>
    requires prior.Some? ==> prior.value in jobs
  {
    if prior.None? || !jobs[prior.value].status.Queued? then jobs
    else jobs[prior.value := jobs[prior.value].(status := JobStatus.Superseded)]
  }

  /** The start is a new one, and its caller's expectation is met. */
  predicate NewStart(s: Store, l: Locator, expected: Option<AttemptId>, delivery: Option<string>) {
    && delivery != Some("")
    && (delivery.Some? ==> (l.installation, delivery.value) !in s.deliveries)
    && (expected.Some? ==> l in s.changeRequests && s.changeRequests[l].authoritative == expected.value)
  }

  ghost predicate Started(s: Store, t: Store, now: int, newId: AttemptId, l: Locator, key: RequestKey,
                          delivery: Option<string>, lease: Lease)
    requires s.Valid()
  {
    var prior := if l in s.changeRequests then Some(s.changeRequests[l].authoritative) else None;
    && (prior.Some? ==> prior.value in s.attempts && prior.value in s.jobs)
    && lease == Lease(newId, l, key, prior, false, false)
    && t.changeRequests == s.changeRequests[l :=
         ChangeRequest(key, newId, None, None, if l in s.changeRequests then s.changeRequests[l].revision + 1 else 0)]
    && t.attempts == Superseding(s.attempts, prior)[newId := Attempt(l, key, AttemptStatus.Queued, None)]
    && t.jobs == Withdrawing(s.jobs, prior)[newId := Job(JobStatus.Queued, 0, now, None)]
    && t.jobOrder == s.jobOrder + [newId]
    && t.deliveries ==
         (if delivery.Some? then s.deliveries[(l.installation, delivery.value) := lease] else s.deliveries)
    && t.bypassOrder == s.bypassOrder
    && BypassesExpired(s.bypasses, t.bypasses, l, now, "new authoritative Attempt superseded the standing decision")
    && (if prior.Some? then IntentsSuperseded(s.intents, t.intents, now, prior.value) else t.intents == s.intents)
    && t.audit == Written(s.audit, now,
         ExpiryNotes(s, l, "new authoritative Attempt superseded the standing decision", 0) +
         [Note("attempt_authoritative", l, Some(newId), Actor(None, None), AuthorityGranted(prior, delivery))])
  }

  lemma DesignatedStore(env: Env, s: Store, now: int, newId: AttemptId, l: Locator, key: RequestKey,
                        delivery: Option<string>)
    requires s.Valid() && Vacate(env, s, now, l).result.Ok?
    requires forall b :: b in s.bypasses && s.bypasses[b].active ==> s.bypasses[b].changeRequest in s.changeRequests
    ensures var t := AfterDesignation(env, s, now, newId, l, key, delivery);
      var prior := Prior(s, l);
      Started(s, t.Log(now, "attempt_authoritative", l, Some(newId), NoActor, AuthorityGranted(prior, delivery)), now,
        newId, l, key, delivery, Lease(newId, l, key, prior, false, false))
  {
    hide ExpireBypasses, ExpiryNotes, Written, SupersedeIntents, BypassesExpired, IntentsSuperseded;
    var n := Note("attempt_authoritative", l, Some(newId), Actor(None, None), AuthorityGranted(Prior(s, l), delivery));
    var t := AfterDesignation(env, s, now, newId, l, key, delivery);
    WrittenOne(t, now, n);
    if l in s.changeRequests {
      var prior := s.changeRequests[l].authoritative;
      assert Designated(s.changeRequests, s.attempts, l);
      var demoted := Demote(s, prior);
      ExpiryDone(env, demoted, now, l, SupersededReason);
      SameExpiryNotes(s, demoted, l, SupersededReason, 0);
      SupersedingDone(s.intents, now, prior);
      WrittenMore(s.audit, now, ExpiryNotes(s, l, SupersededReason, 0), [n]);
    } else {
      NothingExpires(s, l, SupersededReason, 0);
      NothingExpired(s.bypasses, l, now, SupersededReason);
      assert ExpiryNotes(s, l, SupersededReason, 0) + [n] == [n];
    }
  }

  lemma {:induction false} NothingExpires(s: Store, l: Locator, reason: string, k: nat)
    requires forall key <- s.bypassOrder :: key in s.bypasses
    requires forall b :: b in s.bypasses && s.bypasses[b].active ==> s.bypasses[b].changeRequest != l
    ensures ExpiryNotes(s, l, reason, k) == []
    decreases |s.bypassOrder| - k
  {
    if k < |s.bypassOrder| { NothingExpires(s, l, reason, k + 1); }
  }

  lemma NothingExpired(bypasses: map<BypassKey, Bypass>, l: Locator, now: int, reason: string)
    requires forall b :: b in bypasses && bypasses[b].active ==> bypasses[b].changeRequest != l
    ensures BypassesExpired(bypasses, bypasses, l, now, reason)
  {
  }

  /** Every way a start that is not cut short can end. */
  lemma StartExactly(env: Env, s: Store, now: int, newId: AttemptId, l: Locator, key: RequestKey,
                     expected: Option<AttemptId>, delivery: Option<string>)
    requires s.Valid() && Sound(s) && !Start(env, s, now, newId, l, key, expected, delivery).Unsafe()
    ensures var step := Start(env, s, now, newId, l, key, expected, delivery);
      if delivery == Some("") then step == Step(s, Raised(StateConflict(EmptyDelivery)))
      else if delivery.Some? && (l.installation, delivery.value) in s.deliveries then
        var first := s.deliveries[(l.installation, delivery.value)];
        step == Step(s,
          Ok(Lease(first.attempt, first.changeRequest, first.key, first.prior, true, first.leaseRecovered)))
      else if !NewStart(s, l, expected, delivery) then step == Step(s, Raised(StateConflict(StaleExpectation)))
      else step.result.Ok? && Started(s, step.store, now, newId, l, key, delivery, step.result.value)
  {
    hide Vacate, Designate, Started;
    forall b | b in s.bypasses && s.bypasses[b].active ensures s.bypasses[b].changeRequest in s.changeRequests {
      assert BypassOk(s, b);
    }
    VacateResult(env, s, now, l);
    if NewStart(s, l, expected, delivery) && Vacate(env, s, now, l).result.Ok? {
      DesignatedStore(env, s, now, newId, l, key, delivery);
    }
  }

  // ---- claims and publications -------------------------------------------------------------------------

  /** A worker may take the job: it waits, or it runs on a lease that is over. */
  predicate Free(env: Env, s: Store, now: int, a: AttemptId) {
    a in s.jobs &&
      (s.jobs[a].status.Queued? || (s.jobs[a].status.Running? && now - s.jobs[a].updatedAt > env.leaseTicks))
  }

  /** A claim takes a free job for the authority, withdraws that of an overtaken Attempt, and does nothing otherwise. */
  lemma ClaimExactly(env: Env, s: Store, now: int, a: AttemptId)
    requires s.Valid()
    ensures var step := Claim(env, s, now, a);
      var t := step.store;
      if !Free(env, s, now, a) then step == Step(s, Ok(None))
      else
        && a in s.attempts && s.attempts[a].changeRequest in s.changeRequests
        && var attempt, job := s.attempts[a], s.jobs[a];
        var reclaimed := job.status.Running?;
        var owner := s.changeRequests[attempt.changeRequest].authoritative == a;
        && step.result ==
               Ok(if owner then Some(Lease(a, attempt.changeRequest, attempt.key, None, false, reclaimed)) else None)
        && t == s.(
             attempts := s.attempts[a :=
               attempt.(status := if owner then AttemptStatus.Running else AttemptStatus.Superseded)],
             jobs := s.jobs[a := Job(if owner then JobStatus.Running else JobStatus.Superseded,
               if reclaimed then job.retries + 1 else job.retries, now, job.lastError)],
             audit := Written(s.audit, now,
               if reclaimed then [Note("job_lease_recovered", attempt.changeRequest, Some(a), Actor(None, None),
                 RetryCount(job.retries + 1))]
               else []))
  {
    hide Written;
    ClaimCases(env, s, now, a);
    WrittenNothing(s.audit, now);
    if a in s.attempts && s.jobs[a].status.Running? {
      WrittenOne(s, now, Note("job_lease_recovered", s.attempts[a].changeRequest, Some(a), Actor(None, None),
        RetryCount(s.jobs[a].retries + 1)));
    }
  }

  /** The Attempt is still the authority, for this key and with this identity. */
  predicate StillCurrent(s: Store, a: AttemptId, key: RequestKey, identity: Option<ReviewIdentity>) {
    && a in s.attempts && s.attempts[a].changeRequest in s.changeRequests
    && s.changeRequests[s.attempts[a].changeRequest].authoritative == a
    && s.changeRequests[s.attempts[a].changeRequest].key == key && s.attempts[a].key == key
    && s.attempts[a].identity == identity
    && (identity.Some? ==> SameReview(identity.value, key))
  }

  /** The job ends with the outcome of its Attempt, unless it has ended before. */
  predicate JobEnded(s: Store, t: Store, now: int, a: AttemptId)
    requires a in s.jobs
  {
    var job := s.jobs[a];
    t.jobs ==
      if job.status.Queued? || job.status.Running? || job.status.Retryable? then
        s.jobs[a := Job(JobStatus.Completed, job.retries, now, job.lastError)]
      else s.jobs
  }

  /** The gate became the standing decision, and that is one more revision. */
  ghost predicate Installed(s: Store, t: Store, now: int, a: AttemptId, gate: GateState)
    requires a in s.attempts && a in s.jobs && s.attempts[a].changeRequest in s.changeRequests
  {
    var l := s.attempts[a].changeRequest;
    var current := s.changeRequests[l];
    && t == s.(
         changeRequests := s.changeRequests[l :=
           ChangeRequest(current.key, current.authoritative, Some(a), Some(gate), current.revision + 1)],
         attempts := s.attempts[a := s.attempts[a].(status := AttemptStatus.Published)],
         jobs := t.jobs,
         audit := Written(s.audit, now,
           [Note("standing_decision_published", l, Some(a), Actor(None, None), GatePublished(gate))]))
    && JobEnded(s, t, now, a)
  }

  /** The outcome is kept for the audit trail; no decision changed. */
  ghost predicate KeptAside(s: Store, t: Store, now: int, a: AttemptId)
    requires a in s.attempts && a in s.jobs
  {
    && t == s.(
         attempts := s.attempts[a := s.attempts[a].(status := AttemptStatus.AuditOnly)],
         jobs := t.jobs,
         audit := Written(s.audit, now,
           [Note("attempt_publish_superseded", s.attempts[a].changeRequest, Some(a), Actor(None, None),
             PublishSuperseded)]))
    && JobEnded(s, t, now, a)
  }

  lemma DecideInstalls(env: Env, s: Store, now: int, a: AttemptId, gate: GateState)
    requires a in s.attempts && a in s.jobs && s.attempts[a].changeRequest in s.changeRequests
    ensures Installed(s, Decide(env, s, now, a, gate).store, now, a, gate)
    ensures Decide(env, s, now, a, gate).result == Ok(PublishResult(DecisionPublished, Some(gate)))
  {
    WrittenOne(s, now,
      Note("standing_decision_published", s.attempts[a].changeRequest, Some(a), NoActor, GatePublished(gate)));
  }

  lemma OvertakenIsKept(env: Env, s: Store, now: int, a: AttemptId)
    requires a in s.attempts && a in s.jobs
    ensures KeptAside(s, KeepForAudit(env, s, now, a).store, now, a)
    ensures KeepForAudit(env, s, now, a).result == Ok(PublishResult(DecisionSuperseded, None))
  {
    WrittenOne(s, now,
      Note("attempt_publish_superseded", s.attempts[a].changeRequest, Some(a), NoActor, PublishSuperseded));
  }

  /** Every way a publication can end: what it answers, and what it changes. */
  lemma PublishExactly(env: Env, s: Store, now: int, a: AttemptId, key: RequestKey, identity: Option<ReviewIdentity>,
                       gate: GateState)
    requires s.Valid()
    ensures a in s.attempts ==> a in s.jobs && s.attempts[a].changeRequest in s.changeRequests
    ensures var step := Publish(env, s, now, a, key, identity, gate);
      if a !in s.attempts then step == Step(s, Raised(StateConflict(UnknownAttempt)))
      else
        var current := s.changeRequests[s.attempts[a].changeRequest];
        match s.attempts[a].status
        case Published =>
          if !StillCurrent(s, a, key, identity) || current.standing != Some(a) then
            step == Step(s, Raised(StateConflict(NoLongerStanding)))
          else if current.gate.None? then step == Step(s, Raised(StateConflict(MissingGate)))
          else if current.gate.value != gate then step == Step(s, Raised(StateConflict(GateFixed)))
          else step == Step(s, Ok(PublishResult(DecisionPublished, Some(gate))))
        case Running =>
          if StillCurrent(s, a, key, identity) then
            Installed(s, step.store, now, a, gate) && step.result == Ok(PublishResult(DecisionPublished, Some(gate)))
          else KeptAside(s, step.store, now, a) && step.result == Ok(PublishResult(DecisionSuperseded, None))
        case AuditOnly =>
          step == Step(s, if StillCurrent(s, a, key, identity) then Raised(StateConflict(NotRunning))
                          else Ok(PublishResult(DecisionSuperseded, None)))
        case _ =>
          if StillCurrent(s, a, key, identity) then step == Step(s, Raised(StateConflict(NotRunning)))
          else KeptAside(s, step.store, now, a) && step.result == Ok(PublishResult(DecisionSuperseded, None))
  {
    hide Decide, KeepForAudit, Installed, KeptAside;
    if a in s.attempts {
      assert Located(s.attempts, s.changeRequests, a);
      assert StillCurrent(s, a, key, identity) <==> PublicationInputsMatch(s, a, key, identity);
      DecideInstalls(env, s, now, a, gate);
      OvertakenIsKept(env, s, now, a);
    }
  }

  /** An event from outside is appended as it is. */
  lemma AppendExactly(env: Env, s: Store, now: int, kind: string, l: Locator, a: Option<AttemptId>, actor: Actor,
                      content: string)
    requires !Append(env, s, now, kind, l, a, actor, content).Unsafe()
    ensures Append(env, s, now, kind, l, a, actor, content).store ==
            s.(audit := Written(s.audit, now, [Note(kind, l, a, actor, Appended(content))]))
  {
    WrittenOne(s, now, Note(kind, l, a, actor, Appended(content)));
  }

  // ---- invalidation and bypass ----------------------------------------------------------------------------

  /** An invalidation clears the decision, expires its bypasses, supersedes its intents and logs all of that. */
  lemma InvalidateExactly(env: Env, s: Store, now: int, l: Locator, reason: string)
    requires s.Valid() && !Invalidate(env, s, now, l, reason).Unsafe()
    ensures var step := Invalidate(env, s, now, l, reason);
      var t := step.store;
      && step.result.Ok?
      && if l !in s.changeRequests then t == s
         else
           var current := s.changeRequests[l];
           && t == s.(
                changeRequests := s.changeRequests[l :=
                  ChangeRequest(current.key, current.authoritative, None, None, current.revision + 1)],
                bypasses := t.bypasses,
                intents := t.intents,
                audit := Written(s.audit, now, ExpiryNotes(s, l, reason, 0) +
                  [Note("standing_decision_invalidated", l, current.standing, Actor(None, None),
                     DecisionInvalidated(reason))]))
           && BypassesExpired(s.bypasses, t.bypasses, l, now, reason)
           && if current.standing.Some? then IntentsSuperseded(s.intents, t.intents, now, current.standing.value)
              else t.intents == s.intents
  {
    hide ExpireBypasses, ExpiryNotes, Written, SupersedeIntents, BypassesExpired, IntentsSuperseded;
    if l in s.changeRequests {
      var cleared := ClearStanding(s, l);
      var standing := s.changeRequests[l].standing;
      var n := Note("standing_decision_invalidated", l, standing, Actor(None, None), DecisionInvalidated(reason));
      ExpireEffect(env, cleared, now, l, reason);
      ExpiryDone(env, cleared, now, l, reason);
      SameExpiryNotes(s, cleared, l, reason, 0);
      if standing.Some? { SupersedingDone(s.intents, now, standing.value); }
      WrittenOne(SupersedeFor(ExpireBypasses(env, cleared, now, l, reason, 0).store, now, standing), now, n);
      WrittenMore(s.audit, now, ExpiryNotes(s, l, reason, 0), [n]);
    }
  }

  /** The fingerprints of the Attempt's active bypasses, in the order they were granted, from position k on. */
  function AcceptedFrom(s: Store, a: AttemptId, k: nat): seq<string>
    requires forall key <- s.bypassOrder :: key in s.bypasses
    decreases |s.bypassOrder| - k
  {
    if k >= |s.bypassOrder| then []
    else
      var b := s.bypasses[s.bypassOrder[k]];
      (if b.attempt == a && b.active then [b.fingerprint] else []) + AcceptedFrom(s, a, k + 1)
  }

  lemma {:induction false} AcceptedSplits(s: Store, a: AttemptId, k: nat)
    requires k <= |s.bypassOrder| && forall key <- s.bypassOrder :: key in s.bypasses
    ensures ActiveFingerprints(s, a, |s.bypassOrder|) == ActiveFingerprints(s, a, k) + AcceptedFrom(s, a, k)
    decreases |s.bypassOrder| - k
  {
    if k < |s.bypassOrder| {
      AcceptedSplits(s, a, k + 1);
    } else {
      assert AcceptedFrom(s, a, k) == [];
    }
  }

  lemma AcceptedWhole(s: Store, a: AttemptId)
    requires forall key <- s.bypassOrder :: key in s.bypasses
    ensures ActiveFingerprints(s, a, |s.bypassOrder|) == AcceptedFrom(s, a, 0)
  {
    AcceptedSplits(s, a, 0);
  }

  /** The blocking findings nobody accepted, in their order. */
  function Open(blocking: seq<string>, accepted: seq<string>): seq<string> {
    if |blocking| == 0 then []
      else (if blocking[0] in accepted then [] else [blocking[0]]) + Open(blocking[1..], accepted)
  }

  lemma {:induction false} OpenMore(blocking: seq<string>, last: string, accepted: seq<string>)
    ensures Open(blocking + [last], accepted) == Open(blocking, accepted) + if last in accepted then [] else [last]
  {
    if |blocking| > 0 {
      assert (blocking + [last])[1..] == blocking[1..] + [last];
      OpenMore(blocking[1..], last, accepted);
    }
  }

  lemma {:induction false} UncoveredOpen(blocking: seq<string>, accepted: seq<string>)
    ensures Uncovered(blocking, accepted) == Open(blocking, accepted)
  {
    if |blocking| > 0 {
      var front := blocking[..|blocking| - 1];
      UncoveredOpen(front, accepted);
      assert blocking == front + [blocking[|blocking| - 1]];
      OpenMore(front, blocking[|blocking| - 1], accepted);
    }
  }

  function GateNotes(r: BypassRequest, open: seq<string>): seq<Note> {
    if open == [] then
      [Note("gate_transition", r.changeRequest, Some(r.attempt), Actor(r.actorId, Some(r.actorLogin)),
         GateTransition(Blocked, PassedWithBypass))]
    else []
  }

  /** What a granted bypass leaves behind and answers. */
  ghost predicate Bypassed(s: Store, t: Store, now: int, r: BypassRequest, answer: BypassResult)
    requires Grantable(s, r) && forall key <- t.bypassOrder :: key in t.bypasses
  {
    var key, l := (r.attempt, r.fingerprint), r.changeRequest;
    var record :=
      Bypass(|s.bypassOrder| + 1, l, r.attempt, r.fingerprint, r.actorId, r.actorLogin, r.reason, r.identity,
      r.policySha256, r.riskSnapshot, r.riskDigest, true, None, now, None);
    var accepted := AcceptedFrom(t, r.attempt, 0);
    var open := Open(r.blocking, accepted);
    var gate := if open == [] then PassedWithBypass else Blocked;
    var revision := s.changeRequests[l].revision + 1;
    var status := if r.checkRun.Some? then SyncStatus.Queued else SyncStatus.NotApplicable;
    && t == s.(
         bypasses := s.bypasses[key := record],
         bypassOrder := s.bypassOrder + [key],
         changeRequests := s.changeRequests[l :=
           ChangeRequest(s.changeRequests[l].key, r.attempt, Some(r.attempt), Some(gate), revision)],
         intents := t.intents,
         audit := Written(s.audit, now,
           [Note("bypass_authorized", l, Some(r.attempt), Actor(r.actorId, Some(r.actorLogin)),
              BypassGranted(r.fingerprint, r.reason, r.riskDigest))] +
           (GateNotes(r, open) +
            [Note("check_sync_queued", l, Some(r.attempt), Actor(None, None), SyncQueued(revision, status))])))
    && |t.intents| == |s.intents| + 1
    && IntentsSuperseded(s.intents, t.intents[..|s.intents|], now, r.attempt)
    && t.intents[|s.intents|] ==
         Intent(r.attempt, revision, r.checkRun, status, 0, None, None, None, gate, |accepted|, |open|, now, now)
    && answer == BypassResult(record, Some(gate), revision, accepted, |open|, status, open == [], false)
  }

  /** A repetition of an active bypass is answered from the record, with the decision as it stands. */
  predicate RepeatAnswered(s: Store, r: BypassRequest, answer: BypassResult)
    requires (r.attempt, r.fingerprint) in s.bypasses && r.changeRequest in s.changeRequests
    requires forall key <- s.bypassOrder :: key in s.bypasses
  {
    var accepted := AcceptedFrom(s, r.attempt, 0);
    && answer.record == s.bypasses[(r.attempt, r.fingerprint)]
    && answer.gate == s.changeRequests[r.changeRequest].gate
    && answer.revision == s.changeRequests[r.changeRequest].revision
    && answer.activeFingerprints == accepted
    && answer.remaining == |Open(r.blocking, accepted)|
    && !answer.transitioned && answer.replayed
    && TellsStatus(s.intents, r.attempt, answer.syncStatus)
  }

  /** The status is that of the Attempt's newest intent, or "not applicable" when it has none. */
  predicate TellsStatus(intents: seq<Intent>, a: AttemptId, status: SyncStatus) {
    if forall i :: 0 <= i < |intents| ==> intents[i].attempt != a then status.NotApplicable?
    else exists i :: 0 <= i < |intents| && FirstNewest(intents, a, i) && status == intents[i].status
  }

  /** The Attempt's intent with the greatest revision, the first of them if several have it. */
  predicate FirstNewest(intents: seq<Intent>, a: AttemptId, i: nat)
    requires i < |intents|
  {
    && intents[i].attempt == a
    && (forall j :: 0 <= j < |intents| && intents[j].attempt == a ==> intents[j].revision <= intents[i].revision)
    && (forall j :: 0 <= j < i && intents[j].attempt == a ==> intents[j].revision < intents[i].revision)
  }

  lemma {:induction false} LatestIsFirst(intents: seq<Intent>, a: AttemptId, k: nat)
    requires k <= |intents|
    ensures var latest := LatestIntent(intents, a, k);
      latest.Some? ==>
        forall j :: 0 <= j < latest.value && intents[j].attempt == a ==>
          intents[j].revision < intents[latest.value].revision
  {
    if k > 0 { LatestIsFirst(intents, a, k - 1); }
  }

  lemma StatusAnswered(intents: seq<Intent>, a: AttemptId)
    ensures TellsStatus(intents, a, LatestSyncStatus(intents, a))
  {
    LatestIsFirst(intents, a, |intents|);
    var latest := LatestIntent(intents, a, |intents|);
    if latest.Some? { assert FirstNewest(intents, a, latest.value); }
  }

  lemma RepeatExactly(env: Env, s: Store, now: int, r: BypassRequest)
    requires s.Valid() && r.attempt in s.attempts && s.attempts[r.attempt].changeRequest == r.changeRequest
    requires s.attempts[r.attempt].identity == Some(r.identity) && r.changeRequest in s.changeRequests
    requires s.changeRequests[r.changeRequest].authoritative == r.attempt
    requires s.changeRequests[r.changeRequest].standing == Some(r.attempt)
    requires (r.attempt, r.fingerprint) in s.bypasses
    ensures var step := ApplyBypass(env, s, now, r);
      var b := s.bypasses[(r.attempt, r.fingerprint)];
      && step.store == s
      && if b.active && b.actorId == r.actorId && b.actorLogin == r.actorLogin && b.reason == r.reason then
           step.result.Ok? && RepeatAnswered(s, r, step.result.value)
         else step.result == Raised(StateConflict(DifferentBypass))
  {
    hide SettleGate, ActiveFingerprints, Uncovered, Open, AcceptedFrom, LatestIntent;
    assert Located(s.attempts, s.changeRequests, r.attempt);
    AcceptedWhole(s, r.attempt);
    StatusAnswered(s.intents, r.attempt);
    UncoveredOpen(r.blocking, ActiveFingerprints(s, r.attempt, |s.bypassOrder|));
  }

  lemma ReviseExactly(s: Store, now: int, r: BypassRequest, gate: GateState, accepted: nat, remaining: nat)
    requires r.changeRequest in s.changeRequests
    ensures var t := Revise(s, now, r, gate, accepted, remaining);
      var revision := s.changeRequests[r.changeRequest].revision + 1;
      var status := if r.checkRun.Some? then SyncStatus.Queued else SyncStatus.NotApplicable;
      && |t.intents| == |s.intents| + 1
      && IntentsSuperseded(s.intents, t.intents[..|s.intents|], now, r.attempt)
      && t.intents[|s.intents|] ==
           Intent(r.attempt, revision, r.checkRun, status, 0, None, None, None, gate, accepted, remaining, now, now)
      && t.audit == Written(s.audit, now,
           [Note("check_sync_queued", r.changeRequest, Some(r.attempt), Actor(None, None),
             SyncQueued(revision, status))])
  {
    SupersedingDone(s.intents, now, r.attempt);
    var superseded := SupersedeIntents(s.intents, now, r.attempt);
    var t := Revise(s, now, r, gate, accepted, remaining);
    assert t.intents[..|s.intents|] == superseded;
  }

  /** What settling the gate leaves behind and answers; the numbers follow from what is accepted by then. */
  ghost predicate Settled(s: Store, step: Step<BypassResult>, now: int, r: BypassRequest, record: Bypass,
                          accepted: seq<string>, open: seq<string>)
    requires r.changeRequest in s.changeRequests
  {
    var t, l := step.store, r.changeRequest;
    var gate := if open == [] then PassedWithBypass else Blocked;
    var revision := s.changeRequests[l].revision + 1;
    var status := if r.checkRun.Some? then SyncStatus.Queued else SyncStatus.NotApplicable;
    && t == s.(
         changeRequests := s.changeRequests[l := s.changeRequests[l].(gate := Some(gate), revision := revision)],
         intents := t.intents,
         audit := Written(s.audit, now, GateNotes(r, open) +
           [Note("check_sync_queued", l, Some(r.attempt), Actor(None, None), SyncQueued(revision, status))]))
    && |t.intents| == |s.intents| + 1
    && IntentsSuperseded(s.intents, t.intents[..|s.intents|], now, r.attempt)
    && t.intents[|s.intents|] ==
         Intent(r.attempt, revision, r.checkRun, status, 0, None, None, None, gate, |accepted|, |open|, now, now)
    && step.result == Ok(BypassResult(record, Some(gate), revision, accepted, |open|, status, open == [], false))
  }

  lemma MoveGateWrites(s: Store, now: int, r: BypassRequest, open: seq<string>)
    requires r.changeRequest in s.changeRequests
    ensures MoveGate(s, now, r, open == []).audit == Written(s.audit, now, GateNotes(r, open))
  {
    WrittenNothing(s.audit, now);
  }

  lemma MovedExactly(s: Store, now: int, r: BypassRequest, open: seq<string>)
    requires r.changeRequest in s.changeRequests && s.changeRequests[r.changeRequest].gate == Some(Blocked)
    ensures var t := MoveGate(s, now, r, open == []);
      && r.changeRequest in t.changeRequests
      && t == s.(
           changeRequests := s.changeRequests[r.changeRequest :=
             s.changeRequests[r.changeRequest].(gate := Some(if open == [] then PassedWithBypass else Blocked))],
           audit := Written(s.audit, now, GateNotes(r, open)))
  {
    hide Written, GateNotes;
    MoveGateShape(s, now, r, open == []);
    MoveGateWrites(s, now, r, open);
  }

  lemma SettleUnfolds(s: Store, now: int, r: BypassRequest, record: Bypass, accepted: seq<string>, open: seq<string>)
    requires r.changeRequest in s.changeRequests && s.changeRequests[r.changeRequest].gate == Some(Blocked)
    requires forall key <- s.bypassOrder :: key in s.bypasses
    requires accepted == ActiveFingerprints(s, r.attempt, |s.bypassOrder|) && open == Uncovered(r.blocking, accepted)
    ensures var moved := MoveGate(s, now, r, open == []);
      var gate := if open == [] then PassedWithBypass else Blocked;
      && r.changeRequest in moved.changeRequests
      && SettleGate(s, now, r, record) ==
           Step(Revise(moved, now, r, gate, |accepted|, |open|),
             Ok(BypassResult(record, Some(gate), s.changeRequests[r.changeRequest].revision + 1, accepted, |open|,
               if r.checkRun.Some? then SyncStatus.Queued else SyncStatus.NotApplicable, open == [], false)))
  {
    hide ActiveFingerprints, Uncovered, MoveGate, Revise;
    MovedExactly(s, now, r, open);
  }

  lemma SettleWrites(s: Store, now: int, r: BypassRequest, record: Bypass)
    requires s.Valid() && r.changeRequest in s.changeRequests && s.changeRequests[r.changeRequest].gate == Some(Blocked)
    ensures var accepted := AcceptedFrom(s, r.attempt, 0);
      Settled(s, SettleGate(s, now, r, record), now, r, record, accepted, Open(r.blocking, accepted))
  {
    hide ActiveFingerprints, Uncovered, MoveGate, Revise, SettleGate, Written, AcceptedFrom, Open, IntentsSuperseded;
    hide GateNotes;
    var accepted := ActiveFingerprints(s, r.attempt, |s.bypassOrder|);
    AcceptedWhole(s, r.attempt);
    UncoveredOpen(r.blocking, accepted);
    var open := Uncovered(r.blocking, accepted);
    SettleUnfolds(s, now, r, record, accepted, open);
    MovedExactly(s, now, r, open);
    var moved := MoveGate(s, now, r, open == []);
    var gate := if open == [] then PassedWithBypass else Blocked;
    ReviseShape(moved, now, r, gate, |accepted|, |open|);
    ReviseExactly(moved, now, r, gate, |accepted|, |open|);
    var status := if r.checkRun.Some? then SyncStatus.Queued else SyncStatus.NotApplicable;
    WrittenMore(s.audit, now, GateNotes(r, open),
      [Note("check_sync_queued", r.changeRequest, Some(r.attempt), Actor(None, None),
         SyncQueued(s.changeRequests[r.changeRequest].revision + 1, status))]);
  }

  /** A bypass that is granted and not cut short. */
  lemma GrantExactly(env: Env, s: Store, now: int, r: BypassRequest)
    requires s.Valid() && Grantable(s, r) && !ApplyBypass(env, s, now, r).Unsafe()
    ensures var step := ApplyBypass(env, s, now, r);
      && step.result.Ok?
      && (forall key <- step.store.bypassOrder :: key in step.store.bypasses)
      && Bypassed(s, step.store, now, r, step.result.value)
  {
    hide SettleGate, Written, AcceptedFrom, Open, IntentsSuperseded, GateNotes;
    assert Located(s.attempts, s.changeRequests, r.attempt);
    var g := GrantedLog(s, now, r);
    var step := SettleGate(g, now, r, GrantRecord(s, now, r));
    GrantedValid(s, now, r);
    SettleWrites(g, now, r, GrantRecord(s, now, r));
    SameAccepted(g, step.store, r.attempt, 0);
    GrantSettles(s, now, r, step);
  }

  lemma GrantSettles(s: Store, now: int, r: BypassRequest, step: Step<BypassResult>)
    requires Grantable(s, r) && GrantedLog(s, now, r).Valid()
    requires r.changeRequest in GrantedLog(s, now, r).changeRequests
    requires var g := GrantedLog(s, now, r);
      var accepted := AcceptedFrom(g, r.attempt, 0);
      && Settled(g, step, now, r, GrantRecord(s, now, r), accepted, Open(r.blocking, accepted))
      && AcceptedFrom(step.store, r.attempt, 0) == accepted
    ensures step.result.Ok? && Bypassed(s, step.store, now, r, step.result.value)
  {
    hide Written, AcceptedFrom, Open, IntentsSuperseded, GateNotes;
    var g := GrantedLog(s, now, r);
    var open := Open(r.blocking, AcceptedFrom(g, r.attempt, 0));
    var status := if r.checkRun.Some? then SyncStatus.Queued else SyncStatus.NotApplicable;
    GrantWritten(s, now, r, GateNotes(r, open) +
      [Note("check_sync_queued", r.changeRequest, Some(r.attempt), Actor(None, None),
         SyncQueued(s.changeRequests[r.changeRequest].revision + 1, status))]);
  }

  lemma {:induction false} SameAccepted(s: Store, t: Store, a: AttemptId, k: nat)
    requires t.bypasses == s.bypasses && t.bypassOrder == s.bypassOrder
    requires forall key <- s.bypassOrder :: key in s.bypasses
    ensures AcceptedFrom(t, a, k) == AcceptedFrom(s, a, k)
    decreases |s.bypassOrder| - k
  {
    if k < |s.bypassOrder| { SameAccepted(s, t, a, k + 1); }
  }

  lemma GrantWritten(s: Store, now: int, r: BypassRequest, rest: seq<Note>)
    ensures Written(GrantedLog(s, now, r).audit, now, rest) == Written(s.audit, now,
              [Note("bypass_authorized", r.changeRequest, Some(r.attempt), Actor(r.actorId, Some(r.actorLogin)),
                 BypassGranted(r.fingerprint, r.reason, r.riskDigest))] + rest)
  {
    var n := Note("bypass_authorized", r.changeRequest, Some(r.attempt), Actor(r.actorId, Some(r.actorLogin)),
      BypassGranted(r.fingerprint, r.reason, r.riskDigest));
    WrittenOne(Granted(s, now, r), now, n);
    WrittenMore(s.audit, now, [n], rest);
  }

  /** Who may not bypass, and why: the refusals in the order they are made. */
  lemma BypassRefusals(env: Env, s: Store, now: int, r: BypassRequest)
    requires s.Valid()
    ensures var step := ApplyBypass(env, s, now, r);
      if r.attempt !in s.attempts || s.attempts[r.attempt].changeRequest != r.changeRequest then
        step == Step(s, Raised(StateConflict(UnknownAttempt)))
      else
        && r.changeRequest in s.changeRequests
        && var current := s.changeRequests[r.changeRequest];
        if current.authoritative != r.attempt || current.standing != Some(r.attempt) then
          step == Step(s, Raised(StateConflict(NotStandingAuthority)))
        else if s.attempts[r.attempt].identity != Some(r.identity) then
          step == Step(s, Raised(StateConflict(IdentityChanged)))
        else if (r.attempt, r.fingerprint) !in s.bypasses && current.gate != Some(Blocked) then
          step == Step(s, Raised(StateConflict(NotBlocked)))
        else (r.attempt, r.fingerprint) in s.bypasses || Grantable(s, r)
  {
    hide SettleGate;
    assert r.attempt in s.attempts ==> Located(s.attempts, s.changeRequests, r.attempt);
  }

  // ---- check synchronization ----------------------------------------------------------------------------------

  /** The intent may be taken now: it waits and its time has come, or its worker's lease is over. */
  predicate Due(intent: Intent, now: int) {
    || (intent.status.Queued? && (intent.nextRetryAt.Some? ==> intent.nextRetryAt.value <= now))
    || (intent.status.InProgress? && intent.leaseExpiresAt.Some? && intent.leaseExpiresAt.value <= now)
  }

  /** Due, and no waiting or running intent of the Attempt has a greater revision. */
  predicate NextInLine(intents: seq<Intent>, now: int, i: nat)
    requires i < |intents|
  {
    && Due(intents[i], now)
    && forall j :: 0 <= j < |intents| && intents[j].attempt == intents[i].attempt ==>
         (intents[j].status.Queued? || intents[j].status.InProgress?) ==> intents[j].revision <= intents[i].revision
  }

  /** A claim takes the oldest intent in line, counts one more try and leases it for the given time. */
  lemma ClaimSyncExactly(s: Store, now: int, leaseTicks: int)
    ensures var step := ClaimSync(s, now, leaseTicks);
      && step.result.Ok?
      && match step.result.value
         case None => step.store == s && forall i :: 0 <= i < |s.intents| ==> !NextInLine(s.intents, now, i)
         case Some(i) =>
           && i < |s.intents| && NextInLine(s.intents, now, i)
           && (forall j :: 0 <= j < i ==> !NextInLine(s.intents, now, j))
           && var intent := s.intents[i];
           step.store == s.(intents := s.intents[i :=
             Intent(intent.attempt, intent.revision, intent.checkRun, SyncStatus.InProgress, intent.tries + 1,
               intent.nextRetryAt, intent.lastError, Some(now + leaseTicks), intent.gate, intent.acceptedCount,
               intent.remainingCount, intent.createdAt, now)])
  {
    forall i | 0 <= i < |s.intents| ensures NextInLine(s.intents, now, i) <==> Deliverable(s.intents, now, i) {}
  }

  /** A mark writes what it is given over whatever the intent said, and ends its lease. */
  lemma MarkSyncExactly(s: Store, now: int, intentId: int, status: SyncStatus, lastError: Option<string>,
                        nextRetryAt: Option<int>)
    ensures var step := MarkSync(s, now, intentId, status, lastError, nextRetryAt);
      && step.result.Ok?
      && if intentId < 1 || intentId > |s.intents| then step.store == s
         else
           var intent := s.intents[intentId - 1];
           step.store == s.(intents := s.intents[intentId - 1 :=
             Intent(intent.attempt, intent.revision, intent.checkRun, status, intent.tries, nextRetryAt, lastError,
               None, intent.gate, intent.acceptedCount, intent.remainingCount, intent.createdAt, now)])
  {
  }
}
