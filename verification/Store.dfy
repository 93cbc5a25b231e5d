/**
 * The authoritative attempt store as a state machine: one function per public operation, each
 * an atomic step under the store's lock. The class in StoreClass.dfy performs the same steps in
 * place and is proved against these functions; StoreInvariants.dfy and StoreRuns.dfy prove what
 * the steps keep.
 *
 * A dictionary whose iteration order matters carries that order in a sequence beside the map.
 * Check-sync intents are keyed 1, 2, 3, ... and never removed, so they are a plain sequence.
 */
module Store {
  import opened Prelude
  import opened Identity

  type AttemptId(==, !new, 0)

  datatype Locator = Locator(installation: int, repository: string, number: int)

  datatype AttemptStatus = Queued | Running | Superseded | Published | AuditOnly

  datatype JobStatus = Queued | Running | Superseded | Completed | Retryable | Failed {
    predicate Terminal() {
      Completed? || Failed? || Superseded?
    }
  }

  datatype Attempt = Attempt(
    changeRequest: Locator,
    key: RequestKey,
    status: AttemptStatus,
    identity: Option<ReviewIdentity>) {
    /** Waiting, running or published: the statuses only the authoritative Attempt may hold. */
    predicate Current() {
      status.Queued? || status.Running? || status.Published?
    }
  }

  datatype Job = Job(status: JobStatus, retries: nat, updatedAt: int, lastError: Option<string>)

  datatype ChangeRequest = ChangeRequest(
    key: RequestKey,
    authoritative: AttemptId,
    standing: Option<AttemptId>,
    gate: Option<GateState>,
    revision: nat)

  datatype Lease = Lease(
    attempt: AttemptId,
    changeRequest: Locator,
    key: RequestKey,
    prior: Option<AttemptId>,
    deliveryReplayed: bool,
    leaseRecovered: bool)

  datatype Actor = Actor(id: Option<int>, login: Option<string>)

  const NoActor := Actor(None, None)

  type BypassKey = (AttemptId, string)

  datatype Bypass = Bypass(
    id: nat,
    changeRequest: Locator,
    attempt: AttemptId,
    fingerprint: string,
    actorId: Option<int>,
    actorLogin: string,
    reason: string,
    identity: ReviewIdentity,
    policySha256: string,
    riskSnapshot: string,
    riskDigest: string,
    active: bool,
    invalidationReason: Option<string>,
    createdAt: int,
    invalidatedAt: Option<int>)

  datatype SyncStatus = Queued | InProgress | Published | Failed | Superseded | NotApplicable {
    predicate Live() {
      Queued? || InProgress?
    }
  }

  /** One intent to bring an Attempt's Check to a standing revision. Its id is its position + 1. */
  datatype Intent = Intent(
    attempt: AttemptId,
    revision: nat,
    checkRun: Option<int>,
    status: SyncStatus,
    tries: nat,
    nextRetryAt: Option<int>,
    lastError: Option<string>,
    leaseExpiresAt: Option<int>,
    gate: GateState,
    acceptedCount: nat,
    remainingCount: nat,
    createdAt: int,
    updatedAt: int)

  datatype Payload =
    | AuthorityGranted(prior: Option<AttemptId>, delivery: Option<string>)
    | RetryCount(count: nat)
    | RetryError(count: nat, error: string)
    | RetriesExhausted(count: nat, lastError: Option<string>)
    | LeaseExhausted(count: nat)
    | Finalized(jobStatus: JobStatus, reason: string)
    | PublishSuperseded
    | GatePublished(gate: GateState)
    | DecisionInvalidated(reason: string)
    | BypassExpired(fingerprint: string, reason: string)
    | BypassGranted(fingerprint: string, reason: string, riskDigest: string)
    | GateTransition(from: GateState, to: GateState)
    | SyncQueued(revision: nat, syncStatus: SyncStatus)
    | Appended(content: string)
  {
    /** Only numbers, ids and enumeration values: nothing a payload check could object to. */
    predicate Plain() {
      RetryCount? || LeaseExhausted? || PublishSuperseded? || GatePublished? || GateTransition? || SyncQueued?
    }
  }

  datatype AuditEvent = AuditEvent(
    id: nat,
    kind: string,
    at: int,
    changeRequest: Locator,
    attempt: Option<AttemptId>,
    actor: Actor,
    payload: Payload)

  /** What the store is built with: the payload check, the error scrubber and the lease length. */
  datatype Env = Env(safe: Payload -> bool, scrub: string -> string, leaseTicks: int) {
    predicate Accepts(payload: Payload) {
      payload.Plain() || safe(payload)
    }
  }

  datatype Conflict =
    | EmptyDelivery
    | StaleExpectation
    | UnknownAttempt
    | IdentityMismatch
    | IdentityImmutable
    | NoLongerStanding
    | MissingGate
    | GateFixed
    | NotRunning
    | NotTerminal
    | NotStandingAuthority
    | IdentityChanged
    | DifferentBypass
    | NotBlocked

  datatype Failure = StateConflict(conflict: Conflict) | UnsafePayload

  datatype Result<+T> = Ok(value: T) | Raised(failure: Failure)

  /** The state an operation leaves behind, together with what it returns or raises. */
  datatype Step<+T> = Step(store: Store, result: Result<T>) {
    predicate Unsafe() {
      result.Raised? && result.failure.UnsafePayload?
    }
  }

  datatype Disposition = DecisionPublished | DecisionSuperseded

  datatype PublishResult = PublishResult(disposition: Disposition, gate: Option<GateState>)

  datatype RecoveryReport = RecoveryReport(
    requeued: seq<AttemptId>,
    leaseRecovered: seq<AttemptId>,
    exhausted: seq<AttemptId>)

  datatype BypassRequest = BypassRequest(
    changeRequest: Locator,
    attempt: AttemptId,
    fingerprint: string,
    actorId: Option<int>,
    actorLogin: string,
    reason: string,
    identity: ReviewIdentity,
    policySha256: string,
    blocking: seq<string>,
    riskSnapshot: string,
    riskDigest: string,
    checkRun: Option<int>)

  datatype BypassResult = BypassResult(
    record: Bypass,
    gate: Option<GateState>,
    revision: nat,
    activeFingerprints: seq<string>,
    remaining: nat,
    syncStatus: SyncStatus,
    transitioned: bool,
    replayed: bool)

  ghost predicate Located(attempts: map<AttemptId, Attempt>, changeRequests: map<Locator, ChangeRequest>, a: AttemptId)
    requires a in attempts
  {
    attempts[a].changeRequest in changeRequests
  }

  ghost predicate Designated(changeRequests: map<Locator, ChangeRequest>, attempts: map<AttemptId, Attempt>, l: Locator)
    requires l in changeRequests
  {
    changeRequests[l].authoritative in attempts
  }

  /** Change requests name known Attempts, and Attempts known change requests. */
  ghost predicate Referenced(changeRequests: map<Locator, ChangeRequest>, attempts: map<AttemptId, Attempt>) {
    && (forall l {:trigger Designated(changeRequests, attempts, l)} :: l in changeRequests ==>
         Designated(changeRequests, attempts, l))
    && (forall a {:trigger Located(attempts, changeRequests, a)} :: a in attempts ==>
         Located(attempts, changeRequests, a))
  }

  /** The sequence lists the dictionary's keys, each once. */
  ghost predicate Ordered<K(!new), V>(dictionary: map<K, V>, order: seq<K>) {
    && (forall k :: k in order <==> k in dictionary)
    && (forall i, j :: 0 <= i < j < |order| ==> order[i] != order[j])
  }

  datatype Store = Store(
    changeRequests: map<Locator, ChangeRequest>,
    attempts: map<AttemptId, Attempt>,
    jobs: map<AttemptId, Job>,
    jobOrder: seq<AttemptId>,
    deliveries: map<(int, string), Lease>,
    audit: seq<AuditEvent>,
    bypasses: map<BypassKey, Bypass>,
    bypassOrder: seq<BypassKey>,
    intents: seq<Intent>)
  {
    /** The references between the dictionaries that the lookups in the operations rely on. */
    ghost predicate Linked() {
      && Referenced(changeRequests, attempts)
      && attempts.Keys == jobs.Keys
    }

    /** The iteration orders list exactly the keys of their dictionaries. */
    ghost predicate Indexed() {
      && Ordered(jobs, jobOrder)
      && Ordered(bypasses, bypassOrder)
    }

    ghost predicate Valid() {
      Linked() && Indexed()
    }

    function Log(now: int, kind: string, changeRequest: Locator, attempt: Option<AttemptId>,
                 actor: Actor, payload: Payload): Store
    {
      this.(audit := audit + [AuditEvent(|audit| + 1, kind, now, changeRequest, attempt, actor, payload)])
    }
  }

  const Empty := Store(map[], map[], map[], [], map[], [], map[], [], [])

  /** Append an audit event, or raise with the state as it is when the payload is refused. */
  function Record<T>(env: Env, s: Store, now: int, kind: string, changeRequest: Locator,
                     attempt: Option<AttemptId>, actor: Actor, payload: Payload, value: T): Step<T>
  {
    if env.Accepts(payload) then Step(s.Log(now, kind, changeRequest, attempt, actor, payload), Ok(value))
    else Step(s, Raised(UnsafePayload))
  }

  // ---- shared pieces of the transitions ------------------------------------------------

  function ExpireBypass(b: Bypass, now: int, reason: string): Bypass {
    b.(active := false, invalidationReason := Some(reason), invalidatedAt := Some(now))
  }

  /** Expire the change request's active bypasses, from position k of the dictionary on. */
  function ExpireBypasses(env: Env, s: Store, now: int, l: Locator, reason: string, k: nat): Step<()>
    requires forall key <- s.bypassOrder :: key in s.bypasses
    decreases |s.bypassOrder| - k
  {
    if k >= |s.bypassOrder| then Step(s, Ok(()))
    else
      var key := s.bypassOrder[k];
      var b := s.bypasses[key];
      if b.changeRequest != l || !b.active then ExpireBypasses(env, s, now, l, reason, k + 1)
      else
        var expired := s.(bypasses := s.bypasses[key := ExpireBypass(b, now, reason)]);
        var payload := BypassExpired(b.fingerprint, reason);
        if !env.Accepts(payload) then Step(expired, Raised(UnsafePayload))
        else
          ExpireBypasses(env,
            expired.Log(now, "bypass_invalidated", l, Some(b.attempt), Actor(b.actorId, Some(b.actorLogin)), payload),
            now, l, reason, k + 1)
  }

  function SupersedeIntent(intent: Intent, now: int, a: AttemptId): Intent {
    if intent.attempt == a && intent.status.Live() then
      intent.(status := SyncStatus.Superseded, updatedAt := now)
    else intent
  }

  function SupersedeIntents(intents: seq<Intent>, now: int, a: AttemptId): (r: seq<Intent>)
    ensures |r| == |intents|
    ensures forall i :: 0 <= i < |r| ==> r[i] == SupersedeIntent(intents[i], now, a)
  {
    if |intents| == 0 then []
    else SupersedeIntents(intents[..|intents| - 1], now, a) + [SupersedeIntent(intents[|intents| - 1], now, a)]
  }

  /** The fingerprints accepted on an Attempt, in the order they were first granted. */
  function ActiveFingerprints(s: Store, a: AttemptId, k: nat): seq<string>
    requires k <= |s.bypassOrder|
    requires forall key <- s.bypassOrder :: key in s.bypasses
  {
    if k == 0 then []
    else
      var key := s.bypassOrder[k - 1];
      ActiveFingerprints(s, a, k - 1) +
      if s.bypasses[key].attempt == a && s.bypasses[key].active then [s.bypasses[key].fingerprint] else []
  }

  function Uncovered(blocking: seq<string>, active: seq<string>): seq<string> {
    if |blocking| == 0 then []
    else
      Uncovered(blocking[..|blocking| - 1], active) +
      if blocking[|blocking| - 1] in active then [] else [blocking[|blocking| - 1]]
  }

  /** Position of the Attempt's intent with the greatest revision; the first one when they tie. */
  function LatestIntent(intents: seq<Intent>, a: AttemptId, k: nat): (r: Option<nat>)
    requires k <= |intents|
    ensures r.Some? ==> r.value < k && intents[r.value].attempt == a
    ensures r.Some? ==> forall i :: 0 <= i < k && intents[i].attempt == a ==>
              intents[i].revision <= intents[r.value].revision
    ensures r.None? ==> forall i :: 0 <= i < k ==> intents[i].attempt != a
  {
    if k == 0 then None
    else
      var before := LatestIntent(intents, a, k - 1);
      if intents[k - 1].attempt == a &&
         (before.None? || intents[before.value].revision < intents[k - 1].revision) then Some(k - 1)
      else before
  }

  function LatestSyncStatus(intents: seq<Intent>, a: AttemptId): SyncStatus {
    var latest := LatestIntent(intents, a, |intents|);
    if latest.None? then NotApplicable else intents[latest.value].status
  }

  // ---- authority --------------------------------------------------------------------------

  const SupersededReason := "new authoritative Attempt superseded the standing decision"

  /** The prior Attempt loses authority; its job is withdrawn only while it still waits. */
  function Demote(s: Store, prior: AttemptId): Store
    requires prior in s.attempts && prior in s.jobs
  {
    var job := s.jobs[prior];
    s.(
      attempts := s.attempts[prior := s.attempts[prior].(status := AttemptStatus.Superseded)],
      jobs := if job.status.Queued? then s.jobs[prior := job.(status := JobStatus.Superseded)] else s.jobs)
  }

  /** Take authority away from the prior Attempt and expire everything bound to it. */
  function Retire(env: Env, s: Store, now: int, l: Locator, prior: AttemptId): Step<()>
    requires s.Valid() && prior in s.attempts
  {
    var expired := ExpireBypasses(env, Demote(s, prior), now, l, SupersededReason, 0);
    if expired.result.Raised? then expired
    else
      Step(expired.store.(intents := SupersedeIntents(expired.store.intents, now, prior)), Ok(()))
  }

  /** Designate the new Attempt and queue its job. */
  function Designate(s: Store, now: int, newId: AttemptId, l: Locator, key: RequestKey,
                     delivery: Option<string>, lease: Lease): Store
  {
    s.(
      changeRequests := s.changeRequests[l := ChangeRequest(key, newId, None, None,
        if l in s.changeRequests then s.changeRequests[l].revision + 1 else 0)],
      attempts := s.attempts[newId := Attempt(l, key, AttemptStatus.Queued, None)],
      jobs := s.jobs[newId := Job(JobStatus.Queued, 0, now, None)],
      jobOrder := s.jobOrder + [newId],
      deliveries := if delivery.Some? then s.deliveries[(l.installation, delivery.value) := lease] else s.deliveries)
  }

  function Prior(s: Store, l: Locator): Option<AttemptId> {
    if l in s.changeRequests then Some(s.changeRequests[l].authoritative) else None
  }

  /** What happens to the change request before a new Attempt is designated. */
  function Vacate(env: Env, s: Store, now: int, l: Locator): Step<()>
    requires s.Valid()
  {
    assert l in s.changeRequests ==> Designated(s.changeRequests, s.attempts, l);
    var prior := Prior(s, l);
    if prior.Some? then Retire(env, s, now, l, prior.value) else Step(s, Ok(()))
  }

  function Start(env: Env, s: Store, now: int, newId: AttemptId, l: Locator, key: RequestKey,
                 expected: Option<AttemptId>, delivery: Option<string>): Step<Lease>
    requires s.Valid()
  {
    if delivery.Some? && delivery.value == "" then Step(s, Raised(StateConflict(EmptyDelivery)))
    else if delivery.Some? && (l.installation, delivery.value) in s.deliveries then
      Step(s, Ok(s.deliveries[(l.installation, delivery.value)].(deliveryReplayed := true)))
    else
      var prior := Prior(s, l);
      if expected.Some? && prior != expected then Step(s, Raised(StateConflict(StaleExpectation)))
      else
        var retired := Vacate(env, s, now, l);
        if retired.result.Raised? then Step(retired.store, Raised(retired.result.failure))
        else
          var lease := Lease(newId, l, key, prior, false, false);
          Record(env, Designate(retired.store, now, newId, l, key, delivery, lease), now,
            "attempt_authoritative", l, Some(newId), NoActor, AuthorityGranted(prior, delivery), lease)
  }

  function RecordIdentity(s: Store, a: AttemptId, identity: ReviewIdentity): Step<()> {
    if a !in s.attempts then Step(s, Raised(StateConflict(UnknownAttempt)))
    else
      var attempt := s.attempts[a];
      if !Matches(identity, attempt.key) then Step(s, Raised(StateConflict(IdentityMismatch)))
      else if attempt.identity.Some? && attempt.identity.value != identity then
        Step(s, Raised(StateConflict(IdentityImmutable)))
      else Step(s.(attempts := s.attempts[a := attempt.(identity := Some(identity))]), Ok(()))
  }

  // ---- jobs -------------------------------------------------------------------------------

  predicate Stale(job: Job, now: int, leaseTicks: int) {
    now - job.updatedAt > leaseTicks
  }

  /** The second half of a claim: the job is Queued. */
  function TakeQueued(s: Store, now: int, a: AttemptId, recovered: bool): Step<Option<Lease>>
    requires a in s.attempts && a in s.jobs && s.attempts[a].changeRequest in s.changeRequests
  {
    var attempt := s.attempts[a];
    if s.changeRequests[attempt.changeRequest].authoritative != a then
      Step(s.(jobs := s.jobs[a := s.jobs[a].(status := JobStatus.Superseded, updatedAt := now)],
              attempts := s.attempts[a := attempt.(status := AttemptStatus.Superseded)]), Ok(None))
    else
      Step(s.(jobs := s.jobs[a := s.jobs[a].(status := JobStatus.Running, updatedAt := now)],
              attempts := s.attempts[a := attempt.(status := AttemptStatus.Running)]),
           Ok(Some(Lease(a, attempt.changeRequest, attempt.key, None, false, recovered))))
  }

  /** A running job whose lease expired goes back to the queue, whatever its retry count. */
  function Reclaim(s: Store, now: int, a: AttemptId): Store
    requires a in s.attempts && a in s.jobs
  {
    var retries := s.jobs[a].retries + 1;
    s.(jobs := s.jobs[a := s.jobs[a].(status := JobStatus.Queued, retries := retries)])
     .Log(now, "job_lease_recovered", s.attempts[a].changeRequest, Some(a), NoActor, RetryCount(retries))
  }

  function Claim(env: Env, s: Store, now: int, a: AttemptId): Step<Option<Lease>>
    requires s.Linked()
  {
    if a !in s.attempts then Step(s, Ok(None))
    else
      assert Located(s.attempts, s.changeRequests, a);
      var job := s.jobs[a];
      if job.status.Running? then
        if !Stale(job, now, env.leaseTicks) then Step(s, Ok(None))
        else TakeQueued(Reclaim(s, now, a), now, a, true)
      else if job.status.Queued? then TakeQueued(s, now, a, false)
      else Step(s, Ok(None))
  }

  function ScrubJobError(env: Env, error: string): string {
    var clean := env.scrub(error);
    if |clean| > 1024 then clean[..1024] else clean
  }

  function MarkRetryable(env: Env, s: Store, now: int, a: AttemptId, error: string): Step<()>
    requires s.Linked()
  {
    if a !in s.jobs || !s.jobs[a].status.Running? then Step(s, Ok(()))
    else
      var job := s.jobs[a];
      var detail := ScrubJobError(env, error);
      Record(env,
        s.(jobs := s.jobs[a := Job(JobStatus.Retryable, job.retries + 1, now, Some(detail))]),
        now, "job_retryable", s.attempts[a].changeRequest, Some(a), NoActor, RetryError(job.retries + 1, detail), ())
  }

  /** Recovery of one job; the report gains the job's id in the list that applies. */
  function RecoverJob(env: Env, s: Store, now: int, maxAttempts: int, leaseTicks: int, a: AttemptId,
                      report: RecoveryReport): Step<RecoveryReport>
    requires a in s.jobs && a in s.attempts
  {
    var job := s.jobs[a];
    var l := s.attempts[a].changeRequest;
    if job.status.Retryable? then
      if job.retries >= maxAttempts then
        Record(env, s.(jobs := s.jobs[a := job.(status := JobStatus.Failed, updatedAt := now)]), now,
          "job_failed", l, Some(a), NoActor, RetriesExhausted(job.retries, job.lastError),
          report.(exhausted := report.exhausted + [a]))
      else
        Step(s.(jobs := s.jobs[a := job.(status := JobStatus.Queued, updatedAt := now)]),
             Ok(report.(requeued := report.requeued + [a])))
    else if job.status.Running? && Stale(job, now, leaseTicks) then
      var retries := job.retries + 1;
      if retries >= maxAttempts then
        Record(env, s.(jobs := s.jobs[a := job.(status := JobStatus.Failed, updatedAt := now, retries := retries)]),
          now, "job_failed", l, Some(a), NoActor, LeaseExhausted(retries),
          report.(exhausted := report.exhausted + [a]))
      else
        Record(env, s.(jobs := s.jobs[a := job.(status := JobStatus.Queued, updatedAt := now, retries := retries)]),
          now, "job_lease_recovered", l, Some(a), NoActor, RetryCount(retries),
          report.(leaseRecovered := report.leaseRecovered + [a]))
    else Step(s, Ok(report))
  }

  /** Recovery of the jobs from position k of the job dictionary on. */
  function Recover(env: Env, s: Store, now: int, maxAttempts: int, leaseTicks: int, k: nat,
                   report: RecoveryReport): Step<RecoveryReport>
    requires forall a <- s.jobOrder :: a in s.jobs && a in s.attempts
    decreases |s.jobOrder| - k
  {
    if k >= |s.jobOrder| then Step(s, Ok(report))
    else
      var one := RecoverJob(env, s, now, maxAttempts, leaseTicks, s.jobOrder[k], report);
      if one.result.Raised? then one
      else Recover(env, one.store, now, maxAttempts, leaseTicks, k + 1, one.result.value)
  }

  const NothingRecovered := RecoveryReport([], [], [])

  /** A publication outcome ends the job unless it already ended. */
  function CompleteJob(s: Store, now: int, a: AttemptId): Store
    requires a in s.jobs
  {
    if s.jobs[a].status.Terminal() then s
    else s.(jobs := s.jobs[a := s.jobs[a].(status := JobStatus.Completed, updatedAt := now)])
  }

  predicate PublicationInputsMatch(s: Store, a: AttemptId, key: RequestKey, identity: Option<ReviewIdentity>)
    requires s.Linked() && a in s.attempts
  {
    assert Located(s.attempts, s.changeRequests, a);
    var attempt := s.attempts[a];
    var current := s.changeRequests[attempt.changeRequest];
    && current.authoritative == a
    && current.key == key
    && attempt.key == key
    && identity == attempt.identity
    && (identity.Some? ==> Matches(identity.value, key))
  }

  /** The Attempt was overtaken: its outcome is kept for the audit trail only. */
  function KeepForAudit(env: Env, s: Store, now: int, a: AttemptId): Step<PublishResult>
    requires a in s.attempts && a in s.jobs
  {
    var attempt := s.attempts[a];
    Record(env,
      CompleteJob(s.(attempts := s.attempts[a := attempt.(status := AttemptStatus.AuditOnly)]), now, a), now,
      "attempt_publish_superseded", attempt.changeRequest, Some(a), NoActor, PublishSuperseded,
      PublishResult(DecisionSuperseded, None))
  }

  /** The Attempt's gate becomes the change request's standing decision. */
  function Decide(env: Env, s: Store, now: int, a: AttemptId, gate: GateState): Step<PublishResult>
    requires a in s.attempts && a in s.jobs && s.attempts[a].changeRequest in s.changeRequests
  {
    var attempt := s.attempts[a];
    var l := attempt.changeRequest;
    var current := s.changeRequests[l];
    var done := CompleteJob(s.(attempts := s.attempts[a := attempt.(status := AttemptStatus.Published)]), now, a);
    Record(env,
      done.(changeRequests := s.changeRequests[l :=
        current.(standing := Some(a), gate := Some(gate), revision := current.revision + 1)]), now,
      "standing_decision_published", l, Some(a), NoActor, GatePublished(gate),
      PublishResult(DecisionPublished, Some(gate)))
  }

  function Publish(env: Env, s: Store, now: int, a: AttemptId, key: RequestKey,
                   identity: Option<ReviewIdentity>, gate: GateState): Step<PublishResult>
    requires s.Linked()
  {
    if a !in s.attempts then Step(s, Raised(StateConflict(UnknownAttempt)))
    else
      assert Located(s.attempts, s.changeRequests, a);
      var attempt := s.attempts[a];
      var current := s.changeRequests[attempt.changeRequest];
      var inputsMatch := PublicationInputsMatch(s, a, key, identity);
      if attempt.status.Published? then
        if !inputsMatch || current.standing != Some(a) then Step(s, Raised(StateConflict(NoLongerStanding)))
        else if current.gate.None? then Step(s, Raised(StateConflict(MissingGate)))
        else if current.gate.value != gate then Step(s, Raised(StateConflict(GateFixed)))
        else Step(s, Ok(PublishResult(DecisionPublished, current.gate)))
      else if !attempt.status.Running? && inputsMatch then Step(s, Raised(StateConflict(NotRunning)))
      else if attempt.status.AuditOnly? then Step(s, Ok(PublishResult(DecisionSuperseded, None)))
      else if !inputsMatch then KeepForAudit(env, s, now, a)
      else Decide(env, s, now, a, gate)
  }

  function Finalize(env: Env, s: Store, now: int, a: AttemptId, status: JobStatus, reason: string): Step<()>
    requires s.Linked()
  {
    if !status.Completed? && !status.Failed? then Step(s, Raised(StateConflict(NotTerminal)))
    else if a !in s.jobs || s.jobs[a].status.Terminal() then Step(s, Ok(()))
    else
      var detail := ScrubJobError(env, reason);
      Record(env,
        s.(jobs := s.jobs[a := s.jobs[a].(status := status, lastError := Some(detail), updatedAt := now)]), now,
        "job_finalized", s.attempts[a].changeRequest, Some(a), NoActor, Finalized(status, detail), ())
  }

  // ---- standing decisions and bypasses -------------------------------------------------------

  function Append(env: Env, s: Store, now: int, kind: string, l: Locator, a: Option<AttemptId>, actor: Actor,
                  content: string): Step<()>
  {
    Record(env, s, now, kind, l, a, actor, Appended(content), ())
  }

  /** Losing the standing decision is itself a revision. */
  function ClearStanding(s: Store, l: Locator): Store
    requires l in s.changeRequests
  {
    var current := s.changeRequests[l];
    s.(changeRequests := s.changeRequests[l :=
      current.(standing := None, gate := None, revision := current.revision + 1)])
  }

  function SupersedeFor(s: Store, now: int, standing: Option<AttemptId>): Store {
    if standing.None? then s else s.(intents := SupersedeIntents(s.intents, now, standing.value))
  }

  function Invalidate(env: Env, s: Store, now: int, l: Locator, reason: string): Step<()>
    requires s.Indexed()
  {
    if l !in s.changeRequests then Step(s, Ok(()))
    else
      var standing := s.changeRequests[l].standing;
      var expired := ExpireBypasses(env, ClearStanding(s, l), now, l, reason, 0);
      if expired.result.Raised? then expired
      else
        Record(env, SupersedeFor(expired.store, now, standing), now, "standing_decision_invalidated", l, standing,
          NoActor, DecisionInvalidated(reason), ())
  }

  function GrantRecord(s: Store, now: int, r: BypassRequest): Bypass {
    Bypass(|s.bypassOrder| + 1, r.changeRequest, r.attempt, r.fingerprint, r.actorId, r.actorLogin, r.reason,
      r.identity, r.policySha256, r.riskSnapshot, r.riskDigest, true, None, now, None)
  }

  function Granted(s: Store, now: int, r: BypassRequest): Store {
    var key := (r.attempt, r.fingerprint);
    s.(bypasses := s.bypasses[key := GrantRecord(s, now, r)], bypassOrder := s.bypassOrder + [key])
  }

  function GrantPayload(r: BypassRequest): Payload {
    BypassGranted(r.fingerprint, r.reason, r.riskDigest)
  }

  function GrantedLog(s: Store, now: int, r: BypassRequest): Store {
    Granted(s, now, r).Log(now, "bypass_authorized", r.changeRequest, Some(r.attempt),
      Actor(r.actorId, Some(r.actorLogin)), GrantPayload(r))
  }

  /** The gate moves on once every blocking finding is accepted. */
  function MoveGate(s: Store, now: int, r: BypassRequest, covered: bool): Store
    requires r.changeRequest in s.changeRequests
  {
    var l := r.changeRequest;
    if covered then
      s.(changeRequests := s.changeRequests[l := s.changeRequests[l].(gate := Some(PassedWithBypass))])
       .Log(now, "gate_transition", l, Some(r.attempt), Actor(r.actorId, Some(r.actorLogin)),
            GateTransition(Blocked, PassedWithBypass))
    else s
  }

  /** The Check status a surface with or without a platform Check starts at. */
  function FirstSyncStatus(checkRun: Option<int>): SyncStatus {
    if checkRun.Some? then SyncStatus.Queued else NotApplicable
  }

  /** A new revision of the standing decision, with one intent to synchronize it. */
  function Revise(s: Store, now: int, r: BypassRequest, gate: GateState, accepted: nat, remaining: nat): Store
    requires r.changeRequest in s.changeRequests
  {
    var l := r.changeRequest;
    var revision := s.changeRequests[l].revision + 1;
    var status := FirstSyncStatus(r.checkRun);
    s.(changeRequests := s.changeRequests[l := s.changeRequests[l].(revision := revision)],
       intents := SupersedeIntents(s.intents, now, r.attempt) +
         [Intent(r.attempt, revision, r.checkRun, status, 0, None, None, None, gate, accepted, remaining, now, now)])
     .Log(now, "check_sync_queued", l, Some(r.attempt), NoActor, SyncQueued(revision, status))
  }

  /** A bypass that passed every check: recompute the gate, bump the revision, queue the Check sync. */
  function SettleGate(s: Store, now: int, r: BypassRequest, record: Bypass): Step<BypassResult>
    requires r.changeRequest in s.changeRequests
    requires forall key <- s.bypassOrder :: key in s.bypasses
  {
    var active := ActiveFingerprints(s, r.attempt, |s.bypassOrder|);
    var remaining := Uncovered(r.blocking, active);
    var moved := MoveGate(s, now, r, remaining == []);
    var current := moved.changeRequests[r.changeRequest];
    Step(
      Revise(moved, now, r, current.gate.GetOr(Blocked), |active|, |remaining|),
      Ok(BypassResult(record, current.gate, current.revision + 1, active, |remaining|, FirstSyncStatus(r.checkRun),
        remaining == [], false)))
  }

  function ApplyBypass(env: Env, s: Store, now: int, r: BypassRequest): Step<BypassResult>
    requires s.Valid()
  {
    if r.attempt !in s.attempts || s.attempts[r.attempt].changeRequest != r.changeRequest then
      Step(s, Raised(StateConflict(UnknownAttempt)))
    else
      assert Located(s.attempts, s.changeRequests, r.attempt);
      var l := r.changeRequest;
      var current := s.changeRequests[l];
      if current.authoritative != r.attempt || current.standing != Some(r.attempt) then
        Step(s, Raised(StateConflict(NotStandingAuthority)))
      else if s.attempts[r.attempt].identity != Some(r.identity) then
        Step(s, Raised(StateConflict(IdentityChanged)))
      else
        var key := (r.attempt, r.fingerprint);
        if key in s.bypasses then
          var b := s.bypasses[key];
          if b.active && b.actorId == r.actorId && b.actorLogin == r.actorLogin && b.reason == r.reason then
            var active := ActiveFingerprints(s, r.attempt, |s.bypassOrder|);
            Step(s, Ok(BypassResult(b, current.gate, current.revision, active, |Uncovered(r.blocking, active)|,
              LatestSyncStatus(s.intents, r.attempt), false, true)))
          else Step(s, Raised(StateConflict(DifferentBypass)))
        else if current.gate != Some(Blocked) then Step(s, Raised(StateConflict(NotBlocked)))
        else
          if !env.Accepts(GrantPayload(r)) then Step(Granted(s, now, r), Raised(UnsafePayload))
          else SettleGate(GrantedLog(s, now, r), now, r, GrantRecord(s, now, r))
  }

  // ---- check synchronization ------------------------------------------------------------------

  predicate Claimable(intent: Intent, now: int) {
    || (intent.status.Queued? && (intent.nextRetryAt.None? || intent.nextRetryAt.value <= now))
    || (intent.status.InProgress? && intent.leaseExpiresAt.Some? && intent.leaseExpiresAt.value <= now)
  }

  /** No live intent of the same Attempt carries a greater revision. */
  predicate NewestLive(intents: seq<Intent>, i: nat)
    requires i < |intents|
  {
    forall j :: 0 <= j < |intents| && intents[j].status.Live() && intents[j].attempt == intents[i].attempt ==>
      intents[j].revision <= intents[i].revision
  }

  predicate Deliverable(intents: seq<Intent>, now: int, i: nat)
    requires i < |intents|
  {
    Claimable(intents[i], now) && NewestLive(intents, i)
  }

  /** The oldest deliverable intent at position k or later. */
  function FirstDeliverable(intents: seq<Intent>, now: int, k: nat): (r: Option<nat>)
    ensures r.Some? ==> k <= r.value < |intents| && Deliverable(intents, now, r.value)
    ensures forall i :: k <= i < |intents| && Deliverable(intents, now, i) ==> r.Some? && r.value <= i
    decreases |intents| - k
  {
    if k >= |intents| then None
    else if Deliverable(intents, now, k) then Some(k)
    else FirstDeliverable(intents, now, k + 1)
  }

  function ClaimedIntent(intent: Intent, now: int, leaseTicks: int): Intent {
    intent.(status := SyncStatus.InProgress, tries := intent.tries + 1, leaseExpiresAt := Some(now + leaseTicks),
      updatedAt := now)
  }

  function ClaimSync(s: Store, now: int, leaseTicks: int): Step<Option<nat>> {
    var chosen := FirstDeliverable(s.intents, now, 0);
    if chosen.None? then Step(s, Ok(None))
    else
      var i := chosen.value;
      Step(s.(intents := s.intents[i := ClaimedIntent(s.intents[i], now, leaseTicks)]), Ok(Some(i)))
  }

  function MarkSync(s: Store, now: int, intentId: int, status: SyncStatus, lastError: Option<string>,
                    nextRetryAt: Option<int>): Step<()>
  {
    if !(1 <= intentId <= |s.intents|) then Step(s, Ok(()))
    else
      var i := intentId - 1;
      Step(s.(intents := s.intents[i := s.intents[i].(status := status, lastError := lastError,
        nextRetryAt := nextRetryAt, leaseExpiresAt := None, updatedAt := now)]), Ok(()))
  }
}
