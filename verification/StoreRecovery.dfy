/** What a recovery pass, a retry and the end of a job do to each job, read off the job's record before. */
module StoreRecovery {
  import opened Prelude
  import opened Store
  import opened StoreInvariants
  import opened StoreSteps
  import opened StoreNotes

  /** How a recovery pass deals with a job. */
  datatype Fate = Requeued | LeaseRecovered | Exhausted | Untouched

  function FateOf(job: Job, now: int, maxAttempts: int, leaseTicks: int): Fate {
    if job.status.Retryable? then if job.retries < maxAttempts then Requeued else Exhausted
    else if job.status.Running? && now > job.updatedAt + leaseTicks then
      if job.retries + 1 < maxAttempts then LeaseRecovered else Exhausted
    else Untouched
  }

  /** A lost lease counts as one retry. */
  function RecoveredJob(job: Job, now: int, maxAttempts: int, leaseTicks: int): Job {
    match FateOf(job, now, maxAttempts, leaseTicks)
    case Requeued => Job(JobStatus.Queued, job.retries, now, job.lastError)
    case LeaseRecovered => Job(JobStatus.Queued, job.retries + 1, now, job.lastError)
    case Exhausted =>
      Job(JobStatus.Failed, if job.status.Running? then job.retries + 1 else job.retries, now, job.lastError)
    case Untouched => job
  }

  function RecoveryNote(job: Job, l: Locator, a: AttemptId, fate: Fate): seq<Note> {
    match fate
    case Requeued => []
    case LeaseRecovered => [Note("job_lease_recovered", l, Some(a), Actor(None, None), RetryCount(job.retries + 1))]
    case Exhausted =>
      [Note("job_failed", l, Some(a), Actor(None, None),
         if job.status.Running? then LeaseExhausted(job.retries + 1) else RetriesExhausted(job.retries, job.lastError))]
    case Untouched => []
  }

  /** The jobs of one fate, in the order of the dictionary, from position k on. */
  function OfFate(s: Store, fate: Fate, now: int, maxAttempts: int, leaseTicks: int, k: nat): seq<AttemptId>
    requires forall a <- s.jobOrder :: a in s.jobs
    decreases |s.jobOrder| - k
  {
    if k >= |s.jobOrder| then []
    else
      var a := s.jobOrder[k];
      (if FateOf(s.jobs[a], now, maxAttempts, leaseTicks) == fate then [a] else []) +
      OfFate(s, fate, now, maxAttempts, leaseTicks, k + 1)
  }

  function RecoveryNotes(s: Store, now: int, maxAttempts: int, leaseTicks: int, k: nat): seq<Note>
    requires forall a <- s.jobOrder :: a in s.jobs && a in s.attempts
    decreases |s.jobOrder| - k
  {
    if k >= |s.jobOrder| then []
    else
      var a := s.jobOrder[k];
      var job := s.jobs[a];
      RecoveryNote(job, s.attempts[a].changeRequest, a, FateOf(job, now, maxAttempts, leaseTicks)) +
      RecoveryNotes(s, now, maxAttempts, leaseTicks, k + 1)
  }

  lemma {:induction false} SameFates(s: Store, t: Store, fate: Fate, now: int, maxAttempts: int, leaseTicks: int,
                                     k: nat)
    requires t.jobOrder == s.jobOrder
    requires forall a <- s.jobOrder :: a in s.jobs && a in t.jobs
    requires forall i :: k <= i < |s.jobOrder| ==> t.jobs[s.jobOrder[i]] == s.jobs[s.jobOrder[i]]
    ensures OfFate(t, fate, now, maxAttempts, leaseTicks, k) == OfFate(s, fate, now, maxAttempts, leaseTicks, k)
    decreases |s.jobOrder| - k
  {
    hide FateOf;
    if k < |s.jobOrder| { SameFates(s, t, fate, now, maxAttempts, leaseTicks, k + 1); }
  }

  lemma {:induction false} SameRecoveryNotes(s: Store, t: Store, now: int, maxAttempts: int, leaseTicks: int, k: nat)
    requires t.jobOrder == s.jobOrder && t.attempts == s.attempts
    requires forall a <- s.jobOrder :: a in s.jobs && a in t.jobs && a in s.attempts
    requires forall i :: k <= i < |s.jobOrder| ==> t.jobs[s.jobOrder[i]] == s.jobs[s.jobOrder[i]]
    ensures RecoveryNotes(t, now, maxAttempts, leaseTicks, k) == RecoveryNotes(s, now, maxAttempts, leaseTicks, k)
    decreases |s.jobOrder| - k
  {
    hide FateOf, RecoveryNote;
    if k < |s.jobOrder| { SameRecoveryNotes(s, t, now, maxAttempts, leaseTicks, k + 1); }
  }

  function ListOf(report: RecoveryReport, fate: Fate): seq<AttemptId> {
    match fate
    case Requeued => report.requeued
    case LeaseRecovered => report.leaseRecovered
    case Exhausted => report.exhausted
    case Untouched => []
  }

  /** The report names, after what it named before, the jobs of the fate from position k on. */
  ghost predicate Reported(s: Store, fate: Fate, before: RecoveryReport, after: RecoveryReport, now: int,
                           maxAttempts: int, leaseTicks: int, k: nat)
    requires forall a <- s.jobOrder :: a in s.jobs
  {
    ListOf(after, fate) == ListOf(before, fate) + OfFate(s, fate, now, maxAttempts, leaseTicks, k)
  }

  function With(report: RecoveryReport, fate: Fate, a: AttemptId): RecoveryReport {
    match fate
    case Requeued => report.(requeued := report.requeued + [a])
    case LeaseRecovered => report.(leaseRecovered := report.leaseRecovered + [a])
    case Exhausted => report.(exhausted := report.exhausted + [a])
    case Untouched => report
  }

  lemma WithListed(report: RecoveryReport, added: Fate, a: AttemptId, fate: Fate)
    requires !fate.Untouched?
    ensures ListOf(With(report, added, a), fate) == ListOf(report, fate) + if added == fate then [a] else []
  {
  }

  lemma ReportedMore(s: Store, t: Store, fate: Fate, before: RecoveryReport, after: RecoveryReport, now: int,
                     maxAttempts: int, leaseTicks: int, k: nat)
    requires !fate.Untouched? && k < |s.jobOrder| && t.jobOrder == s.jobOrder
    requires forall a <- s.jobOrder :: a in s.jobs && a in t.jobs
    requires forall i :: k < i < |s.jobOrder| ==> t.jobs[s.jobOrder[i]] == s.jobs[s.jobOrder[i]]
    requires var a := s.jobOrder[k];
      Reported(t, fate, With(before, FateOf(s.jobs[a], now, maxAttempts, leaseTicks), a), after, now, maxAttempts,
        leaseTicks, k + 1)
    ensures Reported(s, fate, before, after, now, maxAttempts, leaseTicks, k)
  {
    hide FateOf, ListOf, With;
    var a := s.jobOrder[k];
    var one := if FateOf(s.jobs[a], now, maxAttempts, leaseTicks) == fate then [a] else [];
    var rest := OfFate(s, fate, now, maxAttempts, leaseTicks, k + 1);
    SameFates(s, t, fate, now, maxAttempts, leaseTicks, k + 1);
    WithListed(before, FateOf(s.jobs[a], now, maxAttempts, leaseTicks), a, fate);
    assert (ListOf(before, fate) + one) + rest == ListOf(before, fate) + (one + rest);
  }

  lemma OneRecovered(env: Env, s: Store, now: int, maxAttempts: int, leaseTicks: int, a: AttemptId,
                     report: RecoveryReport)
    requires a in s.jobs && a in s.attempts
    ensures var step := RecoverJob(env, s, now, maxAttempts, leaseTicks, a, report);
      var fate := FateOf(s.jobs[a], now, maxAttempts, leaseTicks);
      step.result.Ok? ==>
        && step.result.value == With(report, fate, a)
        && step.store == s.(
             jobs := s.jobs[a := RecoveredJob(s.jobs[a], now, maxAttempts, leaseTicks)],
             audit := Written(s.audit, now, RecoveryNote(s.jobs[a], s.attempts[a].changeRequest, a, fate)))
  {
    WrittenNothing(s.audit, now);
    assert s.jobs[a := s.jobs[a]] == s.jobs;
  }

  lemma {:induction false} RecoveredFrom(env: Env, s: Store, now: int, maxAttempts: int, leaseTicks: int, k: nat,
                                         report: RecoveryReport)
    requires Ordered(s.jobs, s.jobOrder) && forall a <- s.jobOrder :: a in s.attempts
    requires Recover(env, s, now, maxAttempts, leaseTicks, k, report).result.Ok?
    ensures var step := Recover(env, s, now, maxAttempts, leaseTicks, k, report);
      && step.store == s.(jobs := step.store.jobs,
           audit := Written(s.audit, now, RecoveryNotes(s, now, maxAttempts, leaseTicks, k)))
      && step.store.jobs.Keys == s.jobs.Keys
      && (forall i :: 0 <= i < |s.jobOrder| ==>
            step.store.jobs[s.jobOrder[i]] ==
              if k <= i then RecoveredJob(s.jobs[s.jobOrder[i]], now, maxAttempts, leaseTicks)
              else s.jobs[s.jobOrder[i]])
    decreases |s.jobOrder| - k
  {
    hide RecoverJob, FateOf, RecoveredJob, RecoveryNote, Written, With;
    if k >= |s.jobOrder| {
      WrittenNothing(s.audit, now);
    } else {
      var a := s.jobOrder[k];
      var one := RecoverJob(env, s, now, maxAttempts, leaseTicks, a, report);
      OneRecovered(env, s, now, maxAttempts, leaseTicks, a, report);
      RecoveredFrom(env, one.store, now, maxAttempts, leaseTicks, k + 1, one.result.value);
      SameRecoveryNotes(s, one.store, now, maxAttempts, leaseTicks, k + 1);
      WrittenMore(s.audit, now, RecoveryNote(s.jobs[a], s.attempts[a].changeRequest, a,
        FateOf(s.jobs[a], now, maxAttempts, leaseTicks)), RecoveryNotes(s, now, maxAttempts, leaseTicks, k + 1));
    }
  }

  lemma {:induction false} ReportedFrom(env: Env, s: Store, fate: Fate, now: int, maxAttempts: int, leaseTicks: int,
                                        k: nat, report: RecoveryReport)
    requires !fate.Untouched? && Ordered(s.jobs, s.jobOrder) && forall a <- s.jobOrder :: a in s.attempts
    requires Recover(env, s, now, maxAttempts, leaseTicks, k, report).result.Ok?
    ensures Reported(s, fate, report, Recover(env, s, now, maxAttempts, leaseTicks, k, report).result.value, now,
              maxAttempts, leaseTicks, k)
    decreases |s.jobOrder| - k
  {
    hide RecoverJob, FateOf, RecoveredJob, RecoveryNote, Written, With, ListOf;
    if k < |s.jobOrder| {
      var a := s.jobOrder[k];
      var one := RecoverJob(env, s, now, maxAttempts, leaseTicks, a, report);
      OneRecovered(env, s, now, maxAttempts, leaseTicks, a, report);
      ReportedFrom(env, one.store, fate, now, maxAttempts, leaseTicks, k + 1, one.result.value);
      ReportedMore(s, one.store, fate, report, Recover(env, s, now, maxAttempts, leaseTicks, k, report).result.value,
        now, maxAttempts, leaseTicks, k);
    }
  }

  /**
   * What a pass that nothing cuts short does, case by case: a retryable job below the limit waits
   * again, with the same retries; at the limit it fails. A running job whose lease is over has been
   * retried once more, and waits again or fails by the same limit. No other job changes.
   */
  ghost predicate Recovered(j: Job, k: Job, now: int, maxAttempts: int, leaseTicks: int) {
    && (j.status.Retryable? && j.retries < maxAttempts ==> k == Job(JobStatus.Queued, j.retries, now, j.lastError))
    && (j.status.Retryable? && j.retries >= maxAttempts ==> k == Job(JobStatus.Failed, j.retries, now, j.lastError))
    && (j.status.Running? && now - j.updatedAt > leaseTicks && j.retries + 1 < maxAttempts ==>
          k == Job(JobStatus.Queued, j.retries + 1, now, j.lastError))
    && (j.status.Running? && now - j.updatedAt > leaseTicks && j.retries + 1 >= maxAttempts ==>
          k == Job(JobStatus.Failed, j.retries + 1, now, j.lastError))
    && (!j.status.Retryable? && !(j.status.Running? && now - j.updatedAt > leaseTicks) ==> k == j)
  }

  lemma {:induction false} OfFateKept(s: Store, fate: Fate, now: int, maxAttempts: int, leaseTicks: int, k: nat,
                                      condition: AttemptId -> bool)
    requires k <= |s.jobOrder| && forall a <- s.jobOrder :: a in s.jobs
    requires forall a :: a in s.jobs ==> (condition(a) <==> FateOf(s.jobs[a], now, maxAttempts, leaseTicks) == fate)
    ensures OfFate(s, fate, now, maxAttempts, leaseTicks, k) == Kept(s.jobOrder[k..], condition)
    decreases |s.jobOrder| - k
  {
    hide FateOf;
    if k < |s.jobOrder| {
      OfFateKept(s, fate, now, maxAttempts, leaseTicks, k + 1, condition);
      assert s.jobOrder[k..][1..] == s.jobOrder[k + 1..];
    }
  }

  /** Waiting again, because it was retryable and below the limit. */
  predicate Requeues(s: Store, a: AttemptId, maxAttempts: int) {
    a in s.jobs && s.jobs[a].status.Retryable? && s.jobs[a].retries < maxAttempts
  }

  predicate LeaseOver(s: Store, a: AttemptId, now: int, leaseTicks: int) {
    a in s.jobs && s.jobs[a].status.Running? && now - s.jobs[a].updatedAt > leaseTicks
  }

  /** A job at the attempt limit that was retryable, or whose lost lease was the last try. */
  predicate GivesUp(s: Store, a: AttemptId, now: int, maxAttempts: int, leaseTicks: int) {
    a in s.jobs &&
    if s.jobs[a].status.Retryable? then s.jobs[a].retries >= maxAttempts
    else LeaseOver(s, a, now, leaseTicks) && s.jobs[a].retries + 1 >= maxAttempts
  }

  predicate Resumes(s: Store, a: AttemptId, now: int, maxAttempts: int, leaseTicks: int) {
    LeaseOver(s, a, now, leaseTicks) && s.jobs[a].retries + 1 < maxAttempts
  }

  /** What a pass that nothing cuts short does to every job, to the audit trail and to nothing else. */
  lemma RecoveryExactly(env: Env, s: Store, now: int, maxAttempts: int, leaseTicks: int)
    requires s.Valid()
    requires Recover(env, s, now, maxAttempts, leaseTicks, 0, NothingRecovered).result.Ok?
    ensures var t := Recover(env, s, now, maxAttempts, leaseTicks, 0, NothingRecovered).store;
      && t == s.(jobs := t.jobs, audit := Written(s.audit, now, RecoveryNotes(s, now, maxAttempts, leaseTicks, 0)))
      && t.jobs.Keys == s.jobs.Keys
      && forall a :: a in s.jobs ==> Recovered(s.jobs[a], t.jobs[a], now, maxAttempts, leaseTicks)
  {
    hide Recover, Written, RecoveryNotes;
    RecoveredFrom(env, s, now, maxAttempts, leaseTicks, 0, NothingRecovered);
    var t := Recover(env, s, now, maxAttempts, leaseTicks, 0, NothingRecovered).store;
    forall a | a in s.jobs ensures Recovered(s.jobs[a], t.jobs[a], now, maxAttempts, leaseTicks) {
      assert a in s.jobOrder;
      var i :| 0 <= i < |s.jobOrder| && s.jobOrder[i] == a;
      assert t.jobs[s.jobOrder[i]] == RecoveredJob(s.jobs[s.jobOrder[i]], now, maxAttempts, leaseTicks);
    }
  }

  /** The report names exactly the jobs that wait again, that lost their lease, and that failed, in dictionary order. */
  lemma ReportExactly(env: Env, s: Store, now: int, maxAttempts: int, leaseTicks: int)
    requires s.Valid()
    requires Recover(env, s, now, maxAttempts, leaseTicks, 0, NothingRecovered).result.Ok?
    ensures var report := Recover(env, s, now, maxAttempts, leaseTicks, 0, NothingRecovered).result.value;
      && report.requeued == Kept(s.jobOrder, a => Requeues(s, a, maxAttempts))
      && report.leaseRecovered == Kept(s.jobOrder, a => Resumes(s, a, now, maxAttempts, leaseTicks))
      && report.exhausted == Kept(s.jobOrder, a => GivesUp(s, a, now, maxAttempts, leaseTicks))
  {
    hide Recover, OfFate, Requeues, Resumes, GivesUp, FateOf;
    FatesNamed(s, now, maxAttempts, leaseTicks);
    ReportedFrom(env, s, Requeued, now, maxAttempts, leaseTicks, 0, NothingRecovered);
    ReportedFrom(env, s, LeaseRecovered, now, maxAttempts, leaseTicks, 0, NothingRecovered);
    ReportedFrom(env, s, Exhausted, now, maxAttempts, leaseTicks, 0, NothingRecovered);
    OfFateKept(s, Requeued, now, maxAttempts, leaseTicks, 0, a => Requeues(s, a, maxAttempts));
    OfFateKept(s, LeaseRecovered, now, maxAttempts, leaseTicks, 0, a => Resumes(s, a, now, maxAttempts, leaseTicks));
    OfFateKept(s, Exhausted, now, maxAttempts, leaseTicks, 0, a => GivesUp(s, a, now, maxAttempts, leaseTicks));
    assert s.jobOrder[0..] == s.jobOrder;
  }

  lemma FatesNamed(s: Store, now: int, maxAttempts: int, leaseTicks: int)
    ensures forall a :: a in s.jobs ==>
              (Requeues(s, a, maxAttempts) <==> FateOf(s.jobs[a], now, maxAttempts, leaseTicks) == Requeued)
    ensures forall a :: a in s.jobs ==>
              (Resumes(s, a, now, maxAttempts, leaseTicks) <==>
                FateOf(s.jobs[a], now, maxAttempts, leaseTicks) == LeaseRecovered)
    ensures forall a :: a in s.jobs ==>
              (GivesUp(s, a, now, maxAttempts, leaseTicks) <==>
                FateOf(s.jobs[a], now, maxAttempts, leaseTicks) == Exhausted)
  {
  }

  /** The first 1024 characters of the text, or all of it. */
  ghost predicate Shortened(text: string, short: string) {
    short <= text && |short| == if |text| > 1024 then 1024 else |text|
  }

  /** A retry moves the running job to Retryable with one more retry and the scrubbed error, and logs that. */
  lemma RetryExactly(env: Env, s: Store, now: int, a: AttemptId, error: string)
    requires s.Valid() && MarkRetryable(env, s, now, a, error).result.Ok?
    ensures var t := MarkRetryable(env, s, now, a, error).store;
      if a in s.jobs && s.jobs[a].status.Running? then
        && a in t.jobs && t.jobs[a].lastError.Some? && Shortened(env.scrub(error), t.jobs[a].lastError.value)
        && t == s.(
             jobs := s.jobs[a := Job(JobStatus.Retryable, s.jobs[a].retries + 1, now, t.jobs[a].lastError)],
             audit := Written(s.audit, now, [Note("job_retryable", s.attempts[a].changeRequest, Some(a),
               Actor(None, None), RetryError(s.jobs[a].retries + 1, t.jobs[a].lastError.value))]))
      else t == s
  {
  }

  /** Ending a job sets the given status and the scrubbed reason unless it has already ended, and logs that. */
  lemma FinalizeExactly(env: Env, s: Store, now: int, a: AttemptId, status: JobStatus, reason: string)
    requires s.Valid() && !Finalize(env, s, now, a, status, reason).Unsafe()
    ensures var step := Finalize(env, s, now, a, status, reason);
      var t := step.store;
      if status != JobStatus.Completed && status != JobStatus.Failed then
        step == Step(s, Raised(StateConflict(NotTerminal)))
      else if a in s.jobs && (s.jobs[a].status.Queued? || s.jobs[a].status.Running? || s.jobs[a].status.Retryable?) then
        && step.result.Ok?
        && a in t.jobs && t.jobs[a].lastError.Some? && Shortened(env.scrub(reason), t.jobs[a].lastError.value)
        && t == s.(
             jobs := s.jobs[a := Job(status, s.jobs[a].retries, now, t.jobs[a].lastError)],
             audit := Written(s.audit, now, [Note("job_finalized", s.attempts[a].changeRequest, Some(a),
               Actor(None, None), Finalized(status, t.jobs[a].lastError.value))]))
      else step.result.Ok? && t == s
  {
  }
}
