/** Job accounting over whole runs: claims, retries, stale-lease reclaims and terminal states. */
module StoreJobs {
  import opened Prelude
  import opened Identity
  import opened Store
  import opened StoreInvariants
  import opened StoreSteps
  import opened StoreValid
  import opened StoreOutbox
  import opened StoreLedger
  import opened StoreCommands
  import opened StoreRuns

  /** The step hands the job to a worker. */
  ghost predicate Claimed(env: Env, s: Store, c: Command, a: AttemptId)
    requires s.Valid()
  {
    c.DoClaim? && c.a == a && Claim(env, s, c.now, a).result.Ok? && Claim(env, s, c.now, a).result.value.Some?
  }

  /** The step is a claim that finds the job running on an expired lease. */
  ghost predicate Reclaimed(env: Env, s: Store, c: Command, a: AttemptId) {
    c.DoClaim? && c.a == a && a in s.jobs && s.jobs[a].status.Running? && Stale(s.jobs[a], c.now, env.leaseTicks)
  }

  /** Where a running job may go without a claim. */
  ghost predicate Runs(m: int, j: Job, k: Job) {
    match k.status
    case Running => k.retries == j.retries
    case Retryable => k.retries == j.retries + 1
    case Queued => k.retries == j.retries + 1 && k.retries < m
    case Failed => k.retries == j.retries || (k.retries == j.retries + 1 && k.retries >= m)
    case Completed => k.retries == j.retries
    case Superseded => false
  }

  /** How one step may change a job when recovery runs with the attempt limit m. */
  ghost predicate Moves(m: int, j: Job, k: Job, claimed: bool, reclaimed: bool) {
    match j.status
    case Queued =>
      && !reclaimed && k.retries == j.retries
      && (claimed <==> k.status.Running?)
      && (k.status.Queued? || k.status.Running? || k.status.Terminal())
    case Running =>
      if reclaimed then
        k.retries == j.retries + 1 && if claimed then k.status.Running? else k.status.Superseded?
      else
        !claimed && Runs(m, j, k)
    case Retryable =>
      && !claimed && !reclaimed && k.retries == j.retries
      && (k.status.Queued? ==> k.retries < m)
      && (k.status.Queued? || k.status.Retryable? || k.status.Completed? || k.status.Failed?)
    case _ =>
      !claimed && !reclaimed && k.status == j.status && k.retries == j.retries
  }

  predicate LimitedBy(c: Command, m: int) {
    c.DoRecover? ==> c.maxAttempts == m
  }

  // ---- one step ----------------------------------------------------------------------------------

  ghost predicate JobMoves(env: Env, s: Store, c: Command, t: Store, m: int, a: AttemptId)
    requires s.Valid()
  {
    && a in s.jobs && a in t.jobs
    && Moves(m, s.jobs[a], t.jobs[a], Claimed(env, s, c, a), Reclaimed(env, s, c, a))
  }

  /** Retiring an Attempt withdraws its job while it waits, and touches no other job. */
  lemma VacateJob(env: Env, s: Store, now: int, l: Locator, a: AttemptId)
    requires s.Valid() && a in s.jobs
    ensures var r := Vacate(env, s, now, l);
      && (r.result.Raised? ==> r.Unsafe())
      && a in r.store.jobs
      && (r.store.jobs[a] == s.jobs[a] ||
          (s.jobs[a].status.Queued? && r.store.jobs[a] == s.jobs[a].(status := JobStatus.Superseded)))
  {
    hide ExpireBypasses;
    if l in s.changeRequests {
      assert Designated(s.changeRequests, s.attempts, l);
      ExpireEffect(env, Demote(s, s.changeRequests[l].authoritative), now, l, SupersededReason);
    }
  }

  lemma StartMoves(env: Env, s: Store, c: Command, m: int, a: AttemptId)
    requires s.Valid() && c.DoStart? && Admissible(s, c) && a in s.jobs &&
             !Start(env, s, c.now, c.newId, c.l, c.key, c.expected, c.delivery).Unsafe()
    ensures JobMoves(env, s, c, Start(env, s, c.now, c.newId, c.l, c.key, c.expected, c.delivery).store, m, a)
  {
    hide Start, Vacate;
    StartCases(env, s, c.now, c.newId, c.l, c.key, c.expected, c.delivery);
    if Start(env, s, c.now, c.newId, c.l, c.key, c.expected, c.delivery).store != s {
      VacateJob(env, s, c.now, c.l, a);
    }
  }

  lemma ClaimMoves(env: Env, s: Store, c: Command, m: int, a: AttemptId)
    requires s.Valid() && c.DoClaim? && a in s.jobs
    ensures JobMoves(env, s, c, Claim(env, s, c.now, c.a).store, m, a)
  {
    ClaimCases(env, s, c.now, c.a);
  }

  lemma RecoverJobMoves(env: Env, s: Store, now: int, m: int, leaseTicks: int, b: AttemptId, report: RecoveryReport)
    requires b in s.jobs && b in s.attempts
    ensures var t := RecoverJob(env, s, now, m, leaseTicks, b, report).store;
      && t.jobs == s.jobs[b := t.jobs[b]] && t.jobOrder == s.jobOrder && t.attempts == s.attempts
      && Moves(m, s.jobs[b], t.jobs[b], false, false)
  {
  }

  /** One recovery pass moves each job at most once. */
  lemma {:induction false} RecoverMoves(env: Env, s: Store, now: int, m: int, leaseTicks: int, k: nat,
                                        report: RecoveryReport, p: nat)
    requires p < |s.jobOrder|
    requires forall i :: 0 <= i < |s.jobOrder| ==> s.jobOrder[i] in s.jobs && s.jobOrder[i] in s.attempts
    requires forall i :: 0 <= i < |s.jobOrder| && i != p ==> s.jobOrder[i] != s.jobOrder[p]
    ensures var t := Recover(env, s, now, m, leaseTicks, k, report).store;
      var a := s.jobOrder[p];
      && a in t.jobs
      && Moves(m, s.jobs[a], t.jobs[a], false, false)
      && (p < k ==> t.jobs[a] == s.jobs[a])
    decreases |s.jobOrder| - k
  {
    if k < |s.jobOrder| {
      var b := s.jobOrder[k];
      var one := RecoverJob(env, s, now, m, leaseTicks, b, report);
      RecoverJobMoves(env, s, now, m, leaseTicks, b, report);
      if one.result.Ok? {
        RecoverMoves(env, one.store, now, m, leaseTicks, k + 1, one.result.value, p);
        assert Recover(env, s, now, m, leaseTicks, k, report) ==
               Recover(env, one.store, now, m, leaseTicks, k + 1, one.result.value);
      }
    }
  }

  lemma PassMoves(env: Env, s: Store, c: Command, m: int, a: AttemptId)
    requires s.Valid() && c.DoRecover? && LimitedBy(c, m) && a in s.jobs
    ensures JobMoves(env, s, c, Recover(env, s, c.now, c.maxAttempts, c.leaseTicks, 0, NothingRecovered).store, m, a)
  {
    assert a in s.jobOrder;
    var p :| 0 <= p < |s.jobOrder| && s.jobOrder[p] == a;
    RecoverMoves(env, s, c.now, m, c.leaseTicks, 0, NothingRecovered, p);
  }

  lemma Still(env: Env, s: Store, c: Command, t: Store, m: int, a: AttemptId)
    requires s.Valid() && a in s.jobs && !c.DoClaim? && t.jobs == s.jobs
    ensures JobMoves(env, s, c, t, m, a)
  {
  }

  lemma MarkRetryableMoves(env: Env, s: Store, c: Command, m: int, a: AttemptId)
    requires s.Valid() && c.DoMarkRetryable? && a in s.jobs
    ensures JobMoves(env, s, c, MarkRetryable(env, s, c.now, c.a, c.text).store, m, a)
  {
  }

  lemma FinalizeMoves(env: Env, s: Store, c: Command, m: int, a: AttemptId)
    requires s.Valid() && c.DoFinalize? && a in s.jobs
    ensures JobMoves(env, s, c, Finalize(env, s, c.now, c.a, c.status, c.text).store, m, a)
  {
  }

  lemma QuietMoves(env: Env, s: Store, c: Command, m: int, a: AttemptId)
    requires s.Valid() && Quiet(c) && LimitedBy(c, m) && a in s.jobs
    ensures JobMoves(env, s, c, Apply(env, s, c).store, m, a)
  {
    hide Start, Claim, Recover, MarkRetryable, Finalize, Publish, Invalidate, ApplyBypass, JobMoves;
    match c
    case DoRecordIdentity(_, _) => Still(env, s, c, Apply(env, s, c).store, m, a);
    case DoClaim(_, _) => ClaimMoves(env, s, c, m, a);
    case DoMarkRetryable(_, _, _) => MarkRetryableMoves(env, s, c, m, a);
    case DoRecover(_, _, _) => PassMoves(env, s, c, m, a);
    case DoFinalize(_, _, _, _) => FinalizeMoves(env, s, c, m, a);
    case DoAppend(_, _, _, _, _, _) => Still(env, s, c, Apply(env, s, c).store, m, a);
  }

  lemma PublishMoves(env: Env, s: Store, c: Command, m: int, a: AttemptId)
    requires s.Valid() && c.DoPublish? && a in s.jobs
    ensures JobMoves(env, s, c, Publish(env, s, c.now, c.a, c.key, c.recorded, c.gate).store, m, a)
  {
    hide Publish, PublicationInputsMatch;
    PublishCases(env, s, c.now, c.a, c.key, c.recorded, c.gate);
  }

  lemma InvalidateMoves(env: Env, s: Store, c: Command, m: int, a: AttemptId)
    requires s.Valid() && a in s.jobs && c.DoInvalidate?
    ensures JobMoves(env, s, c, Invalidate(env, s, c.now, c.l, c.text).store, m, a)
  {
    hide ExpireBypasses;
    if c.l in s.changeRequests { ExpireEffect(env, ClearStanding(s, c.l), c.now, c.l, c.text); }
    Still(env, s, c, Invalidate(env, s, c.now, c.l, c.text).store, m, a);
  }

  lemma BypassJobs(env: Env, s: Store, c: Command)
    requires s.Valid() && c.DoBypass?
    ensures ApplyBypass(env, s, c.now, c.request).store.jobs == s.jobs
  {
    hide ApplyBypass;
    BypassCases(env, s, c.now, c.request);
  }

  lemma BypassMoves(env: Env, s: Store, c: Command, m: int, a: AttemptId)
    requires s.Valid() && a in s.jobs && c.DoBypass?
    ensures JobMoves(env, s, c, ApplyBypass(env, s, c.now, c.request).store, m, a)
  {
    BypassJobs(env, s, c);
    hide ApplyBypass;
    Still(env, s, c, ApplyBypass(env, s, c.now, c.request).store, m, a);
  }

  lemma StepMoves(env: Env, s: Store, c: Command, m: int, a: AttemptId)
    requires s.Valid() && Admissible(s, c) && !Apply(env, s, c).cutShort && LimitedBy(c, m) && a in s.jobs
    ensures JobMoves(env, s, c, Apply(env, s, c).store, m, a)
  {
    hide Start, Claim, Recover, MarkRetryable, Finalize, Publish, Invalidate, ApplyBypass, JobMoves;
    if Quiet(c) { QuietMoves(env, s, c, m, a); }
    else if c.DoStart? { StartMoves(env, s, c, m, a); }
    else if c.DoPublish? { PublishMoves(env, s, c, m, a); }
    else if c.DoInvalidate? { InvalidateMoves(env, s, c, m, a); }
    else if c.DoBypass? { BypassMoves(env, s, c, m, a); }
    else { Still(env, s, c, Apply(env, s, c).store, m, a); }
  }

  lemma NewJobStarted(env: Env, s: Store, c: Command, a: AttemptId)
    requires s.Valid() && c.DoStart? && Admissible(s, c)
    requires !Start(env, s, c.now, c.newId, c.l, c.key, c.expected, c.delivery).Unsafe()
    ensures var t := Start(env, s, c.now, c.newId, c.l, c.key, c.expected, c.delivery).store;
      a !in s.jobs && a in t.jobs ==> t.jobs[a].status.Queued? && t.jobs[a].retries == 0
  {
    hide Start, Vacate;
    StartCases(env, s, c.now, c.newId, c.l, c.key, c.expected, c.delivery);
    VacateResult(env, s, c.now, c.l);
    VacateKeys(env, s, c.now, c.l);
  }

  /** A job appears only when its Attempt is started, waiting and never retried. */
  lemma NewJob(env: Env, s: Store, c: Command, a: AttemptId)
    requires s.Valid() && Admissible(s, c) && !Apply(env, s, c).cutShort
    requires a !in s.jobs && a in Apply(env, s, c).store.jobs
    ensures Apply(env, s, c).store.jobs[a].status.Queued? && Apply(env, s, c).store.jobs[a].retries == 0
  {
    hide Start, Claim, Recover, MarkRetryable, Finalize, Publish, Invalidate, ApplyBypass, SettleGate;
    if c.DoStart? {
      NewJobStarted(env, s, c, a);
    } else if Quiet(c) {
      QuietStep(env, s, c);
    } else {
      NoNewJob(env, s, c);
    }
  }

  lemma NoNewJob(env: Env, s: Store, c: Command)
    requires s.Valid() && !c.DoStart? && !Quiet(c)
    ensures Apply(env, s, c).store.jobs.Keys == s.jobs.Keys
  {
    hide Publish, Invalidate, ApplyBypass, SettleGate;
    if c.DoPublish? {
      PublishKeys(env, s, c.now, c.a, c.key, c.recorded, c.gate);
    } else if c.DoInvalidate? {
      InvalidateKeys(env, s, c.now, c.l, c.text);
    } else if c.DoBypass? {
      BypassJobs(env, s, c);
    }
  }

  // ---- whole runs ----------------------------------------------------------------------------------

  ghost function Claims(env: Env, states: seq<Store>, cs: seq<Command>, a: AttemptId, n: nat): nat
    requires IsRun(env, states, cs) && n <= |cs|
  {
    if n == 0 then 0
    else
      assert Took(env, states, cs, n - 1);
      Claims(env, states, cs, a, n - 1) + if Claimed(env, states[n - 1], cs[n - 1], a) then 1 else 0
  }

  ghost function Reclaims(env: Env, states: seq<Store>, cs: seq<Command>, a: AttemptId, n: nat): nat
    requires IsRun(env, states, cs) && n <= |cs|
  {
    if n == 0 then 0
    else
      assert Took(env, states, cs, n - 1);
      Reclaims(env, states, cs, a, n - 1) + if Reclaimed(env, states[n - 1], cs[n - 1], a) then 1 else 0
  }

  /** What the job's record says about how often it was claimed and reclaimed. */
  ghost predicate Accounted(m: int, job: Job, claims: nat, reclaims: nat) {
    match job.status
    case Queued => claims == job.retries <= m - 1 + reclaims
    case Running => claims == job.retries + 1 <= m + reclaims
    case Retryable => claims == job.retries <= m + reclaims
    case _ => job.retries <= claims <= job.retries + 1 && claims <= m + reclaims
  }

  lemma MovesAccounted(m: int, j: Job, k: Job, claimed: bool, reclaimed: bool, claims: nat, reclaims: nat)
    requires Moves(m, j, k, claimed, reclaimed) && Accounted(m, j, claims, reclaims)
    ensures Accounted(m, k, claims + if claimed then 1 else 0, reclaims + if reclaimed then 1 else 0)
  {
  }

  lemma UnknownNotClaimed(env: Env, s: Store, c: Command, a: AttemptId)
    requires s.Valid() && a !in s.jobs
    ensures !Claimed(env, s, c, a) && !Reclaimed(env, s, c, a)
  {
  }

  /**
   * In every run whose recoveries use one attempt limit, successful claims minus retries is 1 while
   * the job runs and 0 while it waits, and claims exceed the limit by no more than the number of
   * stale leases reclaimed by claims.
   */
  lemma {:induction false} ClaimsAccounted(env: Env, states: seq<Store>, cs: seq<Command>, m: int, a: AttemptId, n: nat)
    requires IsRun(env, states, cs) && n <= |cs| && m >= 1
    requires forall i :: 0 <= i < |cs| ==> LimitedBy(cs[i], m)
    ensures a in states[n].jobs ==>
              Accounted(m, states[n].jobs[a], Claims(env, states, cs, a, n), Reclaims(env, states, cs, a, n))
    ensures a !in states[n].jobs ==> Claims(env, states, cs, a, n) == 0 && Reclaims(env, states, cs, a, n) == 0
  {
    hide Apply, Claimed, Reclaimed, Moves;
    if n > 0 {
      ClaimsAccounted(env, states, cs, m, a, n - 1);
      TookWhole(env, states, cs, n - 1);
      var s, c := states[n - 1], cs[n - 1];
      if a in s.jobs {
        StepMoves(env, s, c, m, a);
        MovesAccounted(m, s.jobs[a], states[n].jobs[a], Claimed(env, s, c, a), Reclaimed(env, s, c, a),
          Claims(env, states, cs, a, n - 1), Reclaims(env, states, cs, a, n - 1));
      } else {
        UnknownNotClaimed(env, s, c, a);
        if a in states[n].jobs { NewJob(env, s, c, a); }
      }
    }
  }

  /** Claims follow the retry count, whatever attempt limits recovery runs with. */
  ghost predicate Tallied(job: Job, claims: nat) {
    match job.status
    case Queued => claims == job.retries
    case Running => claims == job.retries + 1
    case Retryable => claims == job.retries
    case _ => job.retries <= claims <= job.retries + 1
  }

  lemma MovesTallied(m: int, j: Job, k: Job, claimed: bool, reclaimed: bool, claims: nat)
    requires Moves(m, j, k, claimed, reclaimed) && Tallied(j, claims)
    ensures Tallied(k, claims + if claimed then 1 else 0)
  {
  }

  lemma {:induction false} ClaimsTallied(env: Env, states: seq<Store>, cs: seq<Command>, a: AttemptId, n: nat)
    requires IsRun(env, states, cs) && n <= |cs|
    ensures if a in states[n].jobs then Tallied(states[n].jobs[a], Claims(env, states, cs, a, n))
            else Claims(env, states, cs, a, n) == 0
  {
    hide Apply, Claimed, Reclaimed, Moves;
    if n > 0 {
      ClaimsTallied(env, states, cs, a, n - 1);
      TookWhole(env, states, cs, n - 1);
      var s, c := states[n - 1], cs[n - 1];
      if a in s.jobs {
        var m := if c.DoRecover? then c.maxAttempts else 0;
        StepMoves(env, s, c, m, a);
        MovesTallied(m, s.jobs[a], states[n].jobs[a], Claimed(env, s, c, a), Reclaimed(env, s, c, a),
          Claims(env, states, cs, a, n - 1));
      } else {
        UnknownNotClaimed(env, s, c, a);
        if a in states[n].jobs { NewJob(env, s, c, a); }
      }
    }
  }

  lemma ClaimedJob(env: Env, s: Store, c: Command, a: AttemptId)
    requires s.Valid() && Claimed(env, s, c, a)
    ensures a in s.jobs
    ensures s.jobs[a].status == if Reclaimed(env, s, c, a) then JobStatus.Running else JobStatus.Queued
  {
    ClaimCases(env, s, c.now, a);
  }

  /**
   * A claim takes the number of a job's claims over a limit exactly when the job was retried that
   * often before: as often as the limit says, or once less if the claim itself counts one more
   * retry because it reclaims a stale lease.
   */
  lemma ClaimExceedsLimit(env: Env, states: seq<Store>, cs: seq<Command>, a: AttemptId, n: nat, limit: nat)
    requires IsRun(env, states, cs) && n < |cs|
    requires states[n].Valid() && Claimed(env, states[n], cs[n], a)
    ensures a in states[n].jobs
    ensures Claims(env, states, cs, a, n + 1) > limit <==>
              states[n].jobs[a].retries >= if Reclaimed(env, states[n], cs[n], a) then limit - 1 else limit
  {
    hide Apply, Claimed, Reclaimed;
    ClaimsTallied(env, states, cs, a, n);
    ClaimedJob(env, states[n], cs[n], a);
  }

  /** A terminal job keeps its status and its retry count for the rest of the run. */
  lemma {:induction false} TerminalForGood(env: Env, states: seq<Store>, cs: seq<Command>, a: AttemptId, i: nat, n: nat)
    requires IsRun(env, states, cs) && i <= n <= |cs|
    requires a in states[i].jobs && states[i].jobs[a].status.Terminal()
    ensures a in states[n].jobs
    ensures states[n].jobs[a].status == states[i].jobs[a].status &&
            states[n].jobs[a].retries == states[i].jobs[a].retries
    decreases n
  {
    hide Apply, Claimed, Reclaimed;
    if i < n {
      TerminalForGood(env, states, cs, a, i, n - 1);
      TookWhole(env, states, cs, n - 1);
      var c := cs[n - 1];
      StepMoves(env, states[n - 1], c, if c.DoRecover? then c.maxAttempts else 0, a);
    }
  }

  // ---- progress --------------------------------------------------------------------------------------

  /** An upper bound on how many times a job that is never reclaimed can still change. */
  function Budget(m: int, job: Job): int {
    match job.status
    case Queued => 3 * (m - job.retries) + 2
    case Running => 3 * (m - job.retries) + 1
    case Retryable => 3 * (m - job.retries) + 3
    case _ => 0
  }

  predicate Changed(j: Job, k: Job) {
    j.status != k.status || j.retries != k.retries
  }

  lemma MovesSpend(m: int, j: Job, k: Job, claimed: bool)
    requires Moves(m, j, k, claimed, false) &&
             Accounted(m, j, if j.status.Running? then j.retries + 1 else j.retries, 0)
    ensures 0 <= Budget(m, k)
    ensures Changed(j, k) ==> Budget(m, k) < Budget(m, j)
    ensures !Changed(j, k) ==> Budget(m, k) == Budget(m, j)
  {
  }

  ghost function Changes(states: seq<Store>, a: AttemptId, n: nat): nat
    requires n < |states|
  {
    if n == 0 then 0
    else
      var s, t := states[n - 1], states[n];
      Changes(states, a, n - 1) + if a in s.jobs && a in t.jobs && Changed(s.jobs[a], t.jobs[a]) then 1 else 0
  }

  /** One step of a job that was never reclaimed spends its budget or leaves the job alone. */
  lemma StepSpends(env: Env, states: seq<Store>, cs: seq<Command>, m: int, a: AttemptId, n: nat)
    requires IsRun(env, states, cs) && 0 < n <= |cs| && m >= 1
    requires forall i :: 0 <= i < |cs| ==> LimitedBy(cs[i], m)
    requires Reclaims(env, states, cs, a, n) == 0 && a in states[n - 1].jobs
    requires 0 <= Budget(m, states[n - 1].jobs[a])
    ensures a in states[n].jobs
    ensures var j, k := states[n - 1].jobs[a], states[n].jobs[a];
      0 <= Budget(m, k) && Budget(m, k) + (if Changed(j, k) then 1 else 0) <= Budget(m, j)
  {
    hide Apply, Claimed, Reclaimed, Moves;
    var s, c := states[n - 1], cs[n - 1];
    TookWhole(env, states, cs, n - 1);
    StepMoves(env, s, c, m, a);
    ClaimsAccounted(env, states, cs, m, a, n - 1);
    if s.jobs[a].status.Terminal() {
      TerminalForGood(env, states, cs, a, n - 1, n);
    } else {
      MovesSpend(m, s.jobs[a], states[n].jobs[a], Claimed(env, s, c, a));
    }
  }

  /** Without reclaims a job changes at most 3m + 2 times, however long the run is. */
  lemma {:induction false} JobsSettle(env: Env, states: seq<Store>, cs: seq<Command>, m: int, a: AttemptId, n: nat)
    requires IsRun(env, states, cs) && n <= |cs| && m >= 1
    requires forall i :: 0 <= i < |cs| ==> LimitedBy(cs[i], m)
    requires Reclaims(env, states, cs, a, n) == 0
    ensures a !in states[n].jobs ==> Changes(states, a, n) == 0
    ensures a in states[n].jobs ==>
              0 <= Budget(m, states[n].jobs[a]) && Changes(states, a, n) + Budget(m, states[n].jobs[a]) <= 3 * m + 2
  {
    hide Apply, Claimed, Reclaimed, Changed;
    if n > 0 {
      JobsSettle(env, states, cs, m, a, n - 1);
      TookWhole(env, states, cs, n - 1);
      if a in states[n - 1].jobs {
        StepSpends(env, states, cs, m, a, n);
      } else if a in states[n].jobs {
        NewJob(env, states[n - 1], cs[n - 1], a);
      }
    }
  }

  /**
   * The attempt limit alone does not bound claims: with the limit 1, a job whose lease expires is
   * claimed a second time.
   */
  lemma ReclaimsExceedLimit(a: AttemptId, l: Locator, key: RequestKey)
    returns (env: Env, states: seq<Store>, cs: seq<Command>)
    ensures IsRun(env, states, cs) && |cs| == 3
    ensures forall i :: 0 <= i < |cs| ==> LimitedBy(cs[i], 1)
    ensures Claims(env, states, cs, a, 3) == 2 && Reclaims(env, states, cs, a, 3) == 1
  {
    hide Apply, Claim, Claimed;
    env := Env(p => true, text => text, 0);
    cs := [DoStart(0, a, l, key, None, None), DoClaim(0, a), DoClaim(1, a)];
    var s1 := FirstStart(env, a, l, key);
    var s2 := ClaimedOnce(env, s1, a, 0);
    var s3 := ClaimedOnce(env, s2, a, 1);
    states := [Empty, s1, s2, s3];
    assert Took(env, states, cs, 0) && Took(env, states, cs, 1) && Took(env, states, cs, 2);
    CountClaims(env, states, cs, a);
  }

  /** A job that waits, or runs on an expired lease, goes to the claimer. */
  lemma ClaimedOnce(env: Env, s: Store, a: AttemptId, now: int) returns (t: Store)
    requires s.Valid() && a in s.attempts && s.attempts[a].changeRequest in s.changeRequests
    requires s.changeRequests[s.attempts[a].changeRequest].authoritative == a
    requires s.jobs[a].status.Queued? || (s.jobs[a].status.Running? && Stale(s.jobs[a], now, env.leaseTicks))
    ensures Apply(env, s, DoClaim(now, a)) == Effect(t, false)
    ensures t.Valid() && a in t.attempts && t.attempts[a].changeRequest in t.changeRequests
    ensures t.changeRequests[t.attempts[a].changeRequest].authoritative == a
    ensures t.jobs[a].status.Running? && t.jobs[a].updatedAt == now
    ensures Claimed(env, s, DoClaim(now, a), a)
    ensures Reclaimed(env, s, DoClaim(now, a), a) <==> s.jobs[a].status.Running?
  {
    t := Claim(env, s, now, a).store;
    ClaimCases(env, s, now, a);
    ClaimValid(env, s, now, a);
  }

  lemma CountClaims(env: Env, states: seq<Store>, cs: seq<Command>, a: AttemptId)
    requires IsRun(env, states, cs) && |cs| == 3
    requires !cs[0].DoClaim? && states[1].Valid() && states[2].Valid()
    requires Claimed(env, states[1], cs[1], a) && !Reclaimed(env, states[1], cs[1], a)
    requires Claimed(env, states[2], cs[2], a) && Reclaimed(env, states[2], cs[2], a)
    ensures Claims(env, states, cs, a, 3) == 2 && Reclaims(env, states, cs, a, 3) == 1
  {
    TookWhole(env, states, cs, 0);
    hide Claimed, Reclaimed, Apply;
    NoClaim(env, states[0], cs[0], a);
    assert Claims(env, states, cs, a, 1) == 0 && Reclaims(env, states, cs, a, 1) == 0;
    assert Claims(env, states, cs, a, 2) == 1 && Reclaims(env, states, cs, a, 2) == 0;
  }

  lemma NoClaim(env: Env, s: Store, c: Command, a: AttemptId)
    requires s.Valid() && !c.DoClaim?
    ensures !Claimed(env, s, c, a) && !Reclaimed(env, s, c, a)
  {
  }

  /** The store after its first Attempt was started. */
  lemma FirstStart(env: Env, a: AttemptId, l: Locator, key: RequestKey) returns (s: Store)
    requires env.Accepts(AuthorityGranted(None, None))
    ensures Apply(env, Empty, DoStart(0, a, l, key, None, None)) == Effect(s, false)
    ensures s.Valid() && a in s.attempts && s.attempts[a].changeRequest == l
    ensures s.jobs[a] == Job(JobStatus.Queued, 0, 0, None)
    ensures l in s.changeRequests && s.changeRequests[l].authoritative == a
  {
    s := Apply(env, Empty, DoStart(0, a, l, key, None, None)).store;
    StepValid(env, Empty, DoStart(0, a, l, key, None, None));
  }
}
