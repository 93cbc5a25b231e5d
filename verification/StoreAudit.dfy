/** The audit trail is append-only, so its pages can be read while the store keeps working. */
module StoreAudit {
  import opened Prelude
  import opened Identity
  import opened Store
  import opened StoreInvariants
  import opened StoreSteps
  import opened StoreValid
  import opened StoreCommands
  import opened StoreRuns
  import opened AuditPaging

  /** The trail only grew, and its numbering goes on. */
  ghost predicate Extends(s: seq<AuditEvent>, t: seq<AuditEvent>) {
    s <= t && (Numbered(s) ==> Numbered(t))
  }

  lemma {:induction false} ExpireExtends(env: Env, s: Store, now: int, l: Locator, reason: string, k: nat)
    requires forall key <- s.bypassOrder :: key in s.bypasses
    ensures Extends(s.audit, ExpireBypasses(env, s, now, l, reason, k).store.audit)
    decreases |s.bypassOrder| - k
  {
    if k < |s.bypassOrder| {
      var key := s.bypassOrder[k];
      var b := s.bypasses[key];
      if b.changeRequest != l || !b.active {
        ExpireExtends(env, s, now, l, reason, k + 1);
      } else {
        var expired := s.(bypasses := s.bypasses[key := ExpireBypass(b, now, reason)]);
        var payload := BypassExpired(b.fingerprint, reason);
        if env.Accepts(payload) {
          ExpireExtends(env,
            expired.Log(now, "bypass_invalidated", l, Some(b.attempt), Actor(b.actorId, Some(b.actorLogin)), payload),
            now, l, reason, k + 1);
        }
      }
    }
  }

  lemma RecoverJobExtends(env: Env, s: Store, now: int, maxAttempts: int, leaseTicks: int, a: AttemptId,
                          report: RecoveryReport)
    requires a in s.jobs && a in s.attempts
    ensures Extends(s.audit, RecoverJob(env, s, now, maxAttempts, leaseTicks, a, report).store.audit)
  {
    hide Stale;
  }

  lemma {:induction false} RecoverExtends(env: Env, s: Store, now: int, maxAttempts: int, leaseTicks: int, k: nat,
                                          report: RecoveryReport)
    requires forall a <- s.jobOrder :: a in s.jobs && a in s.attempts
    ensures Extends(s.audit, Recover(env, s, now, maxAttempts, leaseTicks, k, report).store.audit)
    decreases |s.jobOrder| - k
  {
    if k < |s.jobOrder| {
      var a := s.jobOrder[k];
      var one := RecoverJob(env, s, now, maxAttempts, leaseTicks, a, report);
      RecoverJobKeys(env, s, now, maxAttempts, leaseTicks, a, report);
      RecoverJobExtends(env, s, now, maxAttempts, leaseTicks, a, report);
      hide RecoverJob;
      if one.result.Ok? {
        RecoverExtends(env, one.store, now, maxAttempts, leaseTicks, k + 1, one.result.value);
      }
    }
  }

  lemma StartExtends(env: Env, s: Store, c: Command)
    requires s.Valid() && c.DoStart?
    ensures Extends(s.audit, Start(env, s, c.now, c.newId, c.l, c.key, c.expected, c.delivery).store.audit)
  {
    if c.l in s.changeRequests {
      assert Designated(s.changeRequests, s.attempts, c.l);
      ExpireExtends(env, Demote(s, s.changeRequests[c.l].authoritative), c.now, c.l, SupersededReason, 0);
    }
  }

  lemma ClaimExtends(env: Env, s: Store, c: Command)
    requires s.Valid() && c.DoClaim?
    ensures Extends(s.audit, Claim(env, s, c.now, c.a).store.audit)
  {
    ClaimCases(env, s, c.now, c.a);
  }

  lemma BypassExtends(env: Env, s: Store, c: Command)
    requires s.Valid() && c.DoBypass?
    ensures Extends(s.audit, ApplyBypass(env, s, c.now, c.request).store.audit)
  {
    hide ApplyBypass, SettleGate;
    BypassCases(env, s, c.now, c.request);
    if Grantable(s, c.request) {
      var g := GrantedLog(s, c.now, c.request);
      GrantedValid(s, c.now, c.request);
      SettleExtends(g, c.now, c.request, GrantRecord(s, c.now, c.request));
    }
  }

  lemma SettleExtends(g: Store, now: int, r: BypassRequest, record: Bypass)
    requires r.changeRequest in g.changeRequests
    requires forall key <- g.bypassOrder :: key in g.bypasses
    ensures Extends(g.audit, SettleGate(g, now, r, record).store.audit)
  {
  }

  lemma PublishExtends(env: Env, s: Store, c: Command)
    requires s.Valid() && c.DoPublish?
    ensures Extends(s.audit, Publish(env, s, c.now, c.a, c.key, c.recorded, c.gate).store.audit)
  {
    PublishCases(env, s, c.now, c.a, c.key, c.recorded, c.gate);
  }

  lemma LoggedExtends(s: Store, t: Store, now: int, kind: string, l: Locator, a: Option<AttemptId>, payload: Payload)
    requires Extends(s.audit, t.audit)
    ensures Extends(s.audit, t.Log(now, kind, l, a, NoActor, payload).audit)
  {
  }

  lemma InvalidateExtends(env: Env, s: Store, c: Command)
    requires s.Valid() && c.DoInvalidate?
    ensures Extends(s.audit, Invalidate(env, s, c.now, c.l, c.text).store.audit)
  {
    hide ExpireBypasses;
    if c.l in s.changeRequests {
      var expired := ExpireBypasses(env, ClearStanding(s, c.l), c.now, c.l, c.text, 0);
      ExpireExtends(env, ClearStanding(s, c.l), c.now, c.l, c.text, 0);
      if expired.result.Ok? {
        var standing := s.changeRequests[c.l].standing;
        LoggedExtends(s, SupersedeFor(expired.store, c.now, standing), c.now, "standing_decision_invalidated", c.l,
          standing, DecisionInvalidated(c.text));
      }
    }
  }

  lemma JobExtends(env: Env, s: Store, now: int, a: AttemptId, status: JobStatus, text: string)
    requires s.Linked()
    ensures Extends(s.audit, MarkRetryable(env, s, now, a, text).store.audit)
    ensures Extends(s.audit, Finalize(env, s, now, a, status, text).store.audit)
  {
  }

  lemma OtherExtends(env: Env, s: Store, c: Command)
    requires s.Valid() && (c.DoRecordIdentity? || c.DoAppend? || c.DoClaimSync? || c.DoMarkSync?)
    ensures Extends(s.audit, Apply(env, s, c).store.audit)
  {
    hide Start, Claim, Recover, MarkRetryable, Finalize, Publish, Invalidate, ApplyBypass;
  }

  lemma PassExtends(env: Env, s: Store, c: Command)
    requires s.Valid() && c.DoRecover?
    ensures Extends(s.audit, Recover(env, s, c.now, c.maxAttempts, c.leaseTicks, 0, NothingRecovered).store.audit)
  {
    RecoverExtends(env, s, c.now, c.maxAttempts, c.leaseTicks, 0, NothingRecovered);
  }

  /** No step, not even one cut short, rewrites or drops an audit event. */
  lemma StepExtends(env: Env, s: Store, c: Command)
    requires s.Valid()
    ensures Extends(s.audit, Apply(env, s, c).store.audit)
  {
    hide Start, Claim, Recover, MarkRetryable, Finalize, Publish, Invalidate, ApplyBypass, Extends;
    if c.DoStart? { StartExtends(env, s, c); }
    else if c.DoClaim? { ClaimExtends(env, s, c); }
    else if c.DoRecover? { PassExtends(env, s, c); }
    else if c.DoPublish? { PublishExtends(env, s, c); }
    else if c.DoInvalidate? { InvalidateExtends(env, s, c); }
    else if c.DoBypass? { BypassExtends(env, s, c); }
    else if c.DoMarkRetryable? { JobExtends(env, s, c.now, c.a, JobStatus.Failed, c.text); }
    else if c.DoFinalize? { JobExtends(env, s, c.now, c.a, c.status, c.text); }
    else { OtherExtends(env, s, c); }
  }

  /** Over a run the trail is numbered 1, 2, 3, ... and what was recorded stays. */
  lemma {:induction false} RunExtends(env: Env, states: seq<Store>, cs: seq<Command>, i: nat, j: nat)
    requires IsRun(env, states, cs) && i <= j <= |cs|
    ensures Numbered(states[i].audit) && Extends(states[i].audit, states[j].audit)
    decreases i + j
  {
    hide Apply;
    if i < j {
      RunExtends(env, states, cs, i, j - 1);
      TookWhole(env, states, cs, j - 1);
      StepExtends(env, states[j - 1], cs[j - 1]);
    } else if i > 0 {
      RunExtends(env, states, cs, i - 1, i);
    }
  }

  /** The reads happen at these moments of the run, in this order. */
  ghost predicate ReadAt(states: seq<Store>, moments: seq<nat>, logs: seq<seq<AuditEvent>>) {
    && |moments| == |logs| > 0
    && (forall i {:trigger moments[i]} :: 0 <= i < |moments| ==>
          moments[0] <= moments[i] < |states| && logs[i] == states[moments[i]].audit)
  }

  /**
   * A client that follows the cursor while the store keeps working sees exactly the events the
   * filter admitted when it asked for the first page: newest first, none missing, none twice.
   */
  lemma PagesDuringRun(env: Env, states: seq<Store>, cs: seq<Command>, moments: seq<nat>, logs: seq<seq<AuditEvent>>,
                       limits: seq<int>, f: Filter, pages: seq<Page>)
    requires IsRun(env, states, cs) && ReadAt(states, moments, logs)
    requires |logs| == |limits| == |pages| && pages[|pages| - 1].nextCursor.None?
    requires forall i {:trigger Answers(logs, limits, f, pages, i)} :: 0 <= i < |pages| ==>
               Answers(logs, limits, f, pages, i)
    ensures Shown(pages, |pages|) == Newest(logs[0], |logs[0]|, f)
    ensures |pages| <= 1 || |pages| <= |Newest(logs[0], |logs[0]|, f)|
  {
    hide Apply;
    assert Grows(logs) by {
      forall i | 0 <= i < |logs|
        ensures Numbered(logs[i]) && logs[0] <= logs[i]
      {
        assert moments[0] <= moments[i];
        RunExtends(env, states, cs, moments[0], moments[i]);
      }
    }
    ReadingComplete(logs, limits, f, pages);
  }
}
