# Worktree Review: a verified model

Worktree Review reviews a merge candidate with a model provider, verifies what the provider claims
against immutable snapshots, and turns the result into a gate. A server keeps the standing decision
of each change request. This project models that program in Dafny and proves what it is for.

How the model follows the program:

- **The authoritative attempt store.** `Store.dfy` specifies every public operation of the
  in-memory store as one atomic step on a value. `StoreClass.dfy` is the store itself, a class whose
  dictionaries, audit list and id counters are updated in place; every method is proved to leave
  exactly the state and return exactly the result of its step. `StoreInvariants.dfy` to
  `StoreJobs.dfy` prove what steps and whole runs keep; `StoreNotes.dfy`, `StoreRecovery.dfy` and
  `StoreOutcomes.dfy` say from the state before alone what each operation answers, changes and logs; `StoreCommands.dfy` and `StoreRefusals.dfy`
  say when an operation is cut short and what that costs, `StoreScenarios.dfy` shows it on runs from
  the empty store; `StoreAudit.dfy` and `AuditPaging.dfy` cover the audit trail and its pages.
- **Findings and the gate.** `Paths.dfy`, `EvidenceText.dfy` and `Findings.dfy` ground quotes in
  records; `FindingsDedup.dfy` merges duplicates; `FindingIssues.dfy` says which findings are one issue and what its
  report says; `FindingVerifier.dfy` is the imperative verifier
  with its text cache and grouping dictionary, proved equal to them; `Gate.dfy` decides.
- **Git.** `BaselinePaths.dfy` is the ancestor index against its quadratic specification,
  `Snapshot.dfy` the index edit that captures the visible worktree, `SnapshotObstacles.dfy` what prevents it, `CatFile.dfy`
  the length-prefixed parser.
- **The pipeline.** `Provider.dfy`, `Dimensions.dfy` and `ContextGathering.dfy` price, run and feed
  the dimensions; `DimensionCalls.dfy` and `ContextItems.dfy` read every call and every item off the inputs.
  `Pipeline.dfy` runs the nine stages; `PipelineTheorems.dfy` proves what a report means and `PipelineStages.dfy` what each
  stage of it records.
- **Events.** `EventRecorder.dfy` numbers events, `EventStream.dfy` is the reconnecting client, and
  `EventReconnects.dfy` says when it reconnects, gives up and ends.

`Ordering.dfy` holds sorting and Python's order on strings, `Identity.dfy` the shared identities.

Assumptions that are stated and not hidden:

- An audit payload can be refused after state has already changed. The steps model that: they end
  with `UnsafePayload` and the state as it is then. `StoreCommands.CutShortExactly` tells from the state and the command
  alone when that happens. The run theorems are about runs whose payloads are accepted; the `History...Exactly` lemmas
  of `StoreRefusals` are about all histories and say, invariant by invariant, exactly which refusals it survives. The
  `Refused...` lemmas of `StoreScenarios` are histories from the empty store in which it does not.
- `mark_standing_check_sync` overwrites whatever status an intent has. `StoreOutbox.MarkSyncOutbox` gives the exact
  condition under which that is harmless, `StoreTheorems.HeldIntentsMarkWell` shows that marking a claimed intent meets
  it, `StoreScenarios.StaleMarkMisleads` is a run in which it is not.
- `claim_attempt_job` reclaims a stale lease whatever the attempt limit. `StoreJobs.ClaimExceedsLimit` says exactly which
  claims take a job over a limit, `StoreJobs.ReclaimsExceedLimit` is a run in which a limit of 1 leads to two claims.
- A review the pre-flight check lets start can still leave dimensions out. `Dimensions.PreflightSuffices` says exactly
  when it does not, whatever the provider answers at the estimated cost or below.
- Time is a number chosen by each call and attempt ids are fresh. Nothing needs the clock to advance.

Where the program and its documentation disagree the model follows the program:

- The snapshot's documentation says ignored files are excluded. A path that HEAD still has, that
  left the index and that is ignored is captured (`Snapshot.IgnoredFileCaptured`). It also says tracked files use
  their filesystem bytes; an unchanged file keeps the filtered bytes git stored.
  `Snapshot.DocumentedExactly` says exactly when code and documentation agree.
- Deduplication is called conservative. `Gate.MergeSafeExactly` gives the exact policies under which merging cannot
  unblock a gate, `Gate.NeverNewlyBlocksExactly` those under which it cannot block one, and
  `Gate.PassedStaysPassedExactly` those under which a Passed gate stays Passed.
- An empty quote is refused, but a quote of one newline occurs in every line range (`EvidenceText.BareNewlineMatches`).

## Model

| member | source | states |
|---|---|---|
| Store.SupersedeIntents | src/worktree_review/server/state.py:1139-1149 | position by position, live intents of the Attempt become superseded and no other intent changes |
| Store.LatestIntent | src/worktree_review/server/state.py:1296-1304 | the first intent of the Attempt with its greatest revision, or none exactly when it has none |
| Store.FirstDeliverable | src/worktree_review/server/state.py:1313-1356 | the claimable intent with the smallest id that no live intent of the same Attempt outranks |
| StoreInvariants.ExpireFrame | src/worktree_review/server/state.py:1076-1104 | expiring bypasses touches bypasses and audit trail only and adds no revision event, interrupted or not |
| StoreSteps.ExpireEffect | src/worktree_review/server/state.py:1076-1104 | uninterrupted expiry leaves no bypass of the change request active and every other record as it was |
| StoreSteps.StartSound | src/worktree_review/server/state.py:538-625 | a start keeps authority, standing and bypasses consistent |
| StoreSteps.ClaimSound | src/worktree_review/server/state.py:659-696 | so does a claim, also one that reclaims a stale lease or finds the Attempt overtaken |
| StoreSteps.RecoverSound | src/worktree_review/server/state.py:714-775 | so does a recovery pass over all jobs |
| StoreSteps.PublishSound | src/worktree_review/server/state.py:777-883 | so does a publication, whether it installs a decision or is kept for audit only |
| StoreSteps.InvalidateSound | src/worktree_review/server/state.py:1029-1051 | so does an invalidation |
| StoreSteps.ApplyBypassSound | src/worktree_review/server/state.py:1151-1294 | so does a bypass call |
| StoreRuns.StepValid | src/worktree_review/server/state.py:480-1377 | every operation, even one cut short by a refused audit payload, keeps the dictionaries linked and their orders exact |
| StoreRuns.RunSound | src/worktree_review/server/state.py:480-1377 | authority, standing, identities and bypasses agree in every state of every run |
| StoreRuns.RunOutbox | src/worktree_review/server/state.py:1106-1149 | in every run that marks intents well, live intents carry the current revision and gate, and revisions rise with intent ids |
| StoreRuns.RunLedger | src/worktree_review/server/state.py:503-530 | in every run each change request's revision is one less than the number of its revision events in the audit trail |
| StoreTheorems.AuthorityAgrees | src/worktree_review/server/state.py:538-883 | a queued, running or published Attempt is the authority with the same request key; a standing one is authoritative, published, gated, and its job has ended; a recorded identity fits the key |
| StoreTheorems.OvertakenForGood | src/worktree_review/server/state.py:546-625 | an Attempt that lost authority never waits, runs, is published or stands again |
| StoreTheorems.LiveIntentIsNewest | src/worktree_review/server/state.py:1106-1149 | an Attempt has at most one live intent, which carries the decision standing now and outranks all its other intents |
| StoreTheorems.ClaimSyncHandsOutNewest | src/worktree_review/server/state.py:1313-1356 | a claim hands out the oldest claimable intent, which carries the decision standing now; it is empty only when nothing is claimable |
| StoreTheorems.HeldIntentsMarkWell | src/worktree_review/server/state.py:1357-1377 | marking an intent that is in progress always meets the condition the outbox needs |
| StoreOutbox.MarkSyncOutbox | src/worktree_review/server/state.py:1357-1377 | a mark keeps the outbox consistent exactly when it does not revive an intent of an old revision |
| StoreScenarios.StaleMarkMisleads | src/worktree_review/server/state.py:1365-1377 | a run from the empty store in which a stale mark makes the store hand out "passed with bypass" for a change request without a standing decision |
| StoreTheorems.ReplaysChangeNothing | src/worktree_review/server/state.py:546-560 | a redelivery and a repeated bypass are answered from the record and leave the store as it is |
| StoreTheorems.DeliveryIsIdempotent | src/worktree_review/server/state.py:538-625 | for the rest of the run every start for the same delivery answers with the first Attempt and changes nothing |
| StoreCommands.ExpireExactly | src/worktree_review/server/state.py:1076-1104 | expiring reaches exactly the active bypasses up to and including the first whose event is refused |
| StoreCommands.CutShortExactly | src/worktree_review/server/state.py:503-530 | an operation is cut short exactly when a payload it is going to log, read off the state and the command, is refused |
| StoreRefusals.StepSoundExactly | src/worktree_review/server/state.py:572-588 | authority, standing and bypasses stay consistent exactly when nothing is refused, or neither a retirement is stopped nor an invalidation leaves a bypass active |
| StoreRefusals.StepLedgerExactly | src/worktree_review/server/state.py:503-530 | the ledger stays balanced exactly when an accepted event does not pose as a revision and a refused one belonged to none |
| StoreRefusals.StepOutboxExactly | src/worktree_review/server/state.py:1029-1051 | the outbox stays in step exactly when no outdated intent is revived and no invalidation is stopped in front of a live intent |
| StoreRefusals.RefusedGateExactly | src/worktree_review/server/state.py:1213-1243 | after a refusal the gate still means what it says exactly when no blocking bypass was expired by a stopped start and the refused bypass was not the last one missing |
| StoreRefusals.HistorySoundExactly | src/worktree_review/server/state.py:480-1377 | in every history, refusals included, all states are consistent exactly when every refusal is harmless in that sense |
| StoreRefusals.HistoryLedgerExactly | src/worktree_review/server/state.py:503-530 | in every history the revisions always equal the events less one exactly when no revision goes unlogged and no event poses as one |
| StoreRefusals.HistoryOutboxExactly | src/worktree_review/server/state.py:1106-1149 | in every history of consistent states live intents always carry the standing decision exactly when every mark and every refusal is harmless |
| StoreRefusals.HistoryGateExactly | src/worktree_review/server/state.py:1151-1294 | in every such history a standing Blocked decision always counts as bypassed exactly on cover, exactly when every refusal is harmless to it |
| StoreScenarios.RefusedStartUnbalances | src/worktree_review/server/state.py:588-625 | a first start with a refused delivery id leaves a change request no event accounts for |
| StoreScenarios.RefusedRetirementMisleads | src/worktree_review/server/state.py:572-588 | a second start stopped by a refused expiry leaves a demoted Attempt standing as bypassed with nothing accepted |
| StoreScenarios.RefusedInvalidationMisleads | src/worktree_review/server/state.py:1029-1051 | an invalidation stopped by a refused expiry leaves a live intent that is handed out although nothing stands |
| StoreScenarios.RefusedGrantStays | src/worktree_review/server/state.py:1213-1243 | a bypass with a refused reason is on record and active while the gate stays Blocked; asking again is answered as a replay |
| StoreLedger.AppendLedger | src/worktree_review/server/state.py:925-943 | an event appended from outside keeps the ledger balanced exactly when its type is not a revision type |
| StoreLedger.ApplyBypassLedger | src/worktree_review/server/state.py:1187-1294 | a bypass call, granted or replayed, keeps the revision and its events in balance |
| StoreBypass.ActiveBypassStands | src/worktree_review/server/state.py:1151-1294 | in every run an active bypass belongs to the standing, authoritative Attempt and carries its recorded identity |
| StoreBypass.ActiveFingerprintsExact | src/worktree_review/server/state.py:1069-1074 | the listed active fingerprints are exactly those whose risk is accepted on the Attempt |
| StoreBypass.SettleCovers | src/worktree_review/server/state.py:1244-1276 | the gate moves to passed with bypass exactly when the accepted fingerprints cover the blocking ones |
| StoreBypass.BypassedMeansCovered | src/worktree_review/server/state.py:1151-1294 | in every run with one non-empty blocking set per Attempt, a standing Blocked decision counts as bypassed exactly when that set is covered |
| StoreJobs.ClaimsAccounted | src/worktree_review/server/state.py:659-775 | claims minus retries is 1 while a job runs and 0 while it waits, and claims exceed the attempt limit by at most the stale leases reclaimed in claims |
| StoreJobs.TerminalForGood | src/worktree_review/server/state.py:885-906 | a completed, failed or superseded job keeps that status and its retry count |
| StoreJobs.JobsSettle | src/worktree_review/server/state.py:659-775 | without such reclaims a job changes at most 3M + 2 times, however long the run |
| StoreJobs.ClaimExceedsLimit | src/worktree_review/server/state.py:659-696 | in every run a claim takes the claims of a job over a limit exactly when its retry count reached the limit, or one less for a claim that reclaims a stale lease |
| StoreJobs.ReclaimsExceedLimit | src/worktree_review/server/state.py:666-679 | a concrete run in which the limit 1 leads to two claims |
| StoreRecovery.RecoveryExactly | src/worktree_review/server/state.py:714-775 | after a pass that nothing cuts short, a Retryable job below the limit is Queued with its retries, one at the limit Failed; a running job with an overdue lease gains a retry and is Queued or Failed; every other job and everything else is as before, and exactly those changes are logged |
| StoreRecovery.ReportExactly | src/worktree_review/server/state.py:714-775 | the three lists of the report are exactly the jobs that wait again, that lost their lease and that failed, in dictionary order |
| StoreRecovery.RetryExactly | src/worktree_review/server/state.py:698-712 | a retry of a running job makes it Retryable with one more retry and the scrubbed error; any other job is left alone or refused |
| StoreRecovery.FinalizeExactly | src/worktree_review/server/state.py:885-906 | a job that has not ended gets the given status and the scrubbed reason, and that is logged; one that has ended keeps its record |
| StoreOutcomes.IdentityExactly | src/worktree_review/server/state.py:641-657 | an identity is recorded for a known Attempt whose key it fits and that has none or the same one; every other call is refused for the reason that applies |
| StoreOutcomes.StartExactly | src/worktree_review/server/state.py:538-625 | a start for a known delivery answers with its Attempt; any other installs the new Attempt with a queued job, supersedes the prior one, expires its bypasses and logs all of that |
| StoreOutcomes.ClaimExactly | src/worktree_review/server/state.py:659-696 | a claim takes a waiting or overdue job of the authority, withdraws that of an overtaken Attempt, and does nothing otherwise |
| StoreOutcomes.PublishExactly | src/worktree_review/server/state.py:777-883 | every answer of a publication: replayed, refused, kept for audit when overtaken, or installed with one more revision and one intent for it |
| StoreOutcomes.AppendExactly | src/worktree_review/server/state.py:925-943 | an event from outside is appended with the next number, or refused without a change |
| StoreOutcomes.InvalidateExactly | src/worktree_review/server/state.py:1029-1051 | an invalidation clears the decision, raises the revision, expires the bypasses, supersedes the live intents and logs that |
| StoreOutcomes.RepeatExactly | src/worktree_review/server/state.py:1187-1212 | a bypass asked for again by the same actor for the same reason is answered from the record; any other request for it is refused |
| StoreOutcomes.GrantExactly | src/worktree_review/server/state.py:1213-1294 | a granted bypass is recorded, the gate moves exactly when nothing blocking is left open, and the answer carries the new revision, the count left and whether the gate moved |
| StoreOutcomes.BypassRefusals | src/worktree_review/server/state.py:1151-1186 | when a bypass is refused and why, in order |
| StoreOutcomes.ClaimSyncExactly | src/worktree_review/server/state.py:1313-1356 | a claimed intent is in progress with one more try and a lease of the given length |
| StoreOutcomes.MarkSyncExactly | src/worktree_review/server/state.py:1357-1377 | a mark writes the given status, error and time of the next try over the intent and ends its lease |
| StoreClass.InMemoryAuthoritativeAttemptStore.constructor | src/worktree_review/server/state.py:483-501 | a new store is empty and its counters start at 1 |
| StoreClass.InMemoryAuthoritativeAttemptStore.RecordAuditEvent | src/worktree_review/server/state.py:503-530 | appends one numbered event, or reports the payload refused and changes nothing |
| StoreClass.InMemoryAuthoritativeAttemptStore.StartAuthoritativeAttempt | src/worktree_review/server/state.py:538-625 | performs exactly the start step and keeps the store valid |
| StoreClass.InMemoryAuthoritativeAttemptStore.RecordReviewIdentity | src/worktree_review/server/state.py:641-657 | performs exactly the step that records an identity once and only for its key |
| StoreClass.InMemoryAuthoritativeAttemptStore.ClaimAttemptJob | src/worktree_review/server/state.py:659-696 | performs exactly the claim step |
| StoreClass.InMemoryAuthoritativeAttemptStore.MarkJobRetryable | src/worktree_review/server/state.py:698-712 | performs exactly the retry step |
| StoreClass.InMemoryAuthoritativeAttemptStore.RecoverInterruptedJobs | src/worktree_review/server/state.py:714-775 | the loop over the jobs performs exactly the recovery step and reports the same three lists |
| StoreClass.InMemoryAuthoritativeAttemptStore.PublishIfAuthoritative | src/worktree_review/server/state.py:777-883 | performs exactly the publication step with all its refusals |
| StoreClass.InMemoryAuthoritativeAttemptStore.FinalizeAttemptJob | src/worktree_review/server/state.py:885-906 | performs exactly the step that ends a job |
| StoreClass.InMemoryAuthoritativeAttemptStore.AppendAuditEvent | src/worktree_review/server/state.py:925-943 | performs exactly the append step |
| StoreClass.InMemoryAuthoritativeAttemptStore.ListAuditEvents | src/worktree_review/server/state.py:964-996 | returns the newest admitted events below the cursor and a next cursor exactly when more remain |
| StoreClass.InMemoryAuthoritativeAttemptStore.InvalidateStandingDecision | src/worktree_review/server/state.py:1029-1051 | performs exactly the invalidation step |
| StoreClass.InMemoryAuthoritativeAttemptStore.InvalidateBypasses | src/worktree_review/server/state.py:1076-1104 | the loop expires the change request's active bypasses in dictionary order, one event each |
| StoreClass.InMemoryAuthoritativeAttemptStore.SupersedeStandingCheckIntents | src/worktree_review/server/state.py:1139-1149 | the loop supersedes the Attempt's live intents in place |
| StoreClass.InMemoryAuthoritativeAttemptStore.EnqueueStandingCheckIntent | src/worktree_review/server/state.py:1106-1137 | a new revision with exactly one intent for it, the older live ones superseded |
| StoreClass.InMemoryAuthoritativeAttemptStore.ApplyFindingBypass | src/worktree_review/server/state.py:1151-1294 | performs exactly the bypass step, replay and refusals included |
| StoreClass.InMemoryAuthoritativeAttemptStore.PickDeliverable | src/worktree_review/server/state.py:1320-1345 | the two scans and the selection find the first deliverable intent |
| StoreClass.InMemoryAuthoritativeAttemptStore.ClaimStandingCheckSync | src/worktree_review/server/state.py:1313-1356 | performs exactly the claim of a Check sync |
| StoreClass.InMemoryAuthoritativeAttemptStore.MarkStandingCheckSync | src/worktree_review/server/state.py:1357-1377 | performs exactly the mark, whatever status the intent had |
| AuditPaging.ClampPageSize | src/worktree_review/server/audit.py:136-137 | the limit when it is between 1 and 200, else the nearer of the two |
| AuditPaging.PageExact | src/worktree_review/server/state.py:964-996 | a page begins the list of newest admitted events below its cursor and names a cursor for exactly the rest, or none when nothing remains |
| AuditPaging.NewestExact | src/worktree_review/server/state.py:974-993 | that list holds each event of the kind, Attempt, repository, number and installations asked for and nothing else, ids strictly falling |
| AuditPaging.ReadingComplete | src/worktree_review/server/state.py:964-996 | following the cursor to its end shows exactly the events admitted at the first read, whatever is appended meanwhile and whatever the limits, in a bounded number of pages |
| StoreAudit.StepExtends | src/worktree_review/server/state.py:503-530 | no operation, not even one cut short, rewrites or drops an audit event |
| StoreAudit.PagesDuringRun | src/worktree_review/server/state.py:964-996 | the same for pages read at different moments of a run of the store |
| Paths.NormalizeTwice | src/worktree_review/core/findings.py:129-140 | a normalized path is its own normal form |
| Paths.NormalizedStaysInside | src/worktree_review/core/findings.py:129-140 | a normalized path consists of ordinary components joined by single slashes |
| Paths.NormalizeExactly | src/worktree_review/core/findings.py:129-140 | the normal form is the path with its backslashes turned and leading dot-slashes gone, and it exists exactly when that is relative and made of ordinary components |
| Paths.SplitJoin | src/worktree_review/core/git.py:563-580 | splitting at slashes takes apart what joining put together |
| EvidenceText.LineRangeOfLines | src/worktree_review/core/findings.py:184-190 | the selected range of a text made of lines, with or without a final newline, is those lines, or nothing when the range does not fit |
| EvidenceText.BareNewlineMatches | src/worktree_review/core/findings.py:193-209 | a quote matches every line range of every text exactly when it is one newline and nothing else |
| EvidenceText.LineEndingsExactly | src/worktree_review/core/findings.py:180-181 | each carriage return, with the newline that may follow it, becomes one newline, and nothing else changes |
| EvidenceText.LinesEndExactly | src/worktree_review/core/findings.py:184-190 | a line ends at the first of Python's line boundaries, and the next one begins right behind it |
| EvidenceText.QuoteExactly | src/worktree_review/core/findings.py:193-209 | a quote matches exactly when it is not empty, its lines exist and it occurs in them |
| Findings.RecordsForSpanExact | src/worktree_review/core/findings.py:249-304 | a span is compared with exactly the available records of its normalized path, source and requested snapshot |
| Findings.GroundedExactly | src/worktree_review/core/findings.py:307-337 | a span is grounded exactly when some available record fits, and then names that record's path, source, snapshot and change kind |
| Findings.SupportedMeansGrounded | src/worktree_review/core/findings.py:368-403 | supported exactly when there are spans and all can be grounded, each then naming where its quote is; never verified |
| FindingIssues.VouchedExactly | src/worktree_review/core/findings.py:249-337 | a span is grounded exactly when a trusted text of its path, source, requested snapshot and change kind contains its quote, and it then carries the provenance of one that does |
| FindingIssues.GroundedFirst | src/worktree_review/core/findings.py:307-325 | of several such texts the one with the first change kind and then the least text is named |
| FindingIssues.GatheredExactly | src/worktree_review/core/findings.py:224-247 | trusted are exactly the gathered bodies with a path inside the repository and a snapshot |
| Findings.VerifyTwice | src/worktree_review/core/findings.py:368-403 | a verified finding verifies to itself |
| FindingsDedup.OrderIndependent | src/worktree_review/core/findings.py:435-465 | inputs with the same set of findings give the same output, whatever their order and repetition |
| FindingsDedup.FingerprintsExact | src/worktree_review/core/findings.py:340-365 | output fingerprints strictly increase and are exactly the canonical fingerprints of the inputs |
| FindingsDedup.Idempotent | src/worktree_review/core/findings.py:435-465 | verifying and deduplicating the output again changes nothing |
| FindingsDedup.OutputGrounded | src/worktree_review/core/findings.py:193-209 | every supported output has spans, each backed by a trusted text; no output is verified |
| FindingsDedup.NothingLost | src/worktree_review/core/findings.py:406-432 | every input has an output of its fingerprint that is no weaker in evidence or severity and bypassed only if the input was |
| FindingIssues.SharedExactly | src/worktree_review/core/findings.py:340-365 | for a hash without collisions, two inputs share an output exactly when they agree on problem, dimension and first place, the least normalized path, first and last line among their spans |
| FindingIssues.ReportExactly | src/worktree_review/core/findings.py:406-432 | an output tells one of its inputs word for word, the one that comes first by evidence, severity and JSON form, with the best evidence and greatest severity of all, bypassed only if all are |
| FindingVerifier.SpanVerifier.RecordsOfSpan | src/worktree_review/core/findings.py:249-304 | with the text cache the same records are found as without it |
| FindingVerifier.SpanVerifier.GroundSpans | src/worktree_review/core/findings.py:376-390 | the loop grounds every span and tells whether all were grounded |
| FindingVerifier.Run | src/worktree_review/core/findings.py:435-465 | grouping by dictionary and merging in sorted order gives the specified output |
| Gate.RunEvaluator | src/worktree_review/core/gate.py:44-79 | the evaluator with its dictionary of outcomes decides as specified |
| Gate.CollectedDecides | src/worktree_review/core/gate.py:53-64 | the dictionary tells exactly whether each dimension was recorded once and completed |
| Gate.GateExactly | src/worktree_review/core/gate.py:31-79 | Error when the review is incomplete, Blocked on an enforced finding without a bypass, passed with bypass when every enforced one has it, Passed otherwise; enforced and complete in literal terms |
| Gate.MergingKeepsBlocked | src/worktree_review/core/findings.py:406-432 | under a merge-safe policy a Blocked gate stays Blocked when duplicates are merged |
| Gate.MergeSafeExactly | src/worktree_review/core/policy.py:79-88 | merging never unblocks exactly when blocking severities are upward closed or only verified evidence blocks |
| Gate.MergingCanUnblock | src/worktree_review/core/findings.py:419-427 | otherwise two concrete findings are Blocked apart and Passed once merged |
| Gate.MergingCanBlock | src/worktree_review/core/findings.py:411-432 | as soon as any severity can block, two concrete findings pass with bypass apart and are Blocked once merged |
| Gate.NeverNewlyBlocksExactly | src/worktree_review/core/findings.py:411-432 | merging never blocks anew exactly when no severity blocks or only verified evidence does |
| Gate.MergingCanSpoilPassed | src/worktree_review/core/findings.py:411-432 | two concrete findings that are Passed apart and Blocked once merged, for every policy the condition of the next row excludes |
| Gate.PassedStaysPassedExactly | src/worktree_review/core/gate.py:31-79 | Passed stays Passed under merging exactly when blocking severities are downward closed or only verified evidence blocks |
| BaselinePaths.AffectedBaselinePaths | src/worktree_review/core/git.py:551-580 | the ancestor index finds, in ascending order, exactly the baseline paths a pairwise comparison finds |
| BaselinePaths.AffectedUnique | src/worktree_review/core/git.py:551-580 | there is only one such answer |
| BaselinePaths.IndexDescendants | src/worktree_review/core/git.py:563-570 | the index lists per directory exactly the baseline paths below it |
| Snapshot.NoConflict | src/worktree_review/core/git.py:619-650 | at every add the index has no entry above or below the added file |
| Snapshot.TakeSnapshot | src/worktree_review/core/git.py:583-660 | succeeds exactly when nothing is refused, never meets an index conflict, yields the specified tree, and refuses a changed path only for a reason that applies to it |
| Snapshot.RefusalExactly | src/worktree_review/core/git.py:402-520 | a changed path is refused for the first of five literal reasons that applies, and only if one does |
| SnapshotObstacles.SnapshottableExactly | src/worktree_review/core/git.py:583-660 | a snapshot can be taken exactly when nothing is unmerged and there is no changed submodule, no changed path behind a symlink, no stray nested repository and nothing changed that is neither file nor directory |
| Snapshot.SnapshotExact | src/worktree_review/core/git.py:583-660 | the tree holds every visible file and nothing else but untouched submodules and absent skip-worktree entries |
| SnapshotObstacles.ChangedExactly | src/worktree_review/core/git.py:349-393 | a path counts as changed exactly when head, index and filtered disk content are not all alike, it is hidden from git's comparison, or it is untracked and not ignored |
| SnapshotObstacles.KeptExactly | src/worktree_review/core/git.py:591-602 | kept are the submodules and absent skip-worktree entries of HEAD that no other change touches |
| Snapshot.DocumentedExactly | src/worktree_review/core/git.py:583-590 | the tree is what the documentation promises exactly when no ignored committed file, filtered file or kept entry occurs |
| Snapshot.IgnoredFileCaptured | src/worktree_review/core/git.py:361-388 | a concrete repository whose ignored file is captured |
| CatFile.ParseCatFileBatch | src/worktree_review/core/git.py:239-265 | the cursor loop parses as the record-by-record specification |
| CatFile.RoundTrip | src/worktree_review/core/git.py:239-265 | parsing what was written gives every content byte for byte, the last record of an object winning |
| CatFile.EveryObjectReturned | src/worktree_review/core/git.py:239-265 | with one record per object the map is exactly object to content |
| CatFile.CutAnswerExact | src/worktree_review/core/git.py:246-263 | an answer cut short is accepted exactly when it was cut between records, and gives those records |
| CatFile.RecordExactly | src/worktree_review/core/git.py:244-263 | a record is accepted exactly when it is a header line of three fields, the last its size, then that many bytes and a newline |
| CatFile.FieldsExactly | src/worktree_review/core/git.py:248 | header fields are the maximal runs without white space |
| CatFile.IntExactly | src/worktree_review/core/git.py:256 | a size is read exactly when it is digits with single underscores between them, after at most one sign, and is the number they denote |
| CatFile.MissingReported | src/worktree_review/core/git.py:249-252 | the line for a missing object ends the parse and names the object |
| CatFile.CatFileBatch | src/worktree_review/core/git.py:268-283 | every requested object is returned or the call fails, and it fails only with the parse error or naming a requested object that is omitted |
| Provider.ApplyUsagePrice | src/worktree_review/core/provider.py:110-129 | the accumulated cost is the sum of the priced counts, unknown when a count has no price or none is known |
| DimensionCalls.CostExactly | src/worktree_review/core/provider.py:110-129 | a million times the cost is the counts times their prices; it is unknown exactly when there is no count or one without a price |
| Provider.EstimateAll | src/worktree_review/core/dimension.py:155-198 | the combined estimate: input unknown as soon as one is, unknown output counted as none |
| Provider.CombinedCostsTheSum | src/worktree_review/core/dimension.py:155-198 | with all counts known the combined estimate costs the sum of its parts |
| Dimensions.FindingsFromPayload | src/worktree_review/core/dimension.py:82-129 | one finding per draft with its default snapshot, or nothing exactly when a draft's lines are inverted |
| Dimensions.RunRequiredDimensions | src/worktree_review/core/dimension.py:252-379 | the loop with its stop reason gives the specified results |
| Dimensions.ResultsMatchDimensions | src/worktree_review/core/dimension.py:252-379 | one result per required dimension in order, those not started at the end |
| DimensionCalls.CallsExactly | src/worktree_review/core/dimension.py:201-379 | from estimates and answers alone: which dimensions are called, what each call comes to, and for one not started the call that stood in the way and its reason |
| Dimensions.BudgetOverrunBounded | src/worktree_review/core/dimension.py:313-369 | known spending is within the budget, or the last paid call took it over: by no more than its measured cost, or measured minus estimated if it was priced |
| Dimensions.PreflightSuffices | src/worktree_review/core/dimension.py:313-369 | with known counts, every dimension is called whatever honest answers come exactly when the pre-flight check starts the review and the estimates before the last one stay below the budget |
| Dimensions.FreeCallsStop | src/worktree_review/core/dimension.py:365-369 | with estimates of zero and a budget of zero a dimension is left out all the same |
| Dimensions.UnknownCountHidesCost | src/worktree_review/core/dimension.py:182-188 | one unknown input count lets the pre-flight check pass a review whose dimensions are then not started |
| ContextGathering.GatherContext | src/worktree_review/core/context.py:283-442 | the classifying loops gather as specified |
| ContextGathering.ItemsExact | src/worktree_review/core/context.py:312-435 | every gathered item is that of a change, of a mandatory match or of an optional match, and all of these are gathered |
| ContextItems.ChangesExactly | src/worktree_review/core/context.py:318-368 | the diff comes first, then each change in order: a deleted path read in the target tree, an added or other one in the worktree, with kind, snapshot, body or the literal reason why there is none |
| ContextItems.ItemsExactly | src/worktree_review/core/context.py:312-435 | the items are exactly those of the changes, of the mandatory matches and of the further optional matches, each stated field by field from the scene |
| ContextItems.MissingExactly | src/worktree_review/core/context.py:373-378 | reported missing are the mandatory globs without a match, in the order of the policy |
| ContextItems.OptionalMissingExactly | src/worktree_review/core/context.py:399-435 | reported as optional and missing are exactly the optional globs without a match and the optional paths whose data cannot be shown |
| ContextItems.ListsExactly | src/worktree_review/core/context.py:254-280 | reviewed and excluded list exactly the paths shown with a body and the excluded ones |
| ContextGathering.ReadableExactly | src/worktree_review/core/context.py:107-118 | data is shown exactly when it is within the limit, has no zero byte up front, decodes, and is no pointer to large storage |
| ContextGathering.UnreviewableListings | src/worktree_review/core/context.py:261-265 | the coverage lists exactly the unreviewable items, each with its reason |
| ContextGathering.CompleteExactly | src/worktree_review/core/context.py:254-280 | coverage is complete exactly when every mandatory glob matches and the diff, every changed and every mandatory path not excluded is small UTF-8 text and no pointer |
| ContextGathering.CompleteMeansReviewed | src/worktree_review/core/context.py:254-280 | with complete coverage every such path is listed as reviewed |
| ContextGathering.ExcludedNeverShown | src/worktree_review/core/context.py:318-330 | an excluded path is disclosed and neither its body nor its diff is shown |
| ContextGathering.GatheredOnce | src/worktree_review/core/context.py:312-435 | no repository path is gathered twice |
| Pipeline.FillUnrecordedStages | src/worktree_review/core/pipeline.py:111-117 | the loop adds the missing analysis stages in order |
| Pipeline.RunReviewPipeline | src/worktree_review/core/pipeline.py:262-698 | the staged run gives the specified report, and none without an attempt id |
| PipelineTheorems.NineStagesInOrder | src/worktree_review/core/pipeline.py:262-698 | whatever fails, the report lists the nine stages once each, in order |
| PipelineStages.StagesExactly | src/worktree_review/core/pipeline.py:262-698 | status and detail of each of the nine stages from the inputs: completed when reached and well, failed with the message of its call, not started with the reason after a stop; incomplete dimensions do not stop verification |
| PipelineStages.ReportExactly | src/worktree_review/core/pipeline.py:129-259 | findings, coverage, outcomes and explanation of the report from the inputs |
| PipelineStages.ErrorMeansStage | src/worktree_review/core/pipeline.py:129-259 | the gate is Error exactly when a stage is not completed or the policy names no dimension or one twice |
| PipelineStages.DraftsExactly | src/worktree_review/core/pipeline.py:570-571 | the findings that are verified are those of all runs |
| PipelineStages.EvidenceExactly | src/worktree_review/core/findings.py:224-247 | they are checked against the gathered texts and the prepared worktree |
| PipelineTheorems.ErrorExactly | src/worktree_review/core/pipeline.py:129-259 | the gate is Error exactly when something did not complete or a dimension is named twice; otherwise it is the gate of the verified findings |
| PipelineTheorems.PassingMeansComplete | src/worktree_review/core/gate.py:44-79 | any other gate means nine completed stages, complete coverage and every required dimension completed exactly once |
| PipelineTheorems.NeverPassedWithBypass | src/worktree_review/core/dimension.py:111-128 | a pipeline run never yields passed with bypass |
| PipelineTheorems.BlockedMeansEvidence | src/worktree_review/core/gate.py:31-79 | a Blocked report names a supported blocking finding whose every span is backed by a trusted text |
| PipelineTheorems.UnexplainedErrors | src/worktree_review/core/pipeline.py:193-215 | an Error report lacks an explanation exactly when everything completed but the policy names no dimension or one twice |
| EventRecorder.ReviewEventRecorder.Record | src/worktree_review/application/event_recorder.py:53-81 | the event gets the number after the last recorded one and is appended to its Attempt's log only |
| EventRecorder.ReviewEventRecorder.Hydrate | src/worktree_review/application/event_recorder.py:48-51 | a restarted recorder is put back in step with the log |
| EventRecorder.HistoryNumbered | src/worktree_review/application/event_recorder.py:33-81 | through any restarts, every log is numbered 1, 2, 3, ... exactly when the recorder hydrates an Attempt with a past before recording for it |
| EventRecorder.RestartRepeatsNumbers | src/worktree_review/application/event_recorder.py:43-46 | without hydration a restarted recorder gives the number 1 twice |
| EventStream.ReviewEventStream.HandleMessage | frontend/src/data/sources/review-events.ts:126-155 | performs exactly the specified reaction and passes on exactly the new events of its Attempt |
| EventStream.ReviewEventStream.HandleError | frontend/src/data/sources/review-events.ts:157-172 | performs exactly the specified reaction to a broken connection |
| EventStream.ReviewEventStream.Close | frontend/src/data/sources/review-events.ts:191-204 | ends the session for good |
| EventStream.DeliveryExact | frontend/src/data/sources/review-events.ts:98-206 | delivered events are a gap-free stretch of the recorder's log from the start point, nothing follows a terminal event, and an open session has a connection or a reconnect pending |
| EventStream.ReconnectsBounded | frontend/src/data/sources/review-events.ts:157-172 | scheduled reconnects number at most the allowance of one more event than was delivered |
| EventStream.AllowanceIsProduct | frontend/src/data/sources/review-events.ts:161-168 | the allowance of n events is n times the number of delays |
| EventStream.EndedForGood | frontend/src/data/sources/review-events.ts:126-172 | after the end nothing more is delivered or scheduled |
| EventReconnects.BreaksExactly | frontend/src/data/sources/review-events.ts:157-172 | a break fails the session exactly when as many breaks as there are delays already followed the last passed-on event or the opening; otherwise it is reconnecting with a timer pending and one more reconnect scheduled |
| EventReconnects.OthersExactly | frontend/src/data/sources/review-events.ts:126-204 | what a message, the timer and the caller do to a session, from the input and what was delivered so far |
| EventReconnects.EndsExactly | frontend/src/data/sources/review-events.ts:126-204 | closed exactly when the caller closed it or the last event ends the Attempt; failed exactly when a break found no delay left and the caller has not closed it |
| EventStream.CatchesUp | frontend/src/data/sources/review-events.ts:126-181 | a session that has not ended, connected or waiting to reconnect, can be brought up to the end of the log or a terminal event |
| EventReconnects.CanCatchUp | frontend/src/data/sources/review-events.ts:126-181 | the same at any moment of any run over the recorder's log |

## Left out

- Store records are values in the dictionaries, not shared objects: aliasing of a record held elsewhere is not captured.
- Each store operation reads the clock once; the attempt id a start draws is a fresh parameter.
- `PostgresAuthoritativeAttemptStore`, whose behaviour lives in SQL and differs in detail.
- The loop of `invalidate_standing_for_target`, a sequence of invalidations with other steps in between, and the read-only status queries.
- Secret scrubbing, the audit payload walk, hashing and JSON dumping are functions given as parameters; a dump is assumed injective where a tie could show.
- Texts of error messages and of stop reasons with amounts in them.
- AuditPaging.ListPage: a cursor is the number it denotes; text that is no number is not modelled.
- Snapshot.TakeSnapshot: git's listings are modelled on maps; the clean filter and the state of a submodule are parameters; reading files, hashing and commit creation are not modelled.
- Snapshot.SnapshotExact: nothing lies below a nested repository in the modelled disk, and the parent commit is HEAD, as its one caller passes it.
- CatFile.ParseCatFileBatch: Python's limit on the digits of an integer.
- EventStream.ReviewEventStream.HandleMessage: JSON parsing is reduced to its outcome, and the server is an open connection that sends in order, repeats, mixes in other messages and breaks.
- EventRecorder.ReviewEventRecorder.Record: sinks, redaction and timestamps.
- Dimensions.RunRequiredDimensions: decimal amounts are reals, and an exception while estimating a call is only the pipeline's failed stage.
- ContextGathering.GatherContext: glob matching, UTF-8 decoding, walking the worktree and computing the diff are parameters.
- Pipeline.RunReviewPipeline: each outside call gives a value or one of the program's own errors; other exceptions, progress callbacks, worktree cleanup and the disclosure fields of the report are not modelled.
- Findings.VerifyFinding: reading a worktree path is a function of the normalized path, constant during a call.
- Model providers, tokenizers, webhooks, sessions, the React pages and the data mappers.
