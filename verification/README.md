# Nan Fung market-data platform: a verified model

The platform ingests London and UK market data through a durable SQL job engine, serves it to an
agent runtime, and shows grounded briefs to a browser. This project models the parts of it whose
correctness depends on more than one function, and proves what those parts promise, for all inputs,
all interleavings and all reachable states.

Three areas are covered.

* **The operational store** (`src/nan_fung/operational.py`). SQL tables are map and sequence fields;
  every public method is one atomic step, and a raised error leaves the tables as they were.
  `Jobs`, `Leases`, `Revisions`, `Promotions`, `Refresh` and `Throttle` hold the table types, the
  steps as functions and the invariants; `Lifecycle` says what each step of the lease protocol
  achieves; `Store` interleaves the steps of all workers, recoveries and operators into runs;
  `LeaseRuns` follows one lease and one job through such runs, `SnapshotRuns` one ingestion run and its
  observations; `SystemRuns` adds refresh submissions to
  them; `JobStore`, `ObservationStore`, `PromotionLedger`, `RefreshLedger`,
  `HostThrottle` and `OperationalStore` are the objects that update the tables in place, each method
  proved equal to its step.
* **The agent runtime** (`agent-runtime/src`). `EventRing`, `EventHub`, `SseHub` and
  `CancelCoordinator` are the event transport; `Approvals` and `ApprovalCoordinator` the serialised
  approvals; `TurnLedger`, `HostLedgers`, `Finalizer` and `Projection` the path from tool results to a
  grounded brief and its browser view.
* **Paging and identity**. `Paging` is the facade's size-bounded paging over the read service's keyset
  pages; `JsonText` and `CanonicalJson` are the canonical JSON that dedupe keys and revision hashes
  rest on.

## How to read it

Ids are naturals and times are microseconds. SHA-256 digests are represented by the values that are
hashed (`DedupeKey`, `Digest`), which is the assumption that the hash is injective on them. A unique
SQL index is a map field beside its table. Freshly minted identities (`new_id`) are parameters, and
their newness is a precondition. `Core.tokens`, `Core.issued`, `Refresh.Db.carried` and the `log`,
`sent` and `launched` fields are history that no operation reads; they exist to state what happened
before. Fixed-width timestamps compare as times. Where a property needs a clock that does not run
backwards, the definition of a run says so (`Store.Trace`, `Throttle.ClockForward`).

Statements that the code does not keep are not claimed; where a natural one fails, a lemma shows the
failure on a concrete input and another states exactly when the code keeps it:

* one job per default manual request: `Store.ManualRequestsPileUp`, `Jobs.EnqueueTwice`;
* a revocation is final: `Promotions.RevokedTwice`, `Promotions.BackdatedRevocationRepeats`;
* a persisted key belongs to its run's scope: `Revisions.ScopeStaysBehind`, `Revisions.JoinsScopeExactly`;
* a turn is silenced only by its own end: `EventHub.KeysCanCollide`, `EventHub.KeysCollideExactly`;
* a continuation does not compete for pacing: `Throttle.ContinuationCompetes`,
  `Throttle.ContinuationReserves`.

The last one is also where the code and its documentation differ: `permit_host` says that a redirect
continuation does not compete for the one-second reservation, but for a host without a row the code
reserves the second for a continuation as well. The model follows the code (`Throttle.Reserves`).

A claim's copies of its job's immutable columns are read from the job row, which is where the store took
them from.

`dafny verify dfyconfig.toml` checks the whole project.

## Model
| member | source | states |
|---|---|---|
| Jobs.RetryDelayGrows | src/nan_fung/operational.py:4628-4643 | whatever the stored retry policy says, later attempts wait at least as long, and every wait lies between the base delay and the cap |
| Jobs.RetryDelayDoubles | src/nan_fung/operational.py:4628-4643 | the wait starts at the base delay and doubles from attempt to attempt until the cap or the seventeenth attempt |
| Jobs.DelaysFromPolicy | src/nan_fung/operational.py:4628-4643 | a policy with sensible delays gets them; without one they run from one minute to one hour |
| Jobs.EnqueueSound | src/nan_fung/operational.py:690-863 | one job per dedupe key: an accepted job is new, queued, untried and due at the requested time, with the budget its policy asks for or four; a deduplicated answer changes nothing and names the job that carries exactly the requested key; an error changes nothing |
| Jobs.KeysTellApart | src/nan_fung/operational.py:776-794 | two requests share a key exactly when every argument but the priority agrees, the time counting for scheduled slots alone |
| Jobs.SlotsAreJobs | src/nan_fung/operational.py:690-863 | slots of one schedule for different times are different jobs, each made once |
| Jobs.DeliverySound | src/nan_fung/operational.py:896-975 | a delivery is enqueued exactly for a manual, scheduled or recovery trigger; one job per body, trigger and slot, of priority 50 and with three attempts |
| Jobs.EnqueueTwice | src/nan_fung/operational.py:795-815 | the same request twice names one job, except exactly when a default manual request meets a terminal job under its own key: then every further request makes a new job |
| Jobs.RetryLinksNewJob | src/nan_fung/operational.py:3585-3619 | exactly a failed, dead-lettered or cancelled job with a datasource is retried; a retry never resolves to an old job: it adds one with the same definition, lane, kind, window and request, one generation later, linked to its parent, and leaves every other row alone |
| Leases.EnqueueConsistent | src/nan_fung/operational.py:690-863 | enqueueing keeps attempt accounting, token and index invariants and every existing row's immutable columns |
| Leases.EnqueueDeliveryConsistent | src/nan_fung/operational.py:896-975 | the same for jobs without a datasource |
| Leases.RecoverConsistent | src/nan_fung/operational.py:3652-3756 | recovering lapsed leases keeps the whole invariant: running attempts and runs of recovered jobs are closed with them |
| Leases.ClaimConsistent | src/nan_fung/operational.py:1008-1073 | a claim, with the recovery before it, keeps the whole invariant |
| Leases.StartConsistent | src/nan_fung/operational.py:1076-1153 | a start keeps the invariant and returns a handle whose lease and run are on record |
| Leases.StartSystemConsistent | src/nan_fung/operational.py:1156-1214 | the same for system jobs |
| Leases.HeartbeatConsistent | src/nan_fung/operational.py:1285-1319 | a heartbeat keeps the invariant |
| Leases.FinishConsistent | src/nan_fung/operational.py:2467-2547 | closing a run closes its attempt and its job together and keeps the invariant |
| Leases.FinishSystemConsistent | src/nan_fung/operational.py:1217-1282 | the same for system jobs |
| Leases.CancelConsistent | src/nan_fung/operational.py:3622-3649 | a cancel keeps the invariant, although the token of a claimed job stays on the row |
| Leases.HeldAttemptRuns | src/nan_fung/operational.py:4447-4466 | a live token belongs to exactly the attempt it was handed out for, and that attempt is running |
| Leases.OwnedRunIsRunning | src/nan_fung/operational.py:2195-2205 | whoever owns the job finds its run still running, so the `status = 'running'` guards on the run's row never suppress a count |
| Leases.RunningAttempt | src/nan_fung/operational.py:1076-1153 | a job is running exactly when it has a running attempt, which is the only one and is numbered attempt_count |
| Leases.NeverExhausted | src/nan_fung/operational.py:1098-1100 | in a consistent store the "exhausted its attempt budget" branch is unreachable for every claim |
| Leases.RecoverProgress | src/nan_fung/operational.py:3652-3756 | recovery never changes a terminal job, a closed attempt or a closed run, and revives no lease |
| Leases.CloseProgress | src/nan_fung/operational.py:2467-2547 | after a close nobody's lease holds the job, and everything already closed stays as it was |
| Lifecycle.RecoverSettles | src/nan_fung/operational.py:3652-3756 | a lapsed claim is requeued without using an attempt, a lapsed run is retried after its delay or dead-lettered exactly when its budget is spent; nothing stays lapsed, and recovering again changes nothing |
| Lifecycle.ClaimLeases | src/nan_fung/operational.py:1008-1073 | a claim succeeds exactly when the job is due after recovery, and can be started until its expiry and no longer |
| Lifecycle.StartOwns | src/nan_fung/operational.py:1076-1153 | a start succeeds exactly when the claim holds and the job has a datasource; it uses one attempt and owns the job until the claim's expiry |
| Lifecycle.StartSystemOwns | src/nan_fung/operational.py:1156-1214 | a system start succeeds exactly when the claim holds, a worker is named and the job is a delivery; one attempt, no run, held until the claim's expiry |
| Lifecycle.HeartbeatMoves | src/nan_fung/operational.py:1285-1319 | a heartbeat succeeds exactly while the lease holds and moves the expiry to exactly the requested time |
| Lifecycle.FinishCloses | src/nan_fung/operational.py:2493-2546 | a finish succeeds exactly while the handle owns the job; the job's next state follows from status, retryability and budget; nobody holds the job afterwards |
| Lifecycle.FinishSystemCloses | src/nan_fung/operational.py:1217-1282 | a system finish succeeds exactly for a success, failure or cancellation under a live lease and closes attempt and job accordingly; a failure is retried with the default delays while there is budget |
| Lifecycle.CancelStops | src/nan_fung/operational.py:3622-3649 | a cancel changes exactly the jobs that are neither running nor closed, after which no claim on them can be started |
| LeaseRuns.LiveLeaseUnique | src/nan_fung/operational.py:4447-4466 | a job never has two live leases |
| LeaseRuns.LeaseStands | src/nan_fung/operational.py:1285-1319 | a live lease is left alone: no operation of anybody else touches its row, and the holder's own, short of a finish, move at most the expiry |
| LeaseRuns.ClaimStands | src/nan_fung/operational.py:1041-1073 | a live claim is left alone until it is started or its job cancelled |
| LeaseRuns.LeaseStandsOn | src/nan_fung/operational.py:1285-1319 | over whole runs a lease that its holder keeps holds its job up to its expiry, whatever other workers, operators and recoveries do |
| LeaseRuns.ClaimStandsOn | src/nan_fung/operational.py:1041-1153 | over whole runs the row a claim leased is the row its start finds |
| LeaseRuns.BackoffHolds | src/nan_fung/operational.py:978-1005 | over whole runs a job that waits for a later time, for its first attempt or after a failed one, is touched by nothing but a cancel before that time |
| LeaseRuns.LifeOfAJob | src/nan_fung/operational.py:1008-1153 | over whole runs, with any other operations in between, a due job claimed, started and finished before its lease expires goes through every step, ends where the reported status puts it, and has used exactly one more attempt |
| Lifecycle.AttemptsAreBounded | src/nan_fung/operational.py:1095-1125 | a job has exactly attempt_count attempts, never more than its budget |
| Revisions.PersistRefinesHistory | src/nan_fung/operational.py:2049-2229 | a persist is accepted exactly with evidence of its own run and, for a full snapshot, a declared scope; it either reuses the last revision, leaving every history as it was, or appends one upsert to exactly that stream; heads stay the ends of gapless chains, and counts stay exact |
| Revisions.PersistTwice | src/nan_fung/operational.py:2074-2150 | of two persists in a row on one stream the second is answered with the first one's revision exactly when it brings the same envelope of the same definition version |
| Revisions.StreamsApart | src/nan_fung/operational.py:2114-2123 | streams are told apart by datasource, lane, key version and key |
| Revisions.SeenAfterPersist | src/nan_fung/operational.py:2314-2323 | what a run has seen is nothing at first, and an accepted persist adds exactly its own key, for its own run alone |
| Revisions.PersistedIsSeen | src/nan_fung/operational.py:2314-2346 | a key that a run persisted counts as seen, so the run's own finalization cannot bury it |
| Revisions.TombstoneAllOk | src/nan_fung/operational.py:2324-2461 | burying the planned heads appends one tombstone to each of these streams and touches nothing else |
| Revisions.FinalizeExact | src/nan_fung/operational.py:2262-2464 | accepted exactly with a declared scope, a complete proof for it and required evidence; afterwards every live head of that scope is a key the run saw; a head changed exactly when it was missing; finalizing again would bury nothing |
| Revisions.TombstoneRecords | src/nan_fung/operational.py:2347-2418 | a tombstone takes the next number, supersedes the head it buries, and carries the scope, the version and the emptied envelope |
| Revisions.BeginKeeps | src/nan_fung/operational.py:2232-2259 | a scope is declared exactly once, for a full snapshot, and nothing else changes |
| SnapshotRuns.SeenIsPersisted | src/nan_fung/operational.py:2314-2323 | over whole runs the keys a run's rows show as present are exactly the keys it persisted |
| SnapshotRuns.ColumnsAreTold | src/nan_fung/operational.py:2232-2312 | over whole runs a run's scope is the one it declared, its snapshot is complete exactly when it finalized, its evidence is what it saved |
| SnapshotRuns.FinalizeBuries | src/nan_fung/operational.py:2262-2464 | over whole runs an accepted finalization buries, under the declared scope and with required evidence, exactly the live heads of that scope whose key the run itself never persisted |
| SnapshotRuns.AnswersTellContent | src/nan_fung/operational.py:2074-2150 | over whole runs two persists are answered with one id only for one key with one envelope and definition version, and exactly then if the head did not move in between |
| Revisions.ColumnsOnly | src/nan_fung/operational.py:2232-2259 | declaring a scope or adding evidence leaves revisions, heads and histories as they were |
| Revisions.ReusedHeadKeepsScope | src/nan_fung/operational.py:2074-2089 | an upsert's hash leaves the scope out, so a reused head keeps the scope it was first recorded under |
| Revisions.JoinsScopeExactly | src/nan_fung/operational.py:2114-2150 | a persisted key is under the run's declared scope exactly unless its content was reused from a revision of another scope |
| Revisions.ScopeStaysBehind | src/nan_fung/operational.py:2074-2150 | that family is real: a run of scope "south" that sees what a run of scope "north" recorded leaves the head under "north" |
| Promotions.MaxSeqIsLength | src/nan_fung/operational.py:4469-4481 | in a ledger numbered 1..n the next promotion_seq is n + 1 |
| Promotions.LatestIsLast | src/nan_fung/operational.py:1978-1996 | with nondecreasing decision times the latest decision of a run is the last one appended |
| Promotions.LatestIsNewest | src/nan_fung/operational.py:1978-1996 | in any ledger the latest decision as of a time is the newest by (decision_at, promotion_seq) among the run's decisions up to that time, or there is none |
| Promotions.OpenExact | src/nan_fung/operational.py:1688-1703 | a review is opened undecided, and once |
| Promotions.PromoteKeepsShape | src/nan_fung/operational.py:1795-1953 | promotion through a review keeps every run's history empty, approved, or approved then revoked; it is created exactly for an approved review of a hand-promoted definition and a successful production run not promoted before; an error changes nothing; promoting the same review again answers with the first promotion |
| Promotions.AutoKeepsShape | src/nan_fung/operational.py:2548-2556 | the automatic approval of a run never decided on keeps that shape |
| Promotions.RevokeOnce | src/nan_fung/operational.py:1956-2046 | a revocation succeeds exactly for an approved, successful production run or one already revoked; it ends the history in the approval's own mode, and revoking again adds nothing and answers with it |
| Promotions.BackdatedRevocationRepeats | src/nan_fung/operational.py:1978-2044 | in every ledger without the clock assumption: a second revocation of an approved run is appended exactly when the first is dated before the decision it revokes, and otherwise changes nothing |
| Promotions.RevokedTwice | src/nan_fung/operational.py:1978-2044 | such a ledger: approved at 10, revoked as of 5, revoked again |
| Throttle.TableRemembers | src/nan_fung/operational.py:371-507 | after any calls for any hosts the table still enforces every earlier permit and every earlier 429 deadline that has not passed |
| Throttle.HostPacing | src/nan_fung/operational.py:371-507 | a first-hop permit comes at least a second after every earlier one of its host, and no permit of either kind comes before the deadline of an earlier 429 (section 4 of RFC 6585, section 10.2.3 of RFC 9110) |
| Throttle.BlocksForRetryAfter | src/nan_fung/operational.py:4550-4564 | a response blocks exactly if it is a 429 with a usable Retry-After: for that many seconds, or until that date |
| Throttle.RefusedExactlyForCause | src/nan_fung/operational.py:371-507 | over every run a permit is refused exactly when an earlier call still speaks against it: a reservation less than a second old, or a 429 deadline ahead |
| Throttle.ContinuationReserves | src/nan_fung/operational.py:379-413 | a granted continuation reserves the second exactly when it is the first call that names its host, and otherwise leaves the table as it was |
| Throttle.ContinuationCompetes | src/nan_fung/operational.py:379-413 | the documented promise fails on a concrete run: a first hop right after such a continuation is refused |
| Refresh.SubmitKeepsRefreshOk | src/nan_fung/operational.py:2636-2798 | every submission, finished or killed between its two commits, keeps one job per request id, the cooldown cohorts and the quota; the "ambiguous" and "not accepted" errors cannot occur |
| Refresh.CreateQuota | src/nan_fung/operational.py:3246-3314 | counting the day's jobs before creating one decides the quota exactly as the finished history shows it |
| Refresh.NoPriorNoCooldown | src/nan_fung/operational.py:3448-3514 | when neither an active row nor an active orphan is found, no job of the cohort is still cooling down |
| Refresh.HistoryKeeps | src/nan_fung/operational.py:2636-2798 | in every reachable state each request id has at most one job, rows carry their job's own cohort and cooldown, jobs of a cohort are separated by the earlier one's cooldown, and every ONSPD job after the twentieth of its day was confirmed |
| Refresh.WrittenOnce | src/nan_fung/operational.py:3316-3390 | ledger rows and confirmations never change once written, so no request id is issued a second token |
| Refresh.ExactlyOnce | src/nan_fung/operational.py:2682-2798 | two answers to one request id that name a job name the same job, whatever crashes and other requests come in between, and the request has no other job; the same caller is never refused when it asks again |
| Refresh.ForeignReplayChangesNothing | src/nan_fung/operational.py:2682-2720 | another principal, or other content, under a used request id is refused with its own error and changes nothing, even when all that exists is the job of a killed process |
| Refresh.FreshRequestAccepted | src/nan_fung/operational.py:2743-2798 | a new request without an active cohort and within quota gets its own job, of the ordered definition, lane and request, due at once, and a ledger row that binds it |
| Refresh.FirstChallenge | src/nan_fung/operational.py:3273-3390 | the first request beyond the day's twentieth is challenged: a token that lives ten minutes, on record for exactly this request, and neither a job nor a ledger row |
| Refresh.UnissuedTokenRefused | src/nan_fung/operational.py:3246-3314 | a token that was never issued for the request is refused and changes nothing, on any day |
| Refresh.MalformedRefused | src/nan_fung/operational.py:2661-2675 | a malformed submission is refused and changes nothing |
| Refresh.CrashThenRetry | src/nan_fung/operational.py:2698-2798 | over whole histories: after a crash between the commits every later answer to the request, whatever other requests, crashes and store operations come in between, names the job that was left with its original time; the same caller is never refused; the request has that one job |
| Refresh.CohortShares | src/nan_fung/operational.py:2724-2741 | while a job of the cohort cools down another request shares it: nothing is created and the cooldown is not extended; no other active row or orphan was submitted later, and under a forward clock there is only one such job |
| Refresh.ConfirmsExactly | src/nan_fung/operational.py:3246-3390 | in every sound state a request with a pending confirmation gets its own job exactly when nothing else is on record about it and it brings that token in time beyond the quota, or none within it; it is challenged again, with the same token, exactly when it brings none in time beyond the quota |
| Refresh.ChallengeThenConfirm | src/nan_fung/operational.py:3246-3390 | the same over whole histories from the challenge on, for the token that was handed out; two challenges of one request carry the same token |
| Store.StepOk | src/nan_fung/operational.py:1076-1319 | every allowed step of any operation keeps the whole store sound, revives no lease and only appends to histories |
| Store.StepLeavesAgents | src/nan_fung/operational.py:2771-2779 | between submissions no other operation adds an agent job or changes a job's immutable columns |
| Store.TraceOk | src/nan_fung/operational.py:1076-1319 | the whole invariant holds in every state of every run from empty tables |
| Store.ClosedForEver | src/nan_fung/operational.py:2467-2547 | over whole runs terminal jobs, closed attempts and closed runs never change and nothing is deleted |
| Store.DeadForEver | src/nan_fung/operational.py:3652-3756 | a lease that no longer holds its job never holds it again |
| Store.Fencing | src/nan_fung/operational.py:4447-4466 | once a handle's lease is dead no later heartbeat, evidence, observation, snapshot or finish call with it changes the store, under any interleaving |
| Store.WhatKills | src/nan_fung/operational.py:3652-3756 | expiry, recovery and the close of the attempt each make a lease dead |
| Store.HistoriesOnlyGrow | src/nan_fung/operational.py:2114-2205 | over whole runs every stream's revision history only gets longer |
| Store.EarlierAnswersStay | src/nan_fung/operational.py:1978-1996 | over whole runs every run's latest decision as of an earlier time stays the same |
| Store.ReviewsStayDecided | src/nan_fung/operational.py:1739-1792 | over whole runs a decided review never changes again |
| Store.ManualRequestsPileUp | src/nan_fung/operational.py:806-814 | a run in which the same default manual request is made three times and, its first job being cancelled, two jobs wait for it at once |
| Store.FinishOk | src/nan_fung/operational.py:2467-2556 | a finish either changes nothing or closes the run and records at most its own approval, as the first entry of the run's promotion history |
| Store.FinishExact | src/nan_fung/operational.py:2467-2556 | a finish goes through exactly under the lease and, when it promotes, for a successful production run of an automatically promoted definition whose snapshot is finalized; it then records exactly that approval |
| Store.PromotedMeansDecided | src/nan_fung/operational.py:1739-1953 | over whole runs whatever is promoted through a review was decided "approve" before |
| Store.JobsAreLegitimate | src/nan_fung/operational.py:722-772 | over whole runs the production lane holds only production definitions, backfills and only they have a window, as requested, and deliveries and only they have no datasource |
| SystemRuns.ProjectsToStore | src/nan_fung/operational.py:2771-2779 | every run of operations and submissions together is a run of the store, in which a submission enqueues its job or does nothing |
| SystemRuns.ProjectsToRefresh | src/nan_fung/operational.py:2636-2798 | and it is a history of the refresh ledger, in which operations leave agent jobs alone |
| SystemRuns.SystemOk | src/nan_fung/operational.py:2636-2798 | so in every state of such a run both invariants hold |
| SystemRuns.SystemFencing | src/nan_fung/operational.py:4447-4466 | fencing with submissions in between: an operation under a dead lease changes neither the store nor the ledger |
| SystemRuns.SystemExactlyOnce | src/nan_fung/operational.py:2682-2798 | exactly-once with workers, recoveries, retries and cancels in between: a repeat changes nothing in the whole store |
| SystemRuns.SystemCrashThenRetry | src/nan_fung/operational.py:2698-2798 | a submission killed between its commits is made whole by asking again, in a store that went on working |
| JobStore.JobStore.Enqueue | src/nan_fung/operational.py:690-863 | the tables after the call are those of the enqueue step, and stay consistent |
| JobStore.JobStore.EnqueueProjection | src/nan_fung/operational.py:896-975 | the same for projection deliveries |
| JobStore.JobStore.Retry | src/nan_fung/operational.py:3585-3619 | the same for operator retries |
| JobStore.JobStore.RecoverExpired | src/nan_fung/operational.py:3652-3756 | the row-by-row loop reaches exactly the state in which every lapsed job is recovered at once, and answers which jobs these were |
| JobStore.JobStore.ClaimJob | src/nan_fung/operational.py:1008-1039 | recover, then lease the named job if it is due |
| JobStore.JobStore.FirstDue | src/nan_fung/operational.py:990-999 | the scan finds the least due job in the order priority, available_at, scheduled_for, job_id, or there is none |
| JobStore.FirstIsLeast | src/nan_fung/operational.py:990-999 | that job has the smallest priority number, then the earliest available time, then the earliest scheduled time, then the smallest id |
| JobStore.JobStore.ClaimNext | src/nan_fung/operational.py:978-1005 | recover, then lease the first due job; nothing is leased only if nothing is due |
| JobStore.JobStore.StartRun | src/nan_fung/operational.py:1076-1153 | the tables and the handle of the start step |
| JobStore.JobStore.StartSystemJob | src/nan_fung/operational.py:1156-1214 | the tables and the lease of the system start step |
| JobStore.JobStore.FinishSystemJob | src/nan_fung/operational.py:1217-1282 | the tables of the system finish step |
| JobStore.JobStore.Heartbeat | src/nan_fung/operational.py:1285-1319 | the lease moves only under the compare-and-set of token, state and expiry |
| JobStore.JobStore.CloseRun | src/nan_fung/operational.py:2493-2546 | the tables of the closing step, with the later of the policy's and the caller's retry time |
| JobStore.JobStore.Cancel | src/nan_fung/operational.py:3622-3649 | only queued, waiting or claimed jobs are cancelled |
| ObservationStore.ObservationStore.PersistEvidence | src/nan_fung/operational.py:1358-1480 | evidence is recorded exactly when the lease owns the run |
| ObservationStore.ObservationStore.PersistObservation | src/nan_fung/operational.py:2049-2229 | without the lease nothing changes; with it the tables are those of the persist step, and stay sound |
| ObservationStore.ObservationStore.BeginFullSnapshot | src/nan_fung/operational.py:2232-2259 | without the lease nothing changes; with it the scope is declared once |
| ObservationStore.ObservationStore.TombstoneMissing | src/nan_fung/operational.py:2324-2461 | the loop buries each missing head once, with its own new revision |
| ObservationStore.ObservationStore.FinalizeFullSnapshot | src/nan_fung/operational.py:2262-2464 | without the lease nothing changes; with it the tables are those of the finalize step over exactly the missing heads |
| PromotionLedger.PromotionLedger.MaxPromotionSeq | src/nan_fung/operational.py:4469-4481 | the scan finds the largest promotion_seq, or zero |
| PromotionLedger.PromotionLedger.LatestDecision | src/nan_fung/operational.py:1978-1996 | the scan finds the newest decision of the run by (decision_at, promotion_seq) |
| PromotionLedger.PromotionLedger.DecideReview | src/nan_fung/operational.py:1739-1792 | true exactly for the call that decides an open review, which changes that review alone; afterwards no call, for either decision, changes anything |
| PromotionLedger.PromotionLedger.PromoteReview | src/nan_fung/operational.py:1795-1953 | the ledger and links of the promote step; promotion_seq stays 1..n, and histories stay in shape under a forward clock |
| PromotionLedger.PromotionLedger.RevokePromotion | src/nan_fung/operational.py:1956-2046 | the ledger of the revoke step, with the same invariants |
| HostThrottle.HostThrottle.PermitHost | src/nan_fung/operational.py:371-434 | the table is the one the calls so far leave; under a forward clock a permit is refused exactly when an earlier call still speaks against it; a refusal changes nothing, and nothing ever moves earlier |
| HostThrottle.HostThrottle.RecordHostResponse | src/nan_fung/operational.py:436-507 | refused exactly for a status outside 100..599; a 429 deadline is enforced from then on; for every host pacing and every block still ahead only move later |
| RefreshLedger.RefreshLedger.NewestActiveRow | src/nan_fung/operational.py:3461-3470 | the scan finds the newest active row of the cohort, or there is none |
| RefreshLedger.Newest | src/nan_fung/operational.py:3506-3514 | the scan finds the newest candidate by (submitted_at, job_id) |
| RefreshLedger.RefreshLedger.ActivePrior | src/nan_fung/operational.py:3448-3514 | the newest of the active ledger row and all active orphans, or none exactly when there is neither |
| RefreshLedger.RefreshLedger.ConfirmQuota | src/nan_fung/operational.py:3246-3390 | the daily-limit decision, with its confirmation token |
| RefreshLedger.RefreshLedger.Decide | src/nan_fung/operational.py:2662-2754 | the decision of a submission before it writes anything |
| RefreshLedger.RefreshLedger.Submit | src/nan_fung/operational.py:2636-2798 | both commits, or only the first when the process is killed between them, leave the tables of the submit step; the invariant holds in either case |
| OperationalStore.OperationalStore.FinishRun | src/nan_fung/operational.py:2467-2556 | the close of the run and the automatic approval happen together or not at all, and the whole store stays sound |
| Decimal.RoundTrip | agent-runtime/src/sse.ts:109 | the printed number reads back as itself, without a leading zero |
| EventRing.EventIdInjective | agent-runtime/src/sse.ts:109 | within a session an event id names one sequence number |
| EventRing.StartIsLeast | agent-runtime/src/sse.ts:42-47 | the retained events are at most 256 and 2 MiB, and a suffix of the log stays within both exactly when it is no longer than them |
| EventRing.RingIsEnough | agent-runtime/src/sse.ts:37-49 | trimming the ring alone gives the longest fitting suffix of everything ever emitted |
| EventRing.SessionEventRing.Append | agent-runtime/src/sse.ts:37-49 | after the call the ring is the longest suffix of the log that fits 256 events and 2 MiB, and `evicted` says whether anything left |
| EventRing.SessionEventRing.Trim | agent-runtime/src/sse.ts:42-47 | the eviction loop stops at the longest suffix that fits |
| EventRing.SessionEventRing.Has | agent-runtime/src/sse.ts:57-59 | whether the id is in the ring |
| EventRing.SessionEventRing.Replay | agent-runtime/src/sse.ts:51-55 | everything behind the first event with the id |
| EventHub.EmitKeeps | agent-runtime/src/sse.ts:102-124 | an emit is refused and changes nothing, or appends exactly the given event to its own session, numbered next; a terminal event stays the last and only one of its turn |
| EventHub.TurnEndsExactly | agent-runtime/src/sse.ts:112-113 | a turn takes no further event exactly after a completed or failed one |
| EventHub.KeysCanCollide | agent-runtime/src/sse.ts:104-105 | the terminal key joins ids with a colon, so another session's turn can silence a turn: a concrete case |
| EventHub.KeysCollideExactly | agent-runtime/src/sse.ts:104-105 | turns of two sessions can share a terminal key exactly when one session id is the other followed by a colon and more |
| EventHub.RefusedExactlyWhenEnded | agent-runtime/src/sse.ts:104-105 | where no two session ids are related like that, an emit is refused exactly when its own turn has ended |
| EventHub.CollisionSilences | agent-runtime/src/sse.ts:104-105 | where two are, ending some turn of one silences a turn of the other that never ended |
| EventHub.ReplayContinues | agent-runtime/src/sse.ts:135-139 | EVICTED exactly when the named event has left the retained suffix; otherwise everything after it, in order and once |
| EventHub.ForeignIdEvicted | agent-runtime/src/sse.ts:135-139 | an id that names no event of the session is EVICTED |
| EventHub.CancelExact | agent-runtime/src/cancel.ts:29-59 | cancel reports success exactly when this call appended the turn's terminal event; a losing cancel appends nothing |
| EventHub.CancelAnswers | agent-runtime/src/cancel.ts:29-48 | for sessions that are apart a cancel succeeds exactly for the active turn that has not ended, and every other answer has its exact condition |
| EventHub.OneTerminalPerTurn | agent-runtime/src/sse.ts:102-124 | in every run of emitters and racing cancels events are numbered 1..n and a turn has at most one terminal event, its last |
| EventHub.LogsOnlyGrow | agent-runtime/src/sse.ts:102-124 | what was emitted never changes |
| EventHub.CancelSucceedsOnce | agent-runtime/src/cancel.ts:29-59 | no cancel of a turn that has ended succeeds, at any later point of any run |
| EventHub.ReconnectLosesNothing | agent-runtime/src/sse.ts:77-93 | what a client had, followed by what it gets on reconnecting with its last id, is the whole log, unless that event has been evicted |
| SseHub.Attachment.Write | agent-runtime/src/sse.ts:154-166 | written followed by queued is always what was sent, whatever the response says about its buffer |
| SseHub.Attachment.Drain | agent-runtime/src/sse.ts:161-165 | draining loses, repeats and reorders nothing, and gets at least one queued item through |
| SseHub.Broadcast | agent-runtime/src/sse.ts:123 | every client of the session is sent the frame once |
| SseHub.FrameReadsBack | agent-runtime/src/sse.ts:213-215 | a client reads in a frame exactly the event's id, type and JSON text (section 9.2.6 of the WHATWG HTML Standard) |
| SseHub.Journal.Record | agent-runtime/src/sse.ts:102-122 | rings, counters and terminal set follow the emit step |
| SseHub.Journal.Replay | agent-runtime/src/sse.ts:135-139 | the ring answers what the whole log would |
| SseHub.SseHub.Emit | agent-runtime/src/sse.ts:102-124 | the emit step, after which every attached client has been sent the retry hint and the session's log from where it joined, without a gap |
| SseHub.SseHub.Attach | agent-runtime/src/sse.ts:77-93 | GONE for an inactive session, EVICTED exactly as replay says, otherwise the client is sent the retry hint and the replay and joins |
| SseHub.SseHub.Detach | agent-runtime/src/sse.ts:95-100 | the client leaves its session; other sessions keep theirs |
| SseHub.SseHub.OnDrain | agent-runtime/src/sse.ts:161-165 | a drain changes no client's stream |
| CancelCoordinator.CancelCoordinator.EmitTerminal | agent-runtime/src/cancel.ts:50-59 | true exactly when the hub took the terminal event |
| CancelCoordinator.CancelCoordinator.Cancel | agent-runtime/src/cancel.ts:29-48 | the hub, the coordinator and the answer of the cancel step |
| Approvals.BeginKeeps | agent-runtime/src/approval.ts:130-168 | resuming a call keeps the promise chain, arrival order, open launches and launch-once, and writes a decision at most once |
| Approvals.BeginExact | agent-runtime/src/approval.ts:130-168 | a call launches exactly when it may decide an undecided approval and approves, writes exactly when it may and denies, is answered on replay exactly when it may and asks for the stored decision; every refusal names a cause that holds |
| Approvals.ReplyExact | agent-runtime/src/approval.ts:142-174 | a granted launch writes "approve"; an error or a rejection writes nothing; the suspended turn goes on exactly for a granted launch of a live session before the expiry |
| Approvals.RegisterExact | agent-runtime/src/approval.ts:93-101 | an approval is registered exactly under the expected policy and once |
| Approvals.DecidedByEntitled | agent-runtime/src/approval.ts:130-175 | over whole runs every decision on record was asked for by the approval's own session, principal and scope, under the policy, before the expiry and for the refresh the suspended turn asked for, unless it came with the registration |
| Approvals.ReplyKeeps | agent-runtime/src/approval.ts:142-174 | a launcher's reply does, too |
| Approvals.OneInProgress | agent-runtime/src/approval.ts:221-231 | in every reachable state at most one decision is in progress, and a call that has begun finds every earlier call ended |
| Approvals.DecisionsStay | agent-runtime/src/approval.ts:139-160 | over whole runs an approval changes only by a decision that is written at most once |
| Approvals.LaunchesAtMostOnce | agent-runtime/src/approval.ts:144-160 | each approval has at most one successful approve launch, each ends in "approve", and none follows a deny |
| Approvals.AnswersAgree | agent-runtime/src/approval.ts:139-175 | all calls that reported a decision on one approval, at once or on replay, reported the same one |
| Approvals.NobodyIsStuck | agent-runtime/src/approval.ts:221-231 | while a call has not ended the earliest one can go on or waits only for its own reply or dispatch |
| Approvals.ChainIsNeeded | agent-runtime/src/approval.ts:221-231 | the same machine without the promise chain has a run from the start in which two calls launch one approval twice |
| ApprovalCoordinator.ApprovalCoordinator.RegisterRequired | agent-runtime/src/approval.ts:93-101 | an approval is registered once and only under the expected policy version |
| ApprovalCoordinator.ApprovalCoordinator.Decide | agent-runtime/src/approval.ts:221-225 | the call queues behind the newest promise of the chain |
| ApprovalCoordinator.ApprovalCoordinator.Resume | agent-runtime/src/approval.ts:130-168 | the checks in their order, then an answer, a denial or a launch |
| ApprovalCoordinator.ApprovalCoordinator.Reply | agent-runtime/src/approval.ts:142-174 | an approval is written only after a successful launch |
| ApprovalCoordinator.ApprovalCoordinator.Dispatched | agent-runtime/src/approval.ts:170-174 | the end of a dispatch ends the call and releases the next |
| Paging.BoundedPage | src/nan_fung/agent_tools/facade.py:278-339 | the full page if it fits, otherwise the longest shorter prefix that fits, read again at the same anchor |
| Paging.QueryMarketData | src/nan_fung/agent_tools/facade.py:230-276 | limit, handle and anchor checks, then the bounded page |
| Paging.ReadContinues | src/nan_fung/read_api/service.py:74-125 | filtering by the cursor's key continues exactly behind the record it was minted for, with a next cursor exactly while records remain |
| Paging.ShortenedIsLongest | src/nan_fung/agent_tools/facade.py:305-339 | the truncation loop returns the longest prefix that fits, or none fits |
| Paging.PageContinues | src/nan_fung/agent_tools/facade.py:214-339 | a page continues the anchor's records where its cursor stands, is nonempty while records remain, is the whole page if that fits and otherwise the longest shorter one that does, and is refused only if none fits |
| Paging.QueryRefuses | src/nan_fung/agent_tools/facade.py:214-276 | refused before reading exactly for a limit outside 1..20, or a handle of another scope or anchor |
| Paging.PagingIsLossless | src/nan_fung/agent_tools/facade.py:237-339 | following cursors with any limits and any truncation yields every record of one anchor once and in order |
| TurnLedger.RecordedOk | agent-runtime/src/turn-runner.ts:167-221 | in every turn's ledger numbers come from queries only, and publication data is about a reference that a query of the same anchor returned |
| TurnLedger.RecordedTold | agent-runtime/src/turn-runner.ts:167-221 | every entry is, field by field, a record that a query returned, an empty result, or a citation that a look-up returned |
| TurnLedger.RecordsAreTold | agent-runtime/src/turn-runner.ts:174-188 | every record of every well-formed query has its entry |
| TurnLedger.CitationsAreTold | agent-runtime/src/turn-runner.ts:202-221 | every citation about a reference that an earlier query returned has its entry |
| TurnLedger.Ledger.AddQueryLedger | agent-runtime/src/turn-runner.ts:167-189 | one entry for each record, or one that remembers an empty result; the array stays what the turn's calls recorded, with the ledger invariant |
| TurnLedger.Ledger.FindQuery | agent-runtime/src/turn-runner.ts:208-210 | the first query entry that backs the citation |
| TurnLedger.Ledger.EnrichQueryLedger | agent-runtime/src/turn-runner.ts:202-221 | one citation entry for each citation that a query backs, with the same invariant |
| HostLedgers.NumericUnique | agent-runtime/src/finalizer.ts:194-213 | the entry behind a reference is the only one with a number for it |
| HostLedgers.ReadHostLedger | agent-runtime/src/finalizer.ts:194-221 | the ledger is accepted exactly when all entries share one anchor and no reference has two numbers or two publication records; the tables are then exact |
| Finalizer.ResolveExact | agent-runtime/src/finalizer.ts:214-221 | a reference resolves as soon as both halves are known, to the only entry with its number, under the one anchor |
| Finalizer.ResolveReferences | agent-runtime/src/finalizer.ts:349-368 | accepted exactly when every fact lists its references once and all are known; the second anchor check can never fail |
| Finalizer.CheckDraft | agent-runtime/src/finalizer.ts:292-316 | accepted exactly within the limits, with distinct claim ids and known fact ids |
| Finalizer.FinalizeBrief | agent-runtime/src/finalizer.ts:223-290 | a draft is finalized exactly when draft, guards, ledger and citations allow it, to the brief built from the ledger |
| Finalizer.GroundedNumbers | agent-runtime/src/finalizer.ts:223-290 | an accepted brief has one anchor; each fact is cited; each number is in all six fields that of the only entry for its citation; lineage names exactly the cited entries' observations; sources are the cited references, once each, with the only publication record of each |
| Finalizer.StatusIsHonest | agent-runtime/src/finalizer.ts:271-277 | for every finalizable draft: a brief with facts is complete exactly when the draft said so and no cited number is stale or degraded; one without keeps the draft's status unless a planning query found nothing, which makes it unavailable; the draft's status is never upgraded |
| Finalizer.GroundedInQueries | agent-runtime/src/turn-runner.ts:167-221 | with the ledger a turn recorded, the entry behind every number is a query entry, and every publication record is about a reference that a query of the same anchor and capability returned |
| Finalizer.BriefTellsTools | agent-runtime/src/finalizer.ts:223-290 | from end to end every number of an accepted brief is, field by field, that of a record which a query of the turn returned under the brief's anchor for the cited reference, and every source a citation that a look-up returned |
| Finalizer.BriefCarries | agent-runtime/src/finalizer.ts:228-290 | title, inferences, confidences, warnings, publication date and limitations of a brief, each with its exact condition |
| Finalizer.AcceptedIsGuarded | agent-runtime/src/finalizer.ts:223-316 | an accepted draft has at most twelve facts and eight inferences, distinct claims and inferences about its own facts, and passed both guards, the second for exactly the capabilities behind its cited numbers |
| Projection.AliasInjective | agent-runtime/src/browser-artifact.ts:28 | different sources get different aliases |
| Projection.AliasSources | agent-runtime/src/browser-artifact.ts:23-38 | refused exactly for a repeated reference; otherwise source i becomes alias i + 1 |
| Projection.ProjectMarketBrief | agent-runtime/src/browser-artifact.ts:19-57 | refused exactly for a repeated or unknown reference; otherwise the aliased brief |
| Projection.ProjectArtifact | agent-runtime/src/browser-artifact.ts:9-17 | unsupported exactly when the projection fails or its text leaks a handle |
| Projection.ProjectionTotal | agent-runtime/src/browser-artifact.ts:19-116 | for every accepted brief no duplicate check and no alias look-up fails |
| Projection.ProjectionFaithful | agent-runtime/src/browser-artifact.ts:19-116 | looking an alias up in the projection gives the source that the raw reference gives in the brief; everything else is carried over |
| Projection.AliasesBijective | agent-runtime/src/browser-artifact.ts:23-38 | aliases and cited references are in bijection |
| JsonText.CompactText | src/nan_fung/ingestion/canonical.py:179-188 | nothing stands around a comma or a colon |
| JsonText.PlainText | src/nan_fung/ingestion/canonical.py:179-188 | only quotes, backslashes and control characters are escaped |
| JsonText.StringRoundTrip | src/nan_fung/ingestion/canonical.py:179-188 | an escaped string literal is read back as the string, whatever follows |
| JsonText.ReadPrinted | src/nan_fung/ingestion/canonical.py:179-209 | a printed value is read back as itself, whatever canonical text follows |
| JsonText.DocumentRoundTrip | src/nan_fung/ingestion/canonical.py:179-209 | a printed document is read back as the value it was printed from (RFC 8259 text) |
| CanonicalJson.MembersExact | src/nan_fung/ingestion/canonical.py:162-173 | a mapping is accepted exactly when all members are and no two keys collide after normalization, and its entries are exactly the normalized members |
| CanonicalJson.NormalizeExact | src/nan_fung/ingestion/canonical.py:137-176 | a value is refused exactly when it holds a float, another type, another key or keys alike in form C; otherwise the canonical value says the same, scalar by scalar and member by member |
| CanonicalJson.NormalizeMapping | src/nan_fung/ingestion/canonical.py:162-173 | the loop builds exactly that dictionary |
| CanonicalJson.NormalizeIdempotent | src/nan_fung/ingestion/canonical.py:137-176 | normalizing twice is normalizing once |
| CanonicalJson.CanonicalRoundTrip | src/nan_fung/ingestion/canonical.py:179-209 | parsing canonical text returns the normalized value |
| CanonicalJson.ParseNormalizes | src/nan_fung/ingestion/canonical.py:191-209 | parsing any text is reading it and normalizing what was read: the duplicate-key hook changes neither outcome nor value |
| CanonicalJson.TextIsIdentity | src/nan_fung/ingestion/canonical.py:179-188 | two values have the same text exactly when they normalize to the same value |
| CanonicalJson.KeyOrderIrrelevant | src/nan_fung/ingestion/canonical.py:179-188 | reordering object members at any depth changes neither normalization nor text nor refusal |
| CanonicalJson.ThawOfFrozen | src/nan_fung/ingestion/canonical.py:212-234 | thawing a frozen value gives its normalization |

## Left out
- JobStore.JobStore.Enqueue: the registry look-up, secret redaction (taken to leave `_refresh_control` intact) and audit rows are outside the model; a definition is passed as a value.
- ObservationStore.ObservationStore.PersistEvidence: only the evidence row and its required flag are kept; artifact storage, provenance and retention are not.
- SseHub.SseHub.Emit: the event's JSON text and byte length are parameters, and the recovery store is not part of the model.
- ApprovalCoordinator.ApprovalCoordinator.Dispatched: what a dispatch does while it runs (queue, resumed turn, projected events) is not modelled; it may end or throw at any time.
- Paging.QueryMarketData: cursor handles and read cursors are unforgeable values; their HMAC, expiry and query fingerprints are represented by the scope they carry. The records of one anchor are assumed not to change, to be sorted newest first and to have distinct keys.
- Finalizer.FinalizeBrief: the numeric guard and the claim guards are predicates of the draft and the cited capabilities; the raw JSON shape checks of `parseDraft` and claim ids named after JavaScript prototype members are not modelled.
- JsonText.DocumentRoundTrip: `\u` escapes of surrogates are treated as unreadable, since strings here hold Unicode scalar values only.
- CanonicalJson.NormalizeIdempotent: Unicode form C is a parameter of which only idempotence is used; dates and timestamps reach it as their printed text.
- The schedule tick, recurrence rules, backfill wrapper and manual-evidence import, which only call `enqueue`, and registry synchronisation.
- The agent-refresh approval tables (`create_agent_refresh_approval` and its relatives).
- London time-zone tables: the day of an instant is a function parameter.
- HTTP acquisition, subprocesses, datasource parsers, the browser application, backup and the read-API views: input and output around the modelled core.
- Session mutual exclusion across a cancel, which the code does not keep.
