# ClawFlow: verified models of the coordinator and its protocols

This project states, in Dafny 4.11, what ClawFlow's coordinator and the protocols around it do, and proves what they
guarantee. `dafny verify dfyconfig.toml` checks all of it.

## What is modelled

**The coordinator.** Workers take tasks under leases with a fencing token, report results, and the controller applies
the effects of each report to a forge. `TaskModel` holds the rows, `Transactions` and `Queue` give the effect of every
store transaction as a function of the rows it found, `Columns` and `Intake` say what these functions promise in
literal terms of the columns, and `Store` is the store itself: a class with the tables `tasks`, `attempts`, `intents`,
`workers` and `inbox`, changed in place by one method per transaction, each proved to commit exactly the rows of its
transaction function or to leave the tables alone and return its error. `Protocol` interleaves the transactions of any
number of workers, controllers' appliers, crashes, clock readings and remote calls: an applier takes a snapshot of the
open intents under the task's lock, calls the forge, and commits each answer in a transaction of its own; between any
two of these steps any other transaction may run, and the controller may crash. All theorems about runs hold for every
interleaving, every clock reading (clocks need not be monotone) and every answer of the callbacks that meets their
contract. `Invariants` and `Safety` hold the invariants of tasks, attempt rows, intents and tokens; `Effects` the
theorems about remote writes; `Assignment` those about who owns a task and how many tasks may be leased; `Requests`
those about repeated requests; `Application` those about applying, reporting and finalizing under one token;
`Histories` those about where leases, deadlines, closed tasks and intents come from; `Examples` holds reachable states
and runs in which the weaker promises below fail.

**The execution log.** `JobLog` has the two log tables as a class with `AppendLog`, `ReadLog` and `PurgeLogs`.
`LogUpload` proves that after any order of pages the stored log is what one upload would have stored, `LogRules` which
pages are refused, `LogReader` that following the read cursor returns every row once even while the log grows.

**The event reader.** `EventProtocol` is the automaton over decoded events and an independent definition of the
language it accepts. `EventScan` reads a file byte by byte, `EventStream` says what that means for the file as a
whole, and `EventTail` is the incremental reader as a class: polls, chunks of unpredictable size, line splitting.

**Smaller protocols.** `KeyedMutex` interleaves the lock function and the unlock closure instruction by instruction;
`AuditPurge` is the batched purge of the audit table; `Review`, `Findings`, `ReviewLaws` and `Reports` (with `Texts`,
and `ReviewRules` and `ReportRules` for the rules in terms of fields) are the rules of acceptance reviews, the
consolidation of findings and the application of a report; `ConfigMerge` is the last-write-wins merge of repository
entries.

## Where the code differs from what it promises or suggests

- `FinishResult` closes a task without asking whether its intents were applied. `Invariants.FinishResultGate` says exactly
  when that keeps the intent gate, `Examples.FinishCanBreakGate` shows it breaking the gate in a reachable state. Tasks
  that are not closed meet the gate in every run (`Safety.ActiveTasksGated`), closed ones in runs in which no `FinishResult`
  closes a task over an unapplied intent (`Safety.ReachableGated`).
- A retained durable interruption keeps its token and may report again under it. Between two reports of one token lies such
  a retention (`Application.ReportedOncePerRetention`), so a token of a non-durable task has at most one report
  (`Application.OneReportPerToken`); `Examples.DurableReportsTwice` is a run in which a durable task has two.
- A forge write can succeed and yet never be recorded: if another task holds the pull request number of the answer, the
  unique index refuses the commit, on every retry, and the report cannot be finalized. With successful callbacks this is
  the only way an application fails (`Application.DrainSucceedsExactly`); `Examples.AppliedCanBeUnrecordable` is such a
  reachable state.
- An enqueue request can fail although no duplicate was found: an implementation submitted for a pull request collides with
  another implementation of its issue in a unique index that the duplicate search does not cover
  (`Requests.InsertRejectedExactly`, and `Examples.InsertCanBeRejected` in a reachable state).
- A worker that lost the answer to its last page, and repeats it, is refused if that page carried events and ended the
  stream (`LogUpload.RepeatedPageStoresNothing`, `LogUpload.LastPageCanBeRefused`); nothing is stored twice or lost.
- A stream that has ended still takes empty pages that rewrite its reason, state, completeness, summary, backend, model or
  unset run id. `LogUpload.EndedIsFrozen` gives the exact outcome, `LogUpload.DescriptionKeptExactly` the pages that change
  nothing, `LogUpload.EndedCanBeRedescribed` one that does.
- Under evidence schemas other than 1 a report that calls itself blocked is stored as blocked although it demonstrates a
  defect: `Reports.DemonstratedDefectFails` has the exact verdict, `Reports.DefectCanStayBlocked` such a report.
- The last identity check of `finishStream` can never refuse (`EventProtocol.FinishAcceptsExactly`).
- Consolidating findings can make an accepted report unacceptable: `ReviewLaws.ConsolidationKeepsValid` gives the exact
  condition, `ReviewLaws.ConsolidationCanSpoil` a concrete report, `ReviewLaws.WhiteSpaceTwinsSpoil` a spoiled report for
  every plan with two requirements that differ only in surrounding white space, and `ReviewLaws.SeparableStaysValid` a
  condition on plans that excludes it.
- The configuration upload has no place for six saved fields of a repository entry (`acceptance_required`,
  `acceptance_overlap_ci`, `testing_sop_required`, `testing_sop_digest`, `required_capabilities`, `primary_project`) and two
  that live for one scheduling pass; a newer remote entry resets them although the comment at
  `internal/config/sync.go:85-86` calls the local path the only machine-local field. The conditions are exact in
  `ConfigMerge.DownloadOfUpload` and `ConfigMerge.UnsyncedFieldsKeptExactly`.
- The merge's comment (`internal/config/sync.go:163-164`) promises that any timestamped entry wins over one without a
  timestamp. Applying a download stamps such local entries first (`internal/config/sync.go:358-363`), and then they win over
  every remote entry written before that moment (`ConfigMerge.MigrationPromotesLegacy`).

## Model

| member | source | states |
|---|---|---|
| `Store.Store.Heartbeat` | internal/coordinator/store.go:483-485 | renews only an unexpired lease held under this token, to 120 seconds after the first of two clock readings; a durable task's long lease is left as it is; otherwise refused with no row changed |
| `Store.Store.ReportProgress` | internal/coordinator/store.go:493-509 | moves the last event time forward only, on the controller's clock, for a live lease; ages out of range are refused |
| `Store.Store.Finish` | internal/coordinator/store.go:510-524 | Complete and Fail: closes a live lease with its result and ends exactly the attempt rows of that token |
| `Store.Store.LeaseUpdate` | internal/coordinator/store.go:435-461 | the guarded update: only the owner under the current token, before expiry unless a durable task reports |
| `Store.Store.AcceptIntents` | internal/coordinator/effects.go:77-152 | the loop accepts exactly the reports whose effects are all permitted, compatible with the stored intents and about one pull request, and stores each effect's own request and nothing else |
| `Store.Store.AcceptEffect` | internal/coordinator/effects.go:115-151 | one effect: inserted, re-pended for a pull request under a newer token, or refused when its digest differs |
| `Store.Store.CheckEffect` | internal/coordinator/effects.go:91-110 | an effect stays in the task's repository, and is a complete pull request or aims at the task's own issue or pull request |
| `Store.Store.AcceptResult` | internal/coordinator/store.go:619-624 | succeeds exactly for a reportable lease and an acceptable report; then report, digest, attempt row and each effect's intent are stored together, else no row changes |
| `Store.Store.Release` | internal/coordinator/store.go:530-550 | an unreported lease goes back to the queue without its attempt row and without consuming an attempt |
| `Store.Store.RecoverExecution` | internal/coordinator/durable.go:90-137 | the same worker continues an interrupted durable task under the next token; repeating the request returns the lease unchanged |
| `Store.Store.AdoptLegacyInterruption` | internal/coordinator/legacy_recovery.go:16-87 | a legacy cancelled report is taken over once, by exact content, into a new lease of the same worker |
| `Store.Store.Cancel` | internal/coordinator/effects.go:281-301 | cancels any task not yet cancelled: new token, open intents failed, open attempt rows ended |
| `Store.Store.RetireClosedAcceptance` | internal/coordinator/acceptance.go:121-141 | cancels an unreported acceptance task only for the holder of its lease |
| `Store.Store.CancelSupersededAcceptance` | internal/coordinator/acceptance.go:70-118 | one scan cancels exactly the active acceptance tasks of the pull request with another contract, in whatever order it visits them |
| `Store.Store.EndInactiveInterruptions` | internal/coordinator/inactive.go:56-102 | one scan ends exactly the retained durable interruptions whose issue was closed and whose intents are all applied, and returns them |
| `Store.Store.ExpireLeases` | internal/coordinator/store.go:555-598 | one scan expires exactly the non-durable leases whose deadline is not after the reading and returns them; every other row is unchanged, and no overdue non-durable lease is left |
| `Store.Store.FinishResult` | internal/coordinator/store.go:625-641 | closes a leased task with a stored result for its token holder, without looking at its intents |
| `Store.Store.RecordApplicationFailure` | internal/coordinator/effects.go:410-431 | counts failed applications of a waiting report and fails the task with its open intents at the third |
| `Store.Store.Walk` | internal/coordinator/store.go:366-398 | the skip loop ends at a task that no other task it would not skip comes before by priority, position, creation or id, or finds none |
| `Store.Store.GrantLease` | internal/coordinator/store.go:399-429 | leases the chosen task under the next token with a new attempt row, or refuses and changes nothing |
| `Store.Store.CheckCapacity` | internal/coordinator/store.go:338-365 | the refusals before the walk, in the program's order |
| `Store.Store.Claim` | internal/coordinator/store.go:310-433 | a claim decides as specified: replay, refusal, no task only when no candidate passes, or a grant of the task that is first by smallest priority, position, creation and id; nothing else changes |
| `Store.Store.CheckCoordination` | internal/coordinator/store.go:245-268 | the snapshot in the payload equals the active tasks of the repository, taken from the same rows |
| `Store.Store.InsertPrepared` | internal/coordinator/store.go:232-286 | duplicate, snapshot check and insertion are one atomic step |
| `Store.Store.RegisterWorker` | internal/coordinator/store.go:123-141 | refuses nameless or slotless workers; otherwise replaces one worker's row, but never its pause |
| `Store.Store.SnapshotEffects` | internal/coordinator/effects.go:173-209 | refuses unless the report waits at this token; returns its open intents in position order |
| `Store.Store.CommitEffect` | internal/coordinator/effects.go:214-255 | commits one answer on the rows as they are now: the intent applied or uncertain, the number of the answer, if positive, as the task's pull request, head mismatch exactly when the answer says so; or refused with no row changed |
| `Store.Store.ApplyEffects` | internal/coordinator/effects.go:166-267 | the loop leaves the tables and returns the error of draining the snapshot against these answers; completed, it leaves the last positive number answered, or the task closed for a mismatched head |
| `Store.Store.CommitFinalization` | internal/coordinator/effects.go:331-397 | only when every intent is applied: retained, requeued under a new token with no owner and no result, or else failed exactly when called so and done otherwise; no other column or row changes |
| `Queue.PrecedesIsStrictOrder` | internal/coordinator/store.go:369 | the queue order (priority, position, creation, id) is a strict total order, so the first candidate is unique |
| `Columns.PrecedesColumns` | internal/coordinator/store.go:369 | a task precedes another exactly when its priority, position, creation and id, in this order, are not larger |
| `Columns.TextOrder` | internal/coordinator/store.go:369 | ids are ordered by the first character in which they differ, a proper prefix first |
| `Columns.FirstColumns` | internal/coordinator/store.go:366-398 | the task a claim leases is queued, not passed over, and comes no later than any other such task |
| `Columns.SkippedColumns` | internal/coordinator/acceptance.go:17-38 | a task is passed over exactly when its repository is at its limit or the worker lacks a tag or role, or developed what it would review |
| `Columns.RefusalColumns` | internal/coordinator/store.go:338-365 | the refusals before the walk, in order, by counts of the leased rows |
| `Columns.GrantColumns` | internal/coordinator/store.go:399-427 | the lease, deadline, payload and attempt row of a granted task, and when leasing it fails |
| `Columns.EnqueueColumns` | internal/coordinator/store.go:153-286 | an inserted task is the request's columns, queued and without history; a request that inserts nothing names a remembered task or active same work |
| `Columns.ConflictColumns` | internal/store/coordinator.go:24 | what the two unique indexes of active tasks forbid |
| `Columns.CommitColumns` | internal/coordinator/effects.go:220-255 | which answers can be recorded, and the intent, pull request, state, attempt rows and failed intents they leave |
| `Columns.FinalizeColumns` | internal/coordinator/effects.go:331-397 | when a report can be finalized, and which of retained, requeued, failed and done the task becomes |
| `Columns.ExpireColumns` | internal/coordinator/store.go:555-598 | an overdue non-durable lease costs an attempt, its row is ended as expired and its open intents fail; the third fails the task |
| `Columns.SweepColumns` | internal/coordinator/store.go:555-598 | the sweep takes every overdue non-durable lease and leaves all other rows as they are |
| `Columns.AcceptColumns` | internal/coordinator/store.go:435-475 | who may report and until when, and how the attempt row records the outcome |
| `Columns.FinishColumns` | internal/coordinator/store.go:510-524 | done or failed as called, with the attempt rows of the token ended alike |
| `Columns.HeartbeatColumns` | internal/coordinator/store.go:483-485 | who may renew, and to which deadline |
| `Columns.ProgressColumns` | internal/coordinator/store.go:493-509 | the last event moves to the reported age before the reading, never back |
| `Columns.ReleaseColumns` | internal/coordinator/store.go:530-550 | what a release gives back, and whose |
| `Columns.RecoverColumns` | internal/coordinator/durable.go:90-137 | who may recover which lease, and the next attempt it opens |
| `Columns.AdoptColumns` | internal/coordinator/legacy_recovery.go:16-87 | which report may be adopted, and the next attempt it opens |
| `Columns.CancelColumns` | internal/coordinator/effects.go:281-301 | cancellation fails the open intents and ends the open attempts under a new token |
| `Columns.SupersedeColumns` | internal/coordinator/acceptance.go:70-118 | which acceptance tasks a new contract withdraws |
| `Columns.RetireColumns` | internal/coordinator/acceptance.go:121-141 | whose acceptance task can be withdrawn |
| `Columns.EndInactiveColumns` | internal/coordinator/inactive.go:26-102 | which retained interruptions end, and that their token stays |
| `Columns.RecordFailureColumns` | internal/coordinator/effects.go:410-431 | the third failed application fails the task and its open intents, earlier ones only count |
| `Invariants.AttemptRowsBounded` | internal/coordinator/store.go:552-577 | a task has at most MaxInfrastructureAttempts attempt rows |
| `Invariants.OpenAttemptFits` | internal/coordinator/store.go:425-427 | the attempt row of a new lease hits neither the number key nor the epoch key |
| `Invariants.ReopenFits` | internal/coordinator/durable.go:106-133 | after the patches of a recovery or adoption the next attempt row still fits |
| `Invariants.GateConsequences` | internal/coordinator/effects.go:312-342 | a done task has only applied intents; no open intent of another epoch can block finalization |
| `Invariants.AcceptFromKeeps` | internal/coordinator/effects.go:91-152 | accepting any list of effects, duplicates and repeated pull requests included, keeps keys, epochs and strict positions of the open intents |
| `Intake.AcceptedExactly` | internal/coordinator/effects.go:77-151 | a report is accepted if and only if it decodes, has at most 100 effects, each permitted and compatible with the stored intents, and all pull requests it asks for are one; then exactly the requested intents are written |
| `Invariants.CellTxKeepsCore` | internal/coordinator/store.go:435-598 | every single-task transaction keeps the attempt budget, the lease shape and the attempt rows |
| `Invariants.CellTxKeepsGate` | internal/coordinator/effects.go:77-431 | every single-task transaction but FinishResult keeps the intent gate |
| `Invariants.FinishResultGate` | internal/coordinator/store.go:625-641 | FinishResult keeps the gate if and only if all intents are applied |
| `Examples.FinishCanBreakGate` | internal/coordinator/store.go:625-641 | in a reachable state that meets the gate, FinishResult closes a task over an intent that was never applied |
| `Invariants.CommitKeepsGate` | internal/coordinator/effects.go:214-255 | committing an answer keeps the gate, a head mismatch included |
| `Invariants.FinalizeKeepsGate` | internal/coordinator/effects.go:331-397 | finalizing keeps the gate, a retained interruption included |
| `Invariants.GrantKeepsCore` | internal/coordinator/store.go:399-427 | a grant keeps budget, lease shape and attempt rows |
| `Protocol.StepOnTask` | internal/coordinator/effects.go:166-267 | in every step of the system each existing task undergoes at most one transaction, and only enqueueing adds tasks |
| `Safety.ReachableSound` | internal/coordinator/store.go:310-598 | in every reachable state: attempt below the budget while active, at most that many rows, and a live lease with its row |
| `Safety.ReachableGated` | internal/coordinator/effects.go:77-431 | in every state reachable without a FinishResult over unapplied intents: open intents belong to a waiting report of their epoch, failed ones to a closed task |
| `Safety.ActiveTasksGated` | internal/coordinator/effects.go:77-431 | in every reachable state, whatever FinishResult closed: the open intents of a task that is not closed belong to a waiting report of their epoch, and none has failed |
| `Safety.RunAdvances` | internal/coordinator/store.go:310-598 | over any stretch of a run identity is fixed, tokens never fall, closed work stays closed, cancelled tasks never change and the durable flag stays |
| `Safety.OneWorkerPerToken` | internal/coordinator/store.go:417-421 | over a whole run one token of a task belongs to at most one worker |
| `Safety.StaleCallRefused` | internal/coordinator/store.go:449-461 | a call with a token the task has passed is refused, or is a recovery's unchanged replay |
| `Safety.OldTokenIsPowerless` | internal/coordinator/effects.go:269-301 | once a later token was issued or the task cancelled, calls under the old token change nothing for the rest of the run |
| `Histories.ClosedOnlyBy` | internal/coordinator/store.go:510-641 | over every run a closed task was closed by a step that may: done only by a completion, result or finalization called without failure, failed, cancelled and mismatched only by their causes |
| `Histories.LeaseEndsOnlyBy` | internal/coordinator/store.go:435-598 | over every run a lease ends only by its holder's call, a cancellation, or a reading not before its deadline |
| `Histories.EarlySweepsSpare` | internal/coordinator/store.go:555-565 | sweeps at readings before the deadline leave the lease and all rows of its task as they are, however many |
| `Histories.DeadlineOrigin` | internal/coordinator/store.go:399-421 | every deadline in a reachable state was set by a grant, the holder's heartbeat, a recovery, an adoption or a retention, at its reading plus the documented time |
| `Histories.IntentsAreAskedFor` | internal/coordinator/effects.go:91-151 | every intent in a reachable state is an effect of a report accepted earlier, aimed at the task's own repository and number |
| `Safety.LiveLeaseHasOneRow` | internal/coordinator/store.go:425 | a live lease has exactly one attempt row of its token, numbered next and owned by the lease's owner |
| `Safety.AttemptsNeverCollide` | internal/coordinator/durable.go:106-133 | no claim, recovery or adoption in a reachable state is refused by the keys of the attempt table |
| `Effects.EffectsAtMostOnce` | internal/coordinator/effects.go:166-267 | over every run with crashes, retries and cancellation: each marker is written at most once, and every applied intent was written |
| `Effects.ReachableKeyed` | internal/coordinator/effects.go:111-151 | intents keep the key their effect determines, in every reachable state |
| `Effects.MarkersStayDistinct` | internal/coordinator/effects.go:115-121 | tasks whose markers do not meet after a step had none in common before it: intents are never deleted and keep their markers |
| `Effects.CallsStayTruthful` | internal/coordinator/effects.go:211-216 | what an applier knows about the forge stays true until it commits |
| `Effects.EffectsInOrder` | internal/coordinator/effects.go:197-211 | over every run the intent about to be written is the first of its task not applied; all earlier ones were committed as applied |
| `Effects.OnlyHeadsAreWritten` | internal/coordinator/effects.go:211-212 | the forge's log grows only by the head of an applier's queue |
| `Effects.OtherCallsUnaffected` | internal/coordinator/effects.go:62-63 | a write for one task is never the write another task's applier is about to make |
| `Assignment.DurableQuarantine` | internal/coordinator/store.go:564-567 | over every run a durable task reaches another worker only after a step that took it from its worker: that worker's release or the finalization of its report |
| `Assignment.OwnerLeavesOnlyByHandover` | internal/coordinator/effects.go:366-392 | no other transaction takes a durable task from its owner |
| `Assignment.CapacityRespected` | internal/coordinator/store.go:338-389 | with fixed limits no reachable state exceeds the platform, repository or worker limit |
| `Assignment.GrantHasRoom` | internal/coordinator/store.go:338-389 | the checks of a claim leave room in each dimension the grant uses |
| `Requests.OneTaskPerClaim` | internal/coordinator/store.go:324-337 | a worker that always claims with identifiers owns at most one task under each of them |
| `Requests.RepeatedClaimReplays` | internal/coordinator/durable.go:141-147 | while the task is unreported, repeating the claim returns it and changes nothing |
| `Requests.RepeatedRecoveryReplays` | internal/coordinator/durable.go:97-104 | repeating a recovery with the old token, any number of steps later, returns the same unreported lease unchanged |
| `Requests.InterruptedRowStays` | internal/coordinator/durable.go:97-104 | the interrupted attempt row that a replay looks for survives as long as the token |
| `Requests.SlotsStayUnique` | internal/store/coordinator.go:24 | in every reachable state no two active tasks share a queue slot |
| `Requests.DuplicateIsUnique` | internal/coordinator/store.go:239-244 | the task a request is deduplicated against is the only one there can be |
| `Requests.InsertRejectedExactly` | internal/store/workflow.go:9 | without a duplicate, insertion fails if and only if another implementation of the issue is active and the request names a pull request |
| `Examples.InsertCanBeRejected` | internal/store/workflow.go:9 | in a reachable state a valid request without a duplicate cannot be inserted |
| `Requests.RedeliveryIsIdempotent` | internal/coordinator/store.go:223-238 | a delivered event names the same task for the rest of the run |
| `Requests.OneEnqueuePerSnapshot` | internal/coordinator/store.go:245-268 | over a run, two enqueues from one assessment of the active tasks both insert only if the task of the first has closed in between |
| `Requests.SnapshotIsUsedUp` | internal/coordinator/store.go:245-268 | an inserted request uses up its snapshot: a second one with it is not inserted at once after |
| `Requests.GrantSucceedsExactly` | internal/coordinator/store.go:399-427 | leasing a pending task fails only for an unknown acceptance policy or, on a durable worker, a timeout out of range |
| `Requests.RepeatedReportAcknowledged` | internal/coordinator/durable.go:43-47 | a report repeated by its owner is acknowledged for the rest of the run, until another report of the token or a later token takes its place |
| `Application.DrainOpensGate` | internal/coordinator/effects.go:211-266 | when every callback succeeds and no answer names a pull request another task holds, nothing is left to apply and the report can be finalized |
| `Application.DrainSucceedsExactly` | internal/coordinator/effects.go:236-241 | with successful callbacks an application ends without error if and only if no answer names a pull request another task holds, and else with the index's conflict |
| `Application.DrainRecordsNumber` | internal/coordinator/effects.go:238-243 | a completed application of successes changes only the task's pull request number, to the last positive one answered |
| `Application.ApplicationOpensGate` | internal/coordinator/effects.go:173-266 | from the snapshot of any waiting report: successful callbacks complete it if and only if no answer conflicts, and then it can be finalized and carries the last number answered |
| `Examples.AppliedCanBeUnrecordable` | internal/coordinator/effects.go:236-241 | a reachable state in which a successful write cannot be recorded and its report cannot be finalized |
| `Application.DrainStopsAtFailure` | internal/coordinator/effects.go:259-261 | when the n-th callback is the first to fail, after answers that can be recorded: earlier intents applied, that one uncertain, later ones untouched, and the report still waiting |
| `Application.DrainStopsAtMismatch` | internal/coordinator/effects.go:244-266 | the first mismatched head ends an application without error: the task closed, intents up to it applied, the rest failed |
| `Application.SettledUntilReported` | internal/coordinator/effects.go:366-392 | a finalized token becomes applicable again only through another report under it |
| `Application.FinalizedOncePerReport` | internal/coordinator/effects.go:307-398 | two finalizations of one token have another accepted report of that token between them |
| `Application.ReportedOncePerRetention` | internal/coordinator/effects.go:366-373 | two accepted reports of one token have a committed retention of a durable interruption between them |
| `Application.OneReportPerToken` | internal/coordinator/store.go:449-453 | over a whole run a token of a non-durable task has at most one accepted report |
| `Examples.DurableReportsTwice` | internal/coordinator/effects.go:366-373 | a run in which a durable task reports twice under one token, with a retention between |
| `JobLog.ValidatePage` | internal/coordinator/joblog.go:97-117 | accepts exactly the pages whose header is bounded in bytes and whose events ascend strictly inside the window |
| `LogRules.PageRules` | internal/coordinator/joblog.go:97-117 | the bounds of a page's header and the order of its events |
| `LogRules.AppendRules` | internal/coordinator/joblog.go:124-200 | the refusals of a page for a stored stream in order, and the position, end and rows of an accepted one |
| `LogRules.FirstPageRules` | internal/coordinator/joblog.go:151-165 | a first page opens one of at most 16 streams of the attempt, from the beginning only |
| `JobLog.TaskLog.StoreEvents` | internal/coordinator/joblog.go:201-222 | counts duplicates and stores exactly those unseen events the limits leave room for, with fresh ids in order |
| `JobLog.TaskLog.AppendLog` | internal/coordinator/joblog.go:124-234 | one page as one transaction: refused or answered without change, or stored with the stream's new counters |
| `JobLog.TaskLog.PurgeLogs` | internal/coordinator/joblog.go:367-379 | removes exactly the rows of the done, failed and cancelled tasks among those not updated since the cutoff, and marks their streams |
| `JobLog.TaskLog.ReadRows` | internal/coordinator/joblog.go:347-362 | as many rows after the cursor as both limits allow, a single large one included, and whether more remain |
| `JobLog.TaskLog.ReadLog` | internal/coordinator/joblog.go:282-363 | epoch 0 means the newest; unknown epochs and bad cursors read nothing |
| `JobLog.LeaseHasItsRow` | internal/coordinator/joblog.go:140-149 | in a reachable coordinator state the count of attempt rows never refuses a page |
| `LogUpload.KeptIsGreedyPrefix` | internal/coordinator/joblog.go:211-221 | of any events arriving in order the stored ones are a prefix, cut only when a limit is reached, with exact counters |
| `LogUpload.AnyOrderOfPagesIsOneUpload` | internal/coordinator/joblog.go:119-123 | after any order of honest pages, repeats, jumps and purges every stream holds what one upload up to its position stores |
| `LogUpload.StoredIsBoundedPrefix` | internal/coordinator/joblog.go:14-22 | the stored log is a prefix of the transcript within the limits, complete unless limited, and limited if and only if events were dropped |
| `LogUpload.EndedIsFrozen` | internal/coordinator/joblog.go:170-195 | after the end only a purge removes events; counters, position and worker never change, and an accepted page does nothing but replace the descriptive columns |
| `LogUpload.DescriptionKeptExactly` | internal/coordinator/joblog.go:176-195 | a page leaves the descriptive columns alone if and only if each of its fields is absent where that is possible or repeats the stored one |
| `LogUpload.EndedCanBeRedescribed` | internal/coordinator/joblog.go:170-195 | a run of pages after which an ended stream accepts a page that rewrites its reason |
| `LogUpload.RepeatedPageStoresNothing` | internal/coordinator/joblog.go:167-175 | an accepted page repeated after any further pages and purges stores nothing: acknowledged with all its events as duplicates, or refused exactly when its stream was purged or has ended against it |
| `LogUpload.OldPageStoresNothing` | internal/coordinator/joblog.go:167-175 | any page up to the stream's position stores nothing, and leaves the position and the counters alone |
| `LogUpload.ImmediateRepeatChangesNothing` | internal/coordinator/joblog.go:167-175 | repeated at once a page leaves both tables as they are, and is refused if and only if it is an end page with events |
| `LogUpload.LastPageCanBeRefused` | internal/coordinator/joblog.go:170-172 | a concrete last page that is accepted and, repeated, refused |
| `LogReader.NothingMissedOrRepeated` | internal/coordinator/joblog.go:347-361 | rows received and rows still selected are together every row once, in order, whatever was appended meanwhile |
| `LogReader.ReaderIsComplete` | internal/coordinator/joblog.go:347-361 | following the cursor until no more is announced returns every row of the epoch exactly once |
| `LogReader.ReaderStops` | internal/coordinator/joblog.go:353-357 | a read that announces more returned a row, so a table at rest is exhausted within as many reads as rows |
| `EventProtocol.AcceptsExactlyLegal` | internal/execution/events.go:117-189 | the automaton accepts exactly start, progress*, at most one last final, numbered from 1, with one identity and a coherent end |
| `EventProtocol.FinishAcceptsExactly` | internal/execution/events.go:200-214 | finishing accepts exactly when the stream ends in a final event the result repeats; the last check never fires |
| `EventTail.EventReader.AcceptLines` | internal/execution/events.go:88-103 | splitting the buffer into lines gives the state of reading it byte by byte |
| `EventTail.EventReader.Take` | internal/execution/events.go:82-104 | one read of any size gives the state of the byte-by-byte scan of everything consumed |
| `EventTail.EventReader.ReadToEnd` | internal/execution/events.go:71-114 | any sequence of read sizes gives the scan of the whole file; an oversized file fails for its length or for an earlier fault |
| `EventTail.EventReader.Poll` | internal/execution/events.go:36-115 | missing, replaced, exposed and shortened files are told apart; otherwise events, first fault and remainder are those of the bytes; a file over 32 MiB fails for its length or for an earlier fault |
| `EventTail.EventReader.Finish` | internal/execution/events.go:190-199 | succeeds if and only if the file was opened and what was consumed is whole lines of a legal stream ending in the final event the result repeats; each error says which part is missing |
| `EventScan.ScanJoins` | internal/execution/events.go:81-104 | scanning a file in two pieces is scanning it at once |
| `EventScan.PartialLine` | internal/execution/events.go:101-103 | bytes without a newline only extend the unfinished line until it reaches the limit |
| `EventStream.LinesRebuild` | internal/execution/events.go:89-99 | the accepted lines and the remainder rebuild the bytes read |
| `EventStream.ScanAcceptsExactly` | internal/execution/events.go:81-120 | a file is read without fault if and only if its lines are short, decode and form a legal stream, and then the state is what they say |
| `EventStream.LengthFaultExactly` | internal/execution/events.go:93-103 | the length fault occurs if and only if a line reaches the limit after a faultless beginning |
| `EventStream.ChunksDoNotMatter` | internal/execution/events.go:71-114 | two splits of the same bytes end in the same events, fault and remainder |
| `EventStream.ExecutionAcceptedExactly` | internal/execution/events.go:190-214 | reading and finishing succeed if and only if the file is whole lines of a legal stream ending in the final event the result repeats |
| `EventStream.FinishMeans` | internal/execution/events.go:200-214 | after a faultless reading of whole lines, finishing tells a stream without its final event from one whose final event differs from the result |
| `AuditPurge.Normalized` | internal/coordinator/audit_retention.go:42-56 | defaults for absent fields; security rows are never kept shorter than routine ones |
| `AuditPurge.AuditTable.Select` | internal/coordinator/audit_retention.go:63-68 | the first expired rows past the cursor, in id order, at most a batch |
| `AuditPurge.AuditTable.PurgeAudit` | internal/coordinator/audit_retention.go:41-93 | for every batch size a finished purge equals one deletion on the original table; a cancelled one is a purge up to some id; it terminates |
| `AuditPurge.PurgeLeavesExactly` | internal/coordinator/audit_retention.go:34-56 | a purge leaves exactly the rows not older than they are kept: 180 days, or 30 for claims, registrations, token checks, successful calls and superseded heartbeats, unless configured |
| `AuditPurge.LaterRowsKeepTheirClass` | internal/coordinator/audit_retention.go:36-38 | deleting rows up to the cursor changes no later row's class, though heartbeats look at other rows |
| `AuditPurge.BatchAdvances` | internal/coordinator/audit_retention.go:75-80 | a batch deletes exactly what is expired on the original table up to its last id |
| `AuditPurge.NewestHeartbeatSurvives` | internal/coordinator/audit_retention.go:34-38 | a worker's newest heartbeat is deleted if and only if it is older than the security cutoff |
| `AuditPurge.PurgeIsIdempotent` | internal/coordinator/audit_retention.go:48-50 | purging again deletes nothing, even where a purge made another heartbeat the newest |
| `KeyedMutex.StepKeepsInv` | internal/coordinator/keyed_mutex.go:18-41 | every instruction of every thread keeps owners, reference counts, sharing and the map consistent |
| `KeyedMutex.MutualExclusion` | internal/coordinator/keyed_mutex.go:5-7 | no two threads hold one key |
| `KeyedMutex.OneEntryPerKey` | internal/coordinator/keyed_mutex.go:23-27 | threads share an entry if and only if they use the same key |
| `KeyedMutex.MapHoldsWhatIsUsed` | internal/coordinator/keyed_mutex.go:28-38 | a key is in the map if and only if it is in use, and its count is the number of its users |
| `KeyedMutex.EmptyWhenIdle` | internal/coordinator/keyed_mutex.go:5-6 | the map is empty when all threads are idle |
| `KeyedMutex.NoDeadlock` | internal/coordinator/keyed_mutex.go:18-41 | while some thread is inside, some such thread can take its next instruction |
| `KeyedMutex.KeyedLocks.Enter` | internal/coordinator/keyed_mutex.go:19-29 | adds one reference to the key, creating its entry exactly when there was none |
| `KeyedMutex.KeyedLocks.Leave` | internal/coordinator/keyed_mutex.go:34-39 | gives one reference back and drops the key exactly with the last |
| `KeyedMutex.EnterSection` | internal/coordinator/keyed_mutex.go:19-29 | a thread that passes through the section does to the counts what Enter does |
| `KeyedMutex.LeaveSection` | internal/coordinator/keyed_mutex.go:34-39 | a thread that passes through the closing section does to the counts what Leave does |
| `Review.ValidateFindings` | internal/acceptance/contract.go:204-237 | accepts exactly findings with valid locations, summaries and the fields of their kind, and says whether one fails |
| `Review.ValidateCheck` | internal/acceptance/requirements.go:84-144 | accepts exactly a check whose evidence and status agree with its criterion and findings |
| `Review.ValidateAllChecks` | internal/acceptance/requirements.go:76-148 | accepts exactly one valid check per criterion, and says whether one failed or is blocked |
| `Review.ValidateFailing` | internal/acceptance/requirements.go:149-177 | a failing finding needs exact-head evidence and the agreement of every check of its requirement |
| `Review.Validate` | internal/acceptance/requirements.go:62-200 | the program's checks together accept exactly the reports that meet the stated rules |
| `ReviewRules.CheckRules` | internal/acceptance/requirements.go:84-144 | which evidence proves which criterion, and what a passed, failed and blocked check needs |
| `ReviewRules.EvidenceRules` | internal/acceptance/requirements.go:85-110 | evidence names its check, reference and the submitted head; live success also the running candidate |
| `ReviewRules.FindingRules` | internal/acceptance/contract.go:204-237 | the fields each kind of finding needs, and valid locations |
| `ReviewRules.CleanPathMeans` | internal/acceptance/contract.go:180-185 | a path is clean if and only if no slash-separated component is empty or a dot name |
| `ReviewRules.PassedMeans` | internal/acceptance/requirements.go:62-200 | a passed review established every criterion by an observation at the submitted head and has only advisory findings |
| `ReviewRules.FailedMeans` | internal/acceptance/requirements.go:149-187 | a failed review demonstrates a defect at the submitted head that no check of its requirement contradicts |
| `ReviewRules.BlockedMeans` | internal/acceptance/requirements.go:183-198 | a blocked review states what is missing, and nothing in it failed |
| `ReviewLaws.VerdictIsDetermined` | internal/acceptance/requirements.go:183-198 | an acceptable report has exactly one verdict, the one its checks and findings determine |
| `Findings.DeduplicateFindings` | internal/acceptance/requirements.go:204-233 | the loop with its index computes the consolidation |
| `Findings.NothingIsLost` | internal/acceptance/requirements.go:202-203 | every finding's concern survives with all of its evidence and locations |
| `Findings.DeduplicatedSurvivors` | internal/acceptance/requirements.go:204-233 | the result is the first finding of every key, once each, changed only in evidence and locations taken from the others |
| `Findings.DeduplicationIsIdempotent` | internal/acceptance/requirements.go:202-233 | consolidating twice is consolidating once |
| `ReviewLaws.ConsolidationKeepsValid` | internal/acceptance/runner.go:403-406 | an accepted report stays acceptable after consolidation if and only if each failed requirement is named by a failing finding that no earlier one absorbs under another text |
| `ReviewLaws.SeparableStaysValid` | internal/acceptance/runner.go:403-406 | with NUL-free requirements that do not differ only in white space every accepted report stays acceptable, whatever its findings say |
| `ReviewLaws.WhiteSpaceTwinsSpoil` | internal/acceptance/requirements.go:208 | for any plan with two requirements that differ only in white space some accepted report is spoiled |
| `ReviewLaws.ConsolidationCanSpoil` | internal/acceptance/requirements.go:208 | a concrete plan and report: accepted as it stands, not acceptable once consolidated |
| `Reports.NormalizeMissingEvidence` | internal/acceptance/normalize.go:21-81 | downgrades exactly the findings for which nothing failed and every check states a gap |
| `ReportRules.GapRules` | internal/acceptance/normalize.go:21-81 | exactly the findings whose checks are all blocked with a stated gap become advisory, and only then failed may become blocked |
| `ReportRules.ProcessRules` | internal/acceptance/runner.go:354-378 | process notes become advisory, and a failed verdict is judged again from the remaining findings and the last blocked check |
| `ReportRules.RefusedExactly` | internal/acceptance/runner.go:342-398 | which reports are malformed |
| `Reports.GapsNeverPass` | internal/acceptance/normalize.go:15-20 | that never produces a passed verdict, and doing it again changes nothing |
| `Reports.ReviewRecord.AdjustProcess` | internal/acceptance/runner.go:358-378 | process-only findings become informational and a failed verdict is recomputed from what remains |
| `Reports.ReviewRecord.Apply` | internal/acceptance/runner.go:342-408 | stores a report as judged if and only if it meets the rules, with its findings consolidated; a malformed one changes nothing |
| `Reports.DemonstratedDefectFails` | internal/acceptance/runner.go:386-405 | a report with a demonstrated defect is accepted only as failed, except that without schema 1 one that claims to be blocked stays blocked |
| `Reports.DefectCanStayBlocked` | internal/acceptance/runner.go:389 | a concrete report without schema: a demonstrated defect, accepted and stored as blocked |
| `Reports.StoredVerdict` | internal/acceptance/runner.go:379-401 | under schema 1 the stored verdict is the only one the checks and findings allow; otherwise it is blocked exactly when the report says so, or when only process findings failed and a check is blocked, and else follows the findings |
| `Reports.StoredRecordIsValid` | internal/acceptance/runner.go:399-406 | what is stored still meets the rules it was accepted under, when the planned requirements are separable |
| `ConfigMerge.UploadOfDownload` | internal/config/sync.go:59-112 | converting a downloaded entry back gives the download, with the given local path |
| `ConfigMerge.DownloadOfUpload` | internal/config/sync.go:85-112 | downloading one's own upload restores the entry if and only if it sets none of the fields the upload leaves out |
| `ConfigMerge.Decide` | internal/config/sync.go:206-255 | one remote entry: replaces, is ignored or conflicts, by timestamps and content |
| `ConfigMerge.MergeConfigs` | internal/config/sync.go:176-271 | the loop computes the merge per key in any order and reports exactly the conflicting keys |
| `ConfigMerge.Config.MigrateTimestamps` | internal/config/sync.go:327-340 | stamps exactly the entries without a timestamp and says whether there were any |
| `ConfigMerge.MergeIsLastWriteWins` | internal/config/sync.go:152-161 | merging with what another machine sent keeps, per entry, the content written later |
| `ConfigMerge.ConflictsAreDisagreements` | internal/config/sync.go:245-255 | a merge conflicts if and only if two entries of one time disagree in content |
| `ConfigMerge.MergeCommutes` | internal/config/sync.go:152-161 | without conflicts both machines end with the same content whoever merges |
| `ConfigMerge.MergeAssociates` | internal/config/sync.go:152-161 | the order in which three machines' entries meet does not matter |
| `ConfigMerge.MergeIsIdempotent` | internal/config/sync.go:152-161 | merging the same entries again, or one's own, changes nothing |
| `ConfigMerge.NothingIsLost` | internal/config/sync.go:154-161 | no entry and no newer write is lost, each entry is one side's, and local paths stay local |
| `ConfigMerge.UnsyncedFieldsKeptExactly` | internal/config/sync.go:228-240 | fields outside the upload survive if and only if the remote entry does not replace the local one or they were unset |
| `ConfigMerge.MigrationPromotesLegacy` | internal/config/sync.go:224-240 | an unstamped entry loses to any remote one, but once stamped only to a later one |

## Left out

- GORM, SQL text, SQLite locking and rollback mechanics: each transaction body is one atomic step; a refused one leaves the tables as they were.
- JSON encoding and decoding: payloads and reports are records of the fields the coordinator reads; `shaped` marks valid JSON that does not decode into the expected structure, and a decoder function stands for parsing an event line.
- SHA-256 identities: represented by what they hash, so they are injective.
- ORDER BY position, id: the id only breaks ties between equal positions, and the positions of open intents are proved distinct.
- Store.Store.InsertPrepared: the duplicate lookups that EnqueuePrepared makes before its transaction are reads without effect and are not repeated here; the prepare callback is taken to change only the payload.
- Effects.EffectsAtMostOnce: assumes that intents of different tasks have different markers and that the callback looks its marker up before writing; a write that a crashed controller left in flight and that lands later is not modelled.
- Safety.ReachableGated: closed tasks are covered only in runs in which no FinishResult closes one over unapplied intents; that call does not look at them. `Safety.ActiveTasksGated` covers the others in every run.
- Assignment.CapacityRespected: limits and worker settings are fixed during the run; lowering them below the current load is not modelled.
- Application.FinalizedOncePerReport: says nothing about how often the finalize callback itself is called, which is at least once.
- Audit rows, UpdatedAt columns and sub-second time.
- Store reads such as PendingResults, PRBlocked, LatestDevelopment and the dashboard queries.
- joblog.Event.Bound, which cuts oversized fields, and the JSON encoding of an event: an event carries its stored bytes.
- JobLog.TaskLog.ReadLog: the per-stream status lines and the list of epochs are not returned.
- JobLog.TaskLog.PurgeLogs: the last-update time of a task is not a column here, so the tasks not updated since the cutoff are an input; their states are looked up.
- LogReader.ReaderIsComplete: rows may be appended between requests but not purged.
- Read errors of the operating system, evidence writers that fail, redaction and observation callbacks of the event reader.
- The pause between purge batches and database errors of the purge; rows written during a purge; the SQL dialect's case folding in LIKE.
- Audit sampling.
- Decoding a review report's text and its infrastructure-error envelope; acceptance plans, records on disk, native execution identities and CI evidence; the text heuristics behind process-only requirements and findings are functions given by the caller; letter case beyond ASCII.
- Live evidence layers: represented by one flag beside the candidate identity.
- Settings, project lists and conflict files of the configuration sync; nil and empty lists are not told apart.
- HTTP, TLS, tokens, the admin API, worktrees, git, subprocess control and user interfaces.
