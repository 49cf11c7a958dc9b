# CellFlow, modelled and proved

CellFlow follows a business intent through every signed CKB transaction ("attempt") made for it and decides when the
intent is settled. This project models its hard core in Dafny and proves what it promises over every run, with nodes that
may answer anything or fail, and callers and workers that may interleave in any order.

`dafny verify dfyconfig.toml` checks the whole project.

## How the model is built

| Modules | What they are |
|---|---|
| `StateMachine`, `ConflictEvidence`, `Rpc`, `Reconcile` | the pure parts: three status axes, spend evidence, what may be concluded from a node's answers, one reconciliation pass as a function |
| `Store`, `Service` | what each database transaction does to the rows of one intent, and the guards the API puts before it |
| `Machine` | the serial machine: attach, mark, poll and scan requests, one after another |
| `Repository`, `Callers`, `Passes`, `Retries` | the code that changes rows in place: `IntentStore` and the loops over it, each proved equal to the functions above, with other callers writing between their steps |
| `Transitions`, `Verdicts`, `Findings`, `Rows`, `ApiWrites`, `EventLog` | what each step decides and records, as exact conditions on the stored row and on the answers or the request alone; the event log |
| `Invariants`, `Confirmation`, `Settlement`, `Attempts`, `Tracking`, `SpendRuns`, `Lifecycle` | what holds over all runs of the serial machine |
| `Polling`, `PollingRuns`, `DurableLoop` | who polls an intent again: the query of the repair sweep, when a pass is terminal, runs that the sweep passes over, and the durable loop as a method |
| `Interleaving`, `AnyInterleaving`, `Serialization`, `Concurrency`, `LateScans` | any number of callers that read (in two queries), compute and write later; what holds in every interleaving; which of them amount to a serial run, and the other run theorems for those; the write that can break them |
| `Webhooks`, `WebhookStore` | the outbox: leases, fencing, attempts, and the class that holds its rows |
| `Runners`, `Failover` | runners sharing a cursor; RPC failover with its shared failure map |
| `Texts`, `Json`, `StableJson`, `KeyTies`, `Intents`, `SignedPayload` | the texts of heights and hashes, JSON text, the order-free text of a value and when it is one, re-creating an intent, the canonical text of a signed transaction |
| `Paging` | listing intents with a cursor |

A node's answers, the other endpoints' answers, verdicts on Cells, clock readings, jitter, the order in which a query
finds rows, and the order in which callers, workers and runners act are all parameters, so every statement holds for all
of them. Each `sql.begin` block is one step. Attempts, events, endpoints and deliveries are numbered by their position in
their table. `IntentStore` and its like hold plain fields; `State()` (or `Box()`) is the value the functions speak about.

Trace statements use `Before(policy, required, requests, k)`: the state before request `k` of a run from a new intent.
A reconciliation pass is several actions of one caller that all use one read; anything may happen between them. The
theorems of `AnyInterleaving` ask nothing of an interleaving. Those about attempt rows ask one thing (`NoneOvertaken`): a
scan that writes finds its own candidate's row as it was read and the candidate still competing, because that write checks
no version.

## Where the code decides against its documentation or its own intention

- The transition table (docs/state-machine/TRANSITION_TABLE.md) lets a post-commit `PENDING` or `PROPOSED` answer move an
  intent to `REORGED`. The code keeps the commit unless a node names another block canonical at its height
  (`CommittedIsLeftOnlyByDisproof`); a commit in another block goes to `WAITING_CONFIRMATIONS` or `CONFIRMED`.
- That document says `CONFIRMED` and `REJECTED` stop the polling loop. The durable loop ends only at a terminal pass, and no
  pass is terminal during the monitoring period or while a competing candidate is unresolved (`TerminalExactlyWhen`).
- The repair sweep, which is there for intents that no loop polls, sees less than the loop. It passes over an unresolved
  candidate exactly when a `PREPARED` attach decided the schedule last, or the projection is conflicting, rejected or
  refused without a suspected conflict (`SweepMissesCandidateExactlyWhen`; runs: `PreparedReplacementHidesCandidate`,
  `RejectedReplacementHidesCandidate`). It passes over a settled intent whose broadcast was refused late, at the refusal
  itself (`SweepMissesSettledExactlyWhen`, `WatchedExactlyWhen`; run: `LateRefusalHidesSettled`). Only a loop that is
  running, of at most 720 passes, still polls these.
- The exception for `SUBMISSION_UNKNOWN` to `SUBMITTED` in `updateSubmission` never matters: that step is already forward
  (`SubmissionAcceptedExactlyWhen`).
- A rejection report that carries an input conflict is accepted after settlement and clears it without a
  `SETTLEMENT_REVOKED` event; the next `SETTLEMENT_READY` is then the second in a row (`LateConflictReportRepeatsReady`).
  It is the only report that does so (`MarkBooksExactlyWhen`).
- An accepted submission report that names no conflict keeps the conflict recorded but drops its evidence (`ReportRecords`),
  so spend evidence starts anew and contention loses its grace period.
- Attaching an older hash again erases recorded inputs exactly when the request does not bring them again
  (`ReattachKeepsEvidenceExactlyWhen`, `ReattachingBlanksInputs`).
- Attaching an older hash again loses sight of nothing by itself, but leaves a superseded row superseded
  (`ReattachIsHonestExactlyWhen`). A live transaction is lost exactly when another attempt takes the place of such a row
  before a report or a pass has put its disposition right (`AbandonsExactlyWhen`, `AlwaysInSightExactlyWhen`; run:
  `ReattachingCanAbandonLiveAttempt`).
- A candidate scan writes without a version check: a late result can put a loser back into the running beside the winner
  (`LateScanBreaksWinner`), or confirm a row again whose confirmation a reorg has taken back (`LateScanConfirmsAgain`).
  `LateScanKeepsWinnerExactlyWhen` says when, for every read.
- A worker reports a delivery as successful even when its lease was taken over and nothing was recorded; the row is then
  delivered again (`OutcomeIsRecordedExactlyWhen`, `SuccessAfterExpiryIsLost`).
- The stable text depends on key order exactly when an object has two keys that the comparison ties
  (`OrderFreeExactlyWhen`), as `localeCompare` does with canonically equivalent spellings.
- A cursor holds milliseconds and the table microseconds: intents that share a millisecond with the last row of a page can
  be skipped (`SameMillisecondIsSkipped`, `GapExactlyWhen`).
- A worker that throws in `deliverWebhookEvent` costs its runner; rows stay unvisited only when every runner broke
  (`UnvisitedOnlyWhenAllBroke`).

## Model

The rows up to `Paging.SameMillisecondIsSkipped` are the results over runs, interleavings and all inputs. The rows from
`Transitions.WorkflowExactlyWhen` on give the exact condition of every outcome of a single step. The rows from
`Rpc.InspectInputOutPoints` on say that the code that changes rows in place does what the functions of the results say.

| member | source | states |
|---|---|---|
| Lifecycle.SubmissionAcceptedExactlyWhen | packages/core/src/state-machine.ts:168-231 | a submission status is accepted if and only if the intent is open and the status is not behind; a refusal only before acceptance, and nothing else after a refusal |
| Lifecycle.SubmissionOnlyAdvances | packages/core/src/state-machine.ts:168-231 | over any sequence of reports the submission never moves back, an accepted one stays accepted and a refused one stays refused |
| Lifecycle.NothingToDoExactlyWhenSettled | packages/core/src/state-machine.ts:89-106 | in every reachable confirmed state "no action" is advised if and only if the intent is settled |
| Lifecycle.SettledExactlyWhen | packages/core/src/state-machine.ts:49-62 | a reachable state is settled if and only if it is confirmed, without a conflict, and verified where Cells are required |
| Lifecycle.StatusShownIsTheWorkflow | packages/core/src/state-machine.ts:64-81 | in every reachable state the single status shows CONFIRMED or CONFLICTED exactly when the workflow is, and never hides a commit behind a pre-commit status |
| ConflictEvidence.AccumulatedEvidenceIsSummary | packages/core/src/conflict-evidence.ts:48-80 | after an unbroken run of spent inspections the incremental evidence is the first time and tip, the last time and tip, and one plus the number of tip rises |
| ConflictEvidence.MaturesExactlyWhen | packages/core/src/conflict-evidence.ts:21-46 | after such a run the next inspection matures if and only if its tip exceeds the last one and lies max(depth, 1) above the first one |
| ConflictEvidence.RisingTipsMature | packages/core/src/conflict-evidence.ts:21-80 | with strictly rising tips the evidence has matured after max(depth, 1) further inspections |
| Reconcile.AskOthersConfirmsExactlyWhen | workflows/reconcile/src/reconcile.ts:140-183 | asking on confirms if and only if some endpoint other than the first one reports the spend |
| Reconcile.CorroborationMeansTwoEndpoints | workflows/reconcile/src/reconcile.ts:140-183 | a spend is corroborated if and only if, when two different endpoints are configured, a second one reports it |
| EventLog.LogTellsHistory | packages/db/src/repository.ts:217-277 | in every reachable state the log starts with the creation, every event continues the one before it, and the last one ends at the status shown |
| EventLog.EveryChangeIsLogged | packages/db/src/repository.ts:217-277 | every change that users see, by any request of a run, stays told by its own event at the end of the run |
| Invariants.AttachKeepsWinner | packages/db/src/repository.ts:718-756 | with the guard, attaching keeps at most one winner, which is the active attempt |
| Invariants.StepKeeps | packages/db/src/repository.ts:685-1363 | every request keeps the invariants: linked projection, sound snapshot, one winner, final spends, honest grace |
| Invariants.RunKeeps | packages/db/src/repository.ts:685-1363 | every reachable state has them, through reorgs, replacements, promotions and re-attachments |
| Confirmation.ConfirmedIsProved | packages/core/src/state-machine.ts:233-351 | every reachable CONFIRMED state records the block of its last COMMITTED observation, which one endpoint named canonical with the policy's depth above it, and which nothing has disproved since |
| Confirmation.CommittedIsLeftOnlyByDisproof | packages/core/src/state-machine.ts:233-286 | a COMMITTED chain status is left only by an answer that names another block at its height, whatever lagging, failing or rejecting answers come |
| Settlement.VerifiedIsForRecordedBlock | workflows/reconcile/src/reconcile.ts:608-649 | a stored VERIFIED always comes from a check of every required Cell made for the block recorded now, standing ever since |
| Settlement.SettledIsVerifiedAndConfirmed | packages/core/src/state-machine.ts:49-62 | every reachable settled view with required Cells rests on such a check and on a proved block |
| Settlement.BlockChangeClearsOrReruns | workflows/reconcile/src/monitoring.ts:27-38 | a new block, a reorg, another transaction or a promotion drops the verdict or runs the check again |
| Settlement.SettlementEventsAlternate | packages/db/src/repository.ts:1232-1360 | without a conflict report after settlement, READY and REVOKED strictly alternate from READY on, agree with the stored state, and the stored time is that of the last READY |
| Settlement.MarkBooksExactlyWhen | packages/db/src/repository.ts:1129-1213 | a submission report keeps that bookkeeping if and only if it is not a conflict report about a settled intent |
| Settlement.LateConflictReportRepeatsReady | packages/db/src/repository.ts:1142-1175 | a concrete run with two READY events in a row |
| Attempts.HistoryIsWellFormed | packages/db/src/repository.ts:705-825 | when every accepted re-attachment of an older hash brings the evidence its attempt has, numbers are 1..n, parents come earlier, and a replacement shares an input with its parent |
| Attempts.HistoryNeverChanges | packages/db/src/repository.ts:758-863 | in such runs a recorded attempt keeps its number, hash, parent, kind and input evidence, whatever follows |
| Attempts.HistoryChangesExactlyWhen | packages/db/src/repository.ts:758-863 | a request changes recorded history if and only if it is an accepted re-attachment that does not bring the evidence again |
| Attempts.ReattachKeepsEvidenceExactlyWhen | packages/db/src/repository.ts:707-716 | attaching an older hash again keeps the evidence of its attempt if and only if the attempt has no inputs or the request brings some, and it has no refs or the request brings refs or inputs |
| Attempts.ReattachingBlanksInputs | packages/db/src/repository.ts:826-835 | a run from a new intent that erases the inputs recorded for its first attempt |
| Tracking.NoLiveAttemptIsAbandoned | packages/db/src/repository.ts:718-812 | until something confirms, with re-attachments only of rows that still run or are dead (and as submitted when the pool had seen them), every attempt that may still commit is active, a candidate of the next scan, or was found refused or conflicting |
| Tracking.ReattachIsHonestExactlyWhen | packages/db/src/repository.ts:826-835 | attaching an older hash again loses sight of nothing by itself; it leaves the active row with a disposition that fits its record if and only if the row was still active, rejected by the chain, or conflicting |
| Tracking.AbandonsExactlyWhen | packages/db/src/repository.ts:718-835 | while nothing is confirmed, any request loses sight of a live attempt if and only if it takes the place of an active row that may still commit, does not read ACTIVE and was not found dead |
| Tracking.AlwaysInSightExactlyWhen | packages/db/src/repository.ts:718-835 | over any run that has not confirmed, with any re-attachments and promotions, every live attempt stays in sight throughout if and only if no request of the run does that |
| Tracking.ReattachKeepsTrackInvExactlyWhen | packages/db/src/repository.ts:826-835 | it also keeps what later steps rely on if and only if, besides, a row the pool had seen is attached as submitted |
| Tracking.ReattachingCanAbandonLiveAttempt | packages/db/src/repository.ts:826-835 | a concrete run in which a submitted transaction is neither active, nor scanned, nor found dead |
| Polling.TerminalExactlyWhen | workflows/reconcile/src/reconcile.ts:651-667 | a pass reports terminal, the one thing the durable loop ends at, if and only if it was answered, the statuses it wrote need no further pass, no candidate is unresolved, and no monitoring period is running |
| Polling.PassSchedulesCandidates | workflows/reconcile/src/reconcile.ts:651-678 | a pass that leaves an unresolved candidate is not terminal and sets the time of the next one |
| Polling.SweepableExactlyWhen | packages/db/src/repository.ts:1434-1447 | there is a time at which the sweep claims an execution that nobody leases if and only if a pass is scheduled and no status closes it |
| Polling.SweepMissesCandidateExactlyWhen | packages/db/src/repository.ts:1434-1447 | in every reachable state with an unresolved candidate the sweep will never claim the intent as it stands if and only if an accepted attach as PREPARED was the last request to decide the schedule, or the projection is CONFLICTED, EXPIRED, REJECTED, or refused without a suspected conflict |
| Polling.SweepMissesSettledExactlyWhen | packages/db/src/repository.ts:1434-1447 | the sweep passes over a settled intent if and only if nothing is scheduled or its broadcast stands refused |
| Polling.WatchedExactlyWhen | workflows/reconcile/src/reconcile.ts:656-678 | after a pass that leaves the intent settled the loop goes on exactly within the monitoring period, and the sweep will claim it exactly within that period unless its broadcast stands refused, then between 12 and 60 seconds later |
| Polling.PeriodCountsFromSettlement | workflows/reconcile/src/reconcile.ts:659-664 | while the settlement bookkeeping is sound, the stored settlement time after such a pass is the one the period is counted from |
| PollingRuns.PreparedReplacementHidesCandidate | apps/api/src/service.ts:321-360 | a run from a new intent: a replacement attached as PREPARED takes the submitted transaction it is to replace out of the sweep |
| PollingRuns.RejectedReplacementHidesCandidate | packages/db/src/repository.ts:1441 | a run from a new intent: a rejection of the replacement takes the first transaction out of the sweep although a pass is scheduled; the pass is not terminal |
| PollingRuns.LateRefusalHidesSettled | packages/db/src/repository.ts:1442 | a run from a new intent: a settled intent leaves the sweep at the late refusal of its broadcast, and a pass that then misses the transaction is still not terminal |
| DurableLoop.TransactionReconciliationWorkflow | apps/web/workflows/reconcile-intent.ts:18-50 | with anyone writing while it sleeps and between the steps of its passes, the loop makes passes from fresh reads, ends at the first one that is terminal or throws and at the 720th otherwise, and leaves exactly the rows that these passes and the others leave |
| DurableLoop.QuietPassIsTerminalExactlyWhen | workflows/reconcile/src/reconcile.ts:343-708 | a whole pass that is left alone, with its scan, promotion and second read, reports terminal if and only if in the rows it leaves nothing more is to be done, and it confirmed the intent or its last read had no open candidate |
| DurableLoop.LoopCompletesOnlyWhenDone | apps/web/workflows/reconcile-intent.ts:40-45 | if the state before the last round is sound and its pass left alone, the loop completes only with the statuses ended, no candidate unresolved and no monitoring period running |
| SpendRuns.InputSpentIsEarned | workflows/reconcile/src/reconcile.ts:531-584 | without promotions, INPUT_SPENT is newly recorded only after an earlier pass saw the spend at some tip, nothing interrupted since, the tip is max(depth, 1) above, and a second endpoint agrees when two are configured |
| SpendRuns.InputSpentWasEarned | workflows/reconcile/src/reconcile.ts:531-584 | so in every such state that shows INPUT_SPENT, some request earned it |
| SpendRuns.ConflictedIsFrozen | packages/core/src/state-machine.ts:172-260 | a CONFLICTED execution changes only by attaching another hash or promoting a candidate |
| SpendRuns.RebuildIsJustified | packages/core/src/state-machine.ts:89-145 | in every reachable state a rebuild or recollection is advised only for a corroborated spend or for contention whose observations span its grace period |
| SpendRuns.OneConfirmedAttempt | packages/db/src/repository.ts:1290-1321 | in every reachable state at most one attempt is CONFIRMED, it is active, and a winner is active without a running competitor |
| Interleaving.VersionedWrite | packages/db/src/repository.ts:865-895 | every accepted write but a scan result was computed at the stored version and raises it by one |
| Interleaving.UnversionedWrite | packages/db/src/repository.ts:976-998 | a scan result changes nothing but the scanned columns of attempts |
| Interleaving.NoLostUpdate | packages/db/src/repository.ts:518-555 | in every interleaving, with rows and attempts read at different times, a write to the projection was computed from exactly the projection it replaces; anything else leaves it alone |
| Serialization.SerialRefinement | packages/db/src/repository.ts:865-895 | from any consistent state, an interleaving in which no scan is overtaken ends as the serial run of the requests that wrote, except perhaps for the time of the next pass; polls after the caller's own scans, stale reads and refused writes included |
| Serialization.InterleavingsKeep | packages/db/src/repository.ts:865-1289 | so it keeps every invariant |
| Serialization.ApiWritesAreSerial | apps/api/src/service.ts:321-404 | an attach or mark computed before a scan wrote its results writes what the serial machine would write |
| Serialization.PollIgnoresScansAndSchedule | workflows/reconcile/src/reconcile.ts:374-426 | a poll from a read that its own scans have outdated writes what a fresh one would, but for the time of the next pass |
| Serialization.StepIgnoresSchedule | packages/db/src/repository.ts:865-1289 | what a request does never depends on when the next pass is due |
| AnyInterleaving.ProjectionIsStepFromView | packages/db/src/repository.ts:865-1360 | in every interleaving, overtaken scans included, a write to the projection leaves the execution row and the events that the serial machine leaves from what the caller had read |
| AnyInterleaving.ConfirmedIsProved | packages/core/src/state-machine.ts:233-351 | in every interleaving a CONFIRMED state records a block that some action proved and nothing has replaced or disproved since |
| AnyInterleaving.ConfirmsExactlyWhen | packages/core/src/state-machine.ts:233-351 | in every interleaving an answered pass that writes leaves CONFIRMED if and only if the commit is deep enough, shown or standing, and neither payload, inputs nor Cells conflict |
| AnyInterleaving.LogTellsHistory | packages/db/src/repository.ts:217-277 | in every interleaving the log tells the history of the status shown without a gap |
| AnyInterleaving.CommittedIsLeftOnlyByDisproof | packages/core/src/state-machine.ts:233-286 | in every interleaving COMMITTED is left only by a write of an answer that names another block at its height |
| AnyInterleaving.VerifiedIsForRecordedBlock | workflows/reconcile/src/reconcile.ts:608-649 | in every interleaving a stored VERIFIED comes from a check of every required Cell made for the block recorded now |
| AnyInterleaving.SettledIsVerifiedAndConfirmed | packages/core/src/state-machine.ts:49-62 | in every interleaving a settled view with required Cells rests on such a check and on a proved block |
| AnyInterleaving.SettlementEventsAlternate | packages/db/src/repository.ts:1232-1360 | in every interleaving without a conflict report after settlement READY and REVOKED strictly alternate and agree with the stored state |
| Concurrency.SettlementEventsAlternate | packages/db/src/repository.ts:1232-1360 | for any number of callers, in interleavings in which no scan is overtaken, under the conditions of the serial statement, the stored settlement time is besides that of the last READY |
| Concurrency.HistoryIsWellFormed | packages/db/src/repository.ts:705-825 | attempt history is well formed for any number of callers, in interleavings in which no scan is overtaken, under the conditions of the serial statement |
| Concurrency.NoLiveAttemptIsAbandoned | packages/db/src/repository.ts:718-812 | no live attempt drops out of sight for any number of callers, in interleavings in which no scan is overtaken, under the conditions of the serial statement |
| Concurrency.InputSpentWasEarned | workflows/reconcile/src/reconcile.ts:531-584 | INPUT_SPENT was earned for any number of callers, in interleavings in which no scan is overtaken, under the conditions of the serial statement |
| Concurrency.StateShownIsSound | packages/core/src/state-machine.ts:64-145 | one winner, honest status and justified advice for any number of callers, in interleavings in which no scan is overtaken |
| LateScans.LateScanKeepsWinnerExactlyWhen | packages/db/src/repository.ts:976-998 | a scan result computed from any earlier read, mixed ones included, keeps the winner rule if and only if it neither leaves the row confirmed (read as confirmed and COMMITTED, the node not showing the commit) while that is not the confirmed active attempt, nor puts the row back into the running beside another winner |
| LateScans.LateScanBreaksWinner | packages/db/src/repository.ts:976-998 | a concrete interleaving from a new intent: a caller reads, the replacement confirms, and the late scan revives the loser |
| LateScans.LateScanConfirmsAgain | packages/db/src/repository.ts:976-998 | a concrete interleaving from a new intent: the row is read before the first transaction wins and the attempts after it, a reorg takes the confirmation back, and the late scan confirms the row again |
| Retries.AttachTransaction | apps/api/src/service.ts:321-404 | the loop ends within three tries: the write follows everything other callers wrote before it, or only their writes are there; stale means all three tries were overtaken by a versioned write |
| Retries.MarkSubmission | apps/api/src/service.ts:527-568 | the same for submission reports |
| Retries.LeftAloneIsNotStale | apps/api/src/service.ts:321-404 | a call that no one overtakes during one of its tries is never refused as stale |
| Passes.PassIsInterleaving | workflows/reconcile/src/reconcile.ts:343-708 | a pass with others writing before every scan result, before the second read and before the last write is one of the interleavings |
| Passes.PassIsSerial | workflows/reconcile/src/reconcile.ts:343-708 | so if none of its scans is overtaken it is a serial run of its own and the others' requests, except perhaps for the time of the next pass, and keeps every invariant |
| Passes.QuietPassIsSerial | workflows/reconcile/src/reconcile.ts:343-708 | a pass that is left alone never overtakes itself: it is the run of its scans and its poll |
| Retries.RetriedIsInterleaving | workflows/reconcile/src/reconcile.ts:710-726 | however often it tries and whatever others write between its steps, a reconciliation is one of the interleavings |
| Retries.ReconciliationKeeps | workflows/reconcile/src/reconcile.ts:710-726 | so it keeps every invariant when none of its scans is overtaken |
| Retries.CurrentReadIsNotStale | workflows/reconcile/src/reconcile.ts:710-726 | a pass from a read with the stored version that is left alone is never refused as stale |
| Retries.StaleMeansOvertaken | workflows/reconcile/src/reconcile.ts:710-726 | a reconciliation is not refused as stale when one of its later tries is left alone |
| Webhooks.OneDeliveryPerEnabledEndpoint | packages/db/src/repository.ts:266-275 | whatever follows, an event has exactly one row for each endpoint enabled at its insertion and no other |
| Webhooks.EnabledEndpointsOnce | packages/db/src/repository.ts:266-275 | the list of enabled endpoints has each of them once |
| Webhooks.LeasesStaySound | packages/db/src/repository.ts:1603-1742 | in every interleaving a row is leased exactly while CLAIMED, by an owner that read its present attempt count |
| Webhooks.LiveLeaseIsExclusive | packages/db/src/repository.ts:1603-1701 | until a lease expires only its owner changes the row |
| Webhooks.TakenOverWorkerIsFenced | packages/db/src/repository.ts:1645-1732 | once a worker has lost a row, nothing it does to that row ever changes anything again |
| Webhooks.OutcomeIsRecordedExactlyWhen | packages/webhooks/src/delivery.ts:69-134 | in every interleaving the end of a request changes its row if and only if the worker still leases it: one more attempt; DELIVERED for a 2xx answer; RETRY if and only if the request threw or was answered with 408, 425, 429 or 5xx and attempts are left, at the time of the Retry-After or the backoff; FAILED otherwise |
| Webhooks.SuccessAfterExpiryIsLost | workflows/webhook-delivery/src/index.ts:37-45 | a concrete run: the lease expires while the request is out, another worker claims the row, and the success changes nothing |
| Webhooks.DeliveredIsFinal | packages/db/src/repository.ts:1588-1742 | a DELIVERED row never changes again, whoever acts |
| Webhooks.AttemptsAreBounded | packages/webhooks/src/delivery.ts:60-134 | a row's attempt count never exceeds the configured maximum plus the operator retries of that row, and a row still to be sent is below that |
| WebhookStore.CandidatesAreTheDueOnes | packages/db/src/repository.ts:1603-1623 | the query of a claim returns distinct due rows, within the limit, and all of them when they are fewer |
| WebhookStore.OutboxStore.DeliverWebhook | packages/webhooks/src/delivery.ts:69-134 | success is reported exactly for an enabled endpoint that answers 2xx; whatever others do to the rows while the request is out, the outcome is recorded if and only if the worker still leases the row, as DELIVERED, RETRY with its time or FAILED exactly as the answer and the attempts left deserve |
| WebhookStore.OutboxStore.WorkItem | workflows/webhook-delivery/src/index.ts:37-50 | nothing is sent after a lost lease; otherwise, if the lease still stands at completion the outcome is recorded as the answer deserves, and if not nothing is changed |
| Runners.NeverTwiceNeverTooMany | workflows/reconcile/src/reconcile.ts:739-754 | in every schedule each item is taken at most once, none is lost, and at most `concurrency` are in progress |
| Runners.AllWorkedExactlyOnce | workflows/reconcile/src/reconcile.ts:739-754 | when the runners have ended and no worker threw, every item was worked exactly once |
| Runners.UnvisitedOnlyWhenAllBroke | workflows/webhook-delivery/src/index.ts:6-17 | an item stays unvisited only when every runner's worker threw |
| Runners.TickMakesProgress | workflows/webhook-delivery/src/index.ts:6-17 | every step of a running runner lowers a measure, so the runners end |
| Runners.RunWithConcurrency | workflows/reconcile/src/reconcile.ts:739-754 | for any choice of the next runner it terminates, with every item done exactly once unless a worker threw |
| Failover.MapCountsConsecutiveFailures | workflows/reconcile/src/rpc.ts:261-285 | over any run the failure map holds each endpoint's failures since its last success, and a cooldown exactly from the threshold on |
| Failover.CandidatesAfterAnyRun | workflows/reconcile/src/rpc.ts:287-294 | there is always a candidate; an endpoint below the threshold is one; a cooling one only when all cool down and it ends first |
| Failover.Circuit.WithSession | workflows/reconcile/src/rpc.ts:361-379 | the candidates are tried in order, each place once, the first success is returned, and the call fails only when all failed, while other sessions end in between |
| Json.QuotedTextIsWellFormed | apps/api/src/service.ts:31-40 | inside a quoted string every quote is escaped and no control character stands bare, as section 7 of RFC 8259 asks |
| Json.QuotedTextReadsBack | packages/core/src/signed-payload.ts:128-136 | a reader of strings as section 7 of RFC 8259 defines them gets back exactly the quoted string, and stops at its closing quote |
| Json.RenderHasOneReading | apps/api/src/service.ts:31-40 | two values whose texts start alike, whatever follows, are one value: the text is self-delimiting |
| Json.RenderIsInjective | packages/core/src/signed-payload.ts:128-136 | values have one text if and only if they are the same |
| StableJson.StableTextIsTheMeaning | apps/api/src/service.ts:31-40 | a value in which no object ties two keys shares its stable text with another value if and only if they differ at most in key order, at any depth |
| StableJson.UnequalNeverShareText | apps/api/src/service.ts:31-40 | under any comparison, values that mean different things have different texts |
| KeyTies.OrderFreeExactlyWhen | apps/api/src/service.ts:31-40 | the text of a value is the same for every key order if and only if no object in it has two keys that the comparison ties |
| KeyTies.KeyOrderMattersExactlyForTies | apps/api/src/service.ts:35-38 | the smallest case: two members in either order share a text if and only if the comparison does not tie their keys |
| Intents.IntentTable.CreateIntent | apps/api/src/service.ts:141-164 | creating again never changes an intent; input that means something else always conflicts, and the same input never does while the comparison ties no two keys in it, although the column reorders keys |
| Intents.CreateTwice | packages/db/src/repository.ts:460-516 | a second creation conflicts whenever its input differs from the first one's, and for tie-free input only then |
| SignedPayload.IntegerFormsExactly | packages/core/src/signed-payload.ts:21-34 | a value is read as an integer if and only if it is a big integer, an integral number, or its text is blank for zero or decimal, signed, hexadecimal, octal or binary as BigInt accepts it |
| SignedPayload.FormsExactly | packages/core/src/signed-payload.ts:7-126 | a record is read as a transaction if and only if it writes it: camelCase and snake_case names in any mixture, camelCase first unless absent or undefined, any hex case and every accepted number form, and nothing else |
| SignedPayload.TextIsInjective | packages/core/src/signed-payload.ts:128-136 | normalized transactions have one text if and only if they are equal |
| SignedPayload.OneTextPerTransaction | packages/core/src/signed-payload.ts:111-136 | two records have one text if and only if they write one transaction |
| SignedPayload.ChangedWitnessChangesText | packages/core/src/signed-payload.ts:111-136 | changing one witness changes the text, whatever forms the records have |
| SignedPayload.CanonicalTextReadsBack | packages/core/src/signed-payload.ts:111-136 | any JSON value whose text is the canonical text is read as the same transaction, and so has the same text again |
| SignedPayload.AcceptedIsCanonical | packages/core/src/signed-payload.ts:111-136 | whatever is accepted is well formed, and its canonical form is a fixed point |
| SignedPayload.NormalizeArray | packages/core/src/signed-payload.ts:86-98 | the loop accepts an array if and only if it accepts every entry, and keeps their order |
| Paging.PageIsNewest | packages/db/src/repository.ts:627-679 | a page holds the newest rows below its cursor, newest first, and all of them when it has no next cursor; a next cursor is the last row's |
| Paging.ListedExactlyWhenNotSkipped | packages/db/src/repository.ts:627-679 | following the cursor to the end, while rows are inserted anywhere, lists an intent present at the start if and only if no page boundary passes over it, nothing twice, in descending order |
| Paging.EndsAreEveryPage | packages/db/src/repository.ts:627-679 | the page boundaries are the rows at every full page of the listing |
| Paging.GapExactlyWhen | packages/db/src/repository.ts:644-675 | a boundary passes over an older row if and only if both were created in one millisecond, the boundary row not at its start, and the row is not below it by id at that start |
| Paging.ListedExactlyOnce | apps/api/src/service.ts:244-271 | with timestamps at the cursor's precision every intent present at the start is listed exactly once, newest first |
| Paging.ListingFromStartEnds | packages/db/src/repository.ts:627-679 | while only newer intents are inserted the listing ends within one page more than there were rows |
| Paging.SameMillisecondIsSkipped | packages/db/src/repository.ts:644-675 | a concrete table of which one row is never listed |
| Transitions.WorkflowExactlyWhen | packages/core/src/state-machine.ts:248-346 | after any observation of an open snapshot the workflow is CONFIRMED if and only if the commit shown meets the policy, or a confirmed commit stands; WAITING_CONFIRMATIONS for a commit that does not; REORGED for a disproof; IDLE for a rejection that no commit withstands; RECONCILING else; a closed snapshot takes no observation |
| Transitions.ChainExactlyWhen | packages/core/src/state-machine.ts:289-330 | the chain status and block reference after any observation: a standing commit keeps both, a disproof clears the block, a new commit replaces it; submission and policy stay |
| Transitions.ConfirmationsExactlyWhen | packages/core/src/state-machine.ts:22-33 | the count shown reaches n if and only if the tip stands n blocks deep, for every n an exact number can hold; it is kept with a standing commit and zero otherwise |
| Transitions.ToldExactlyWhen | packages/core/src/state-machine.ts:233-246 | a reorg is reported if and only if the node disproves the recorded block or shows the commit in another one, a confirmation if and only if a commit that meets the policy is shown without one |
| Transitions.ShownExactlyWhen | packages/core/src/state-machine.ts:64-81 | each single status is shown for exactly one combination of the three axes |
| Transitions.RebuildAdviceExactlyWhen | packages/core/src/state-machine.ts:83-129 | recollect, rebuild and re-sign are advised if and only if the inputs are lost, each for its own conflict domain |
| Transitions.WaitAdviceExactlyWhen | packages/core/src/state-machine.ts:89-145 | when waiting or canonical reconciliation is advised, and for what |
| Transitions.OtherAdviceExactlyWhen | packages/core/src/state-machine.ts:89-145 | when a person has to look, and when nothing is to be done |
| Lifecycle.DepthSatisfiedExactlyWhen | packages/core/src/state-machine.ts:15-42 | a depth policy is satisfied if and only if both heights parse and tip - height + 1 reaches the depth, in spite of the cap at the largest safe integer |
| Texts.HeightExactlyWhen | packages/core/src/state-machine.ts:15-19 | a height is "0x" or "0X" and at least one hexadecimal digit, and nothing else |
| Texts.HashExactlyWhen | workflows/reconcile/src/rpc.ts:92-97 | a hash counts if and only if it is "0x" and 64 digits between blanks, and two are one if and only if they differ at most in case |
| Lifecycle.HeightsAreHexadecimal | packages/core/src/state-machine.ts:15-19 | a height is "0x" and hexadecimal digits in either case, each counting sixteen times the next; anything else is none |
| Rpc.Observe | workflows/reconcile/src/rpc.ts:455-596 | PENDING, PROPOSED and REJECTED are observed if and only if the node says that word; COMMITTED if and only if it says so and shows the block canonical at its height, not above its tip; the inputs are inspected if and only if there are any and the node says nothing it has a meaning for; the recorded block is disproved if and only if the endpoint named another one there; a rejection reason is that of a rejection |
| Rpc.ObservationCarries | workflows/reconcile/src/rpc.ts:455-596 | time, endpoint and body are the answers'; block, number and tip are those of a shown commit and absent otherwise |
| Rpc.InputStateExactlyWhen | workflows/reconcile/src/rpc.ts:616-733 | over the answers alone: all inputs are live and free; or live and one taken in the pool; or one is gone although the transaction that created it is canonical and has that output; or one is not live and none is proved gone |
| Verdicts.VerdictExactlyWhen | workflows/reconcile/src/reconcile.ts:185-238 | FAILED if and only if some Cell is refuted (not created, not as asserted, or reported from a foreign block) before any unanswered one; PENDING if and only if the body is missing or the first Cell that does not hold went unanswered; VERIFIED if and only if the body is there and every required Cell holds |
| Reconcile.VerifiedMeansAllHold | workflows/reconcile/src/reconcile.ts:185-238 | the verdict is VERIFIED if and only if every required Cell is created and, where live state is required, holds |
| Verdicts.WorkflowAfterPass | workflows/reconcile/src/reconcile.ts:446-649 | an answered pass leaves CONFIRMED if and only if its answers show the commit as deep as the policy asks, or leave a confirmed one standing, and neither payload, inputs nor Cells conflict; CONFLICTED if and only if one of these does; and likewise for each other workflow status |
| Verdicts.FindingsAfterPass | workflows/reconcile/src/reconcile.ts:446-649 | the conflict that a pass records, keeps or clears, among them EXPECTED_CELL_ASSERTION_FAILED exactly for a Cell refuted before any unanswered one, and the verdict it stores, drops or keeps |
| Verdicts.EventOfPass | workflows/reconcile/src/reconcile.ts:446-649 | the event that tells of a pass is that of its strongest finding |
| Verdicts.OutageRecords | workflows/reconcile/src/reconcile.ts:398-445 | a pass that no endpoint answers keeps a recorded commit and every finding, and breaks the continuity of spend evidence |
| Verdicts.PromotedExactlyWhen | workflows/reconcile/src/reconcile.ts:240-341 | a candidate takes over if and only if it is open, the node shows its commit, and the transaction returned has the payload attached |
| Verdicts.PromotionRecords | packages/db/src/repository.ts:1000-1127 | the projection after a promotion is the candidate's: confirmed if and only if its commit meets the policy, with its inputs and errors and without a verdict |
| Verdicts.CandidateRecords | workflows/reconcile/src/reconcile.ts:240-341 | what a scan that does not promote makes of the candidate's statuses |
| Findings.DomainExactlyWhen | workflows/reconcile/src/reconcile.ts:116-130 | the domain is APPLICATION or WALLET if and only if all inputs concerned are of that kind, and MIXED if and only if both kinds are among them |
| Findings.ContentionIsSummary | workflows/reconcile/src/reconcile.ts:54-88 | over an unbroken run of contended inspections the grace period is that of its start and has expired if and only if the run spans it |
| Findings.EvidenceAfterPass | workflows/reconcile/src/reconcile.ts:446-649 | the evidence after a pass: accumulated for a spend, kept since its first sighting for contention, broken by uncertainty, cleared when the transaction or its free inputs are found |
| Findings.AdviceAfterSpend | packages/core/src/state-machine.ts:89-115 | after a pass that proves the inputs spent the advice goes by the roles of the inputs that are gone |
| Findings.AdviceAfterContention | packages/core/src/state-machine.ts:116-129 | after a pass that finds the inputs taken the advice is to wait within the grace period, and then goes by the roles of the inputs taken |
| Rows.InspectedInputs | workflows/reconcile/src/reconcile.ts:381-384 | the inputs inspected are those recorded with their roles, or else the bare ones with an unknown role |
| Rows.AskingStopsAtTheFirstSpend | workflows/reconcile/src/reconcile.ts:140-183 | the other endpoints are asked in order up to the first that reports the spend, and all of them when none does |
| Rows.CorroborationRecords | workflows/reconcile/src/reconcile.ts:140-183 | two endpoints are required if and only if two different ones are configured; the record starts with the pass's own view, followed by those asked |
| Rows.UniqueKeepsOrder | workflows/reconcile/src/reconcile.ts:150-153 | endpoints are asked in the order in which they are first configured |
| Rows.PassRecordsAttempt | packages/db/src/repository.ts:1255-1321 | a pass writes the projection to the active row, with the disposition it deserves, counts itself, and touches another row only to supersede it for a winner |
| Rows.PromotionRecordsAttempt | packages/db/src/repository.ts:1000-1127 | likewise for a promotion |
| Rows.ScanRecordsAttempt | packages/db/src/repository.ts:976-998 | a scan that does not promote writes one attempt row and nothing else |
| ApiWrites.ReportAcceptedExactlyWhen | apps/api/src/service.ts:486-568 | a submission report is accepted if and only if its failure fits its status, there is a transaction, and the status advances; and the error of every other one |
| ApiWrites.ReportRecords | packages/db/src/repository.ts:1129-1213 | an accepted report records status, error, conflict and schedule on the execution and nothing else |
| ApiWrites.ReportRecordsAttempt | packages/db/src/repository.ts:1180-1200 | and the same on the active attempt, and on no other |
| ApiWrites.AttachAcceptedExactlyWhen | apps/api/src/service.ts:295-404 | an attach is accepted if and only if its inputs agree, its status fits, the takeover is safe, and it fits what the attempt table and other intents hold |
| ApiWrites.AttachErrorExactlyWhen | packages/db/src/repository.ts:705-800 | every other attach gets the error of the first of these checks that fails |
| ApiWrites.AttachRecords | packages/db/src/repository.ts:865-895 | another transaction starts with nothing found, the same one keeps everything but its submission and inputs |
| ApiWrites.AttachRecordsAttempt | packages/db/src/repository.ts:758-863 | a new hash gets a new running attempt with its kind and parent, a known one its submission and payload; it is active |
| ApiWrites.AttachRetires | packages/db/src/repository.ts:758-812 | of the others only the attempt that was active changes, and only when a new hash that is no RBF replacement takes over |
| EventLog.PassLogsExactlyWhen | packages/db/src/repository.ts:1322-1360 | a pass appends exactly one event of its kind, from the old to the new status, if and only if a status, the block, a finding or the settlement changed, and then READY or REVOKED if and only if the settlement changed |
| EventLog.ScanLogsExactlyWhen | packages/db/src/repository.ts:1000-1127 | a scan appends nothing unless it promotes, and then likewise |
| EventLog.ApiLogsExactlyWhen | packages/db/src/repository.ts:915-938 | an accepted attach or report appends exactly one event, a refused one nothing |
| Polling.NextPassExactlyWhen | workflows/reconcile/src/reconcile.ts:651-678 | no next pass is set if and only if the pass is terminal or a refusal is resolved; else it is due by the monitoring, or after 12 seconds for a seen transaction, 20 for a rejected one, and 10 doubling to 300 for a lost one |
| Polling.NextPassAfterOutage | workflows/reconcile/src/reconcile.ts:420-440 | after an outage the transaction counts as lost |
| Webhooks.RowAfterAction | packages/db/src/repository.ts:1588-1701 | what claiming, renewing, releasing and an operator's retry leave of a row, and which rows each of them changes |
| Webhooks.TablesAfterAction | packages/db/src/repository.ts:217-277 | rows are added only by an event, one for each enabled endpoint, due at once; endpoints change only where they are set |
| Webhooks.NextAttemptExactlyWhen | packages/webhooks/src/delivery.ts:8-67 | a next attempt is scheduled if and only if attempts are left, never in the past, within the hour, and no sooner than ten seconds without a server's hint |
| Webhooks.BackoffIsBounded | packages/webhooks/src/delivery.ts:8-11 | the backoff doubles from five seconds and never reaches its own cap of an hour |
| Webhooks.RetryAfterMs | packages/webhooks/src/delivery.ts:13-22 | a Retry-After header gives a delay between zero and an hour if and only if it reads as non-negative seconds or as a date |
| Failover.AvailableInOrder | workflows/reconcile/src/rpc.ts:287-294 | the candidates stand in the configured order |
| SignedPayload.MembersInOrder | packages/core/src/signed-payload.ts:36-126 | the text names its members in one fixed order at every depth |
| SignedPayload.IntegerTextIsMinimal | packages/core/src/signed-payload.ts:21-34 | numbers are written in hexadecimal without leading zeros |
| Paging.NextCursorExactlyWhen | packages/db/src/repository.ts:627-679 | a page has a next cursor if and only if a row is left for later, and then it is as long as the limit, kept between 1 and 200, asks |
| Rpc.InspectInputOutPoints | workflows/reconcile/src/rpc.ts:651-733 | the inspection loop yields one observation per input, in order, and the state they imply |
| Passes.InputConflictDomain | workflows/reconcile/src/reconcile.ts:116-130 | the loop over inputs derives the domain from the roles present among the spent or contended ones |
| Passes.CorroborateCanonicalSpend | workflows/reconcile/src/reconcile.ts:140-183 | the loop over endpoints gives the specified verdict and the views in order, and stops at the first confirmation |
| Passes.EvaluateAssertions | workflows/reconcile/src/reconcile.ts:185-238 | the loop over Cells gives the verdict of the first one that does not hold |
| Passes.InspectedPass | workflows/reconcile/src/reconcile.ts:518-606 | the four branches for an absent transaction leave the specified snapshot, event, conflict and evidence |
| Passes.AnsweredPass | workflows/reconcile/src/reconcile.ts:450-700 | the reassigned locals of a pass end as the specified write |
| Passes.PromoteCommittedCompetingCandidate | workflows/reconcile/src/reconcile.ts:240-341 | the scan visits exactly the active attempts other than the current one, writes each result over whatever others have written, and stops at the first promotion |
| Passes.ReconcileIntentOnce | workflows/reconcile/src/reconcile.ts:343-708 | a whole pass, with scan, promotion and second read, and with others writing in between, leaves exactly the specified rows and error |
| Repository.IntentStore.constructor | packages/db/src/repository.ts:478-511 | a new intent has no attempt, the initial snapshot and its creation event |
| Repository.IntentStore.SupersedeOthers | packages/db/src/repository.ts:1304-1313 | exactly the other active attempts become superseded |
| Repository.IntentStore.WriteAttempt | packages/db/src/repository.ts:758-863 | finds or inserts the attempt of a hash, or refuses with the specified conflict and changes nothing |
| Repository.IntentStore.AttachTransaction | packages/db/src/repository.ts:685-940 | the whole transaction commits the specified rows or leaves them all as they were with the specified error |
| Repository.IntentStore.MarkSubmission | packages/db/src/repository.ts:1129-1213 | likewise for a submission report |
| Repository.IntentStore.ApplySnapshot | packages/db/src/repository.ts:1215-1363 | likewise for the write of a pass, with its settlement time and events |
| Repository.IntentStore.UpdateCandidate | packages/db/src/repository.ts:976-998 | the unversioned write changes one attempt row and nothing else |
| Repository.IntentStore.Promote | packages/db/src/repository.ts:1000-1127 | likewise for a promotion |
| Retries.ReconcileIntent | workflows/reconcile/src/reconcile.ts:710-726 | the loop makes the passes the specification makes, each from a fresh read after a stale one, with others writing between all steps |
| WebhookStore.OutboxStore.InsertEventAndOutbox | packages/db/src/repository.ts:217-277 | inserting an event adds its rows and changes no other |
| WebhookStore.OutboxStore.CreateOrDisableEndpoint | packages/db/src/repository.ts:1528-1576 | creating enables an endpoint, again if it exists; disabling keeps its row |
| WebhookStore.OutboxStore.ClaimCandidates | packages/db/src/repository.ts:1624-1634 | the loop leases exactly the found rows and hands out each as it leaves it |
| WebhookStore.OutboxStore.ClaimDueWebhookDeliveries | packages/db/src/repository.ts:1603-1643 | claims the due rows within the bounded limit |
| WebhookStore.OutboxStore.ClaimWebhookDeliveriesForEvent | packages/db/src/repository.ts:1665-1701 | claims the rows of one event that no one has leased |
| WebhookStore.OutboxStore.RenewWebhookDeliveryLease | packages/db/src/repository.ts:1645-1654 | renews exactly a lease still held and says whether it did |
| WebhookStore.OutboxStore.ReleaseWebhookDeliveryLease | packages/db/src/repository.ts:1656-1663 | releases exactly a lease still held |
| WebhookStore.OutboxStore.CompleteWebhookDelivery | packages/db/src/repository.ts:1713-1742 | completes exactly the row its owner still leases |
| WebhookStore.OutboxStore.RetryFailedWebhookDeliveries | packages/db/src/repository.ts:1588-1601 | sends out again exactly the failed rows, of one endpoint or of all |
| Failover.Circuit.NoteEndpointSuccess | workflows/reconcile/src/rpc.ts:274-276 | a success is the end of the failures counted |
| Failover.Circuit.NoteEndpointFailure | workflows/reconcile/src/rpc.ts:278-285 | a failure is counted on |
| SignedPayload.SignedPayloadText | packages/core/src/signed-payload.ts:111-136 | the checks in order give the canonical text or nothing |

## Left out

- Confirmation.ConfirmedIsProved: the count shown may fall when a lagging node answers with a lower tip; the statement is about the observation that confirmed last.
- Serialization.SerialRefinement: covers the interleavings in which every scan that writes finds its candidate's row as it was read; LateScans says what another one may do, and AnyInterleaving what holds all the same.
- SpendRuns.InputSpentIsEarned: is about runs without a promotion, because a promotion brings the evidence stored with the candidate.
- Tracking.NoLiveAttemptIsAbandoned: is about runs that have not confirmed, since a confirmation rightly supersedes every other attempt; so is AlwaysInSightExactlyWhen.
- DurableLoop.TransactionReconciliationWorkflow: how long it sleeps, what the workflow library does with a step that throws, which routes start it and the mark it leaves when it ends are not modelled; the intent it polls is taken to exist.
- Retries.StaleMeansOvertaken: takes "left alone" as nobody writing at all during that try, and speaks of the tries after the first one; CurrentReadIsNotStale covers the first.
- Runners.RunWithConcurrency: a worker that throws is modelled as the end of its runner; what Promise.all does with the error is not.
- Rpc.Observe: the session's identity check and the calls it makes are taken as part of the endpoint succeeding or failing.
- Evidence payloads that only document a decision (assertion results, raw observations, lists of spent inputs, reason texts), the rpc_observations and signed_payload_revisions tables.
- Reconcile and workflow leases, among them the lease columns the sweep reads and writes and the claim of a workflow run: they only decide who starts a pass, and the statements of AnyInterleaving hold for any number of passes at once, those of Concurrency as long as no scan is overtaken.
- Field-by-field comparison of Cells: a verdict per Cell is a parameter.
- The comparison of inputs by JSON.stringify is equality of the input lists, although a jsonb column may reorder the keys of a stored input and so make equal inputs compare as different texts.
- Hash, intent id and URL normalisation before the guards; unique constraints across projects beyond "the hash belongs to another intent".
- Strings are sequences of Unicode scalar values, so the escaping of lone surrogates does not arise; numbers are known by their shortest text.
- Objects that redefine toString are read by their default text in the payload normalizers.
- SHA-256, HMAC and encryption: statements are about the text before the digest.
- HTTP, DNS and IP policy, SQL text and PostgreSQL locking; a query's rows in order are taken as the database's work.
- The base64url and JSON coding of a cursor and the check of its shape.
- API keys, rate limits, metrics, operator notes, preflight events, project evidence, routes, consoles and scripts: they would only add easy members.
