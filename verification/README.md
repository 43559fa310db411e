# Shared-custody backend: verified model

A Dafny model of the state-changing core of the backend, with proofs over every run and
every interleaving. Five parts, hardest first.

**Activities.** An activity row changes status only through `transition()`, which checks its
guards on a snapshot and then commits by compare-and-swap on status, version and deletion,
writing one outbox row. Timer jobs carry the version in their id; a processor (fast path) and a
sweep (slow path) drive the system transitions. `ActivityModel` holds the rules and pure
decisions, `ActivityMachine` one activity under concurrency, `ActivityRuns` all of them with one
outbox and one clock, `ActivityLifecycle` what the rules and tables come to by status,
`ActivityWitnesses` runs that exist, `ActivitySweep` the drain measure, `ActivityStore` and `TimerJobs` the
service, repository and queue as they update their tables in place. A step of the machine is
one atomic database or queue action; reads and wake-ups that a request once made may be acted
on again at any later time, which covers every schedule of the program and more.

**Webhook delivery.** `DeliveryModel` and `DeliveryMachine` follow one (event, subscription)
pair through Postgres and the job queue: fan-out, attempts, retries, workers dying at any point
of an attempt, queue flushes, reconciliation and replay. An attempt reads the row, writes it and
settles its job in separate steps, with time passing between them. `DeliveryStore` is the
worker, the reconciler and the replay over whole tables. `FanOut` is the relay: racing dispatches that match subscriptions by event
type, rollbacks, and crashes between a commit and the queue.

**Endpoint limiter.** `Limiter` is the per-host semaphore with direct hand-off.

**Expenses.** `ExpenseModel`, `ExpenseMachine`, `ExpenseEdits` and `ExpenseStore` are the life
cycle guarded by status alone, its audit and events, and the signed balance. Amounts are integer
cents and ratios are hundredths of a percent, so every share is exact.

**Parsing and aggregation.** `Ipv6Text` prints and expands IPv6 text (sections 2.2 and 2.5.5.2 of
RFC 4291) and classifies addresses. `BondReport`, `ActivityReport`, `BondHealth` and `BondTrend`
are the bond report, the card computed from grouped queries, and the monthly series.

Assumptions, used and not proved: a database transaction is atomic and a row lock serialises
commits; a job id is unique in the queue; a delayed job is not run early; at most one execution
of a job is active; the queue gives a job up when its attempts reach its budget; a delivery
handler throws only to ask for a retry; a queue flush or a replay of a pair happens while it has
no active attempt, and a replay's reset and re-enqueue are one step; a job whose worker
died is handed out again without counting the attempt; the clock does not go back.

Three things the code does not guarantee, each with a reachable witness and the exact condition:

- A system request that read the row once when it chose its target and again in `transition()`
  can mark a row overdue before its deadline (`OverdueCanComeEarly`). An `overdue` commit is on
  time exactly when the response window opened by the row's last event has run out; every other
  system commit is on time, and so is every one whose two reads saw one version
  (`SystemCommitIsDueIff`).
- A delivery that succeeded can be attempted again and end up `RETRYING`, for instance when a
  dispatcher enqueues so late that the reconciler's job for the pair has already finished and
  expired (`SuccessCanBeReopened`). A finished delivery stays as it is, short of a replay,
  exactly when its job neither waits nor runs, no dispatcher has still to add it, and no
  reconcile pass still has it among its candidates (`FinishedRowStays`).
- An approval may commit on an amount its approver never saw, because an edit does not change
  the status the guard compares (`ApprovalCanMissAnEdit`). What is approved is what was read
  with the edits committed since, so it is what was seen exactly when the last edit to set the
  amount, and the last to set the ratios, left them as seen (`ApprovalIsOfWhatWasSeenIff`).

One more is an arithmetic limit: `Date.UTC` reads years 0 to 99 as 1900 to 1999, so the trend
ends at its reference month exactly when the reference year is not one of those
(`TrendEndsAtReference`).

## Model

| member | source | states |
|---|---|---|
| `ActivityRuns.RunKeepsInv` | src/activities/activities.service.ts:167-253 | every interleaving of creations, reads, commits, queue calls, timer firings, sweeps, losses and clock ticks keeps the system invariant (columns per status, history, log, requests in flight, timers) |
| `ActivityRuns.OutboxIsCompleteLog` | src/activities/repositories/activities.repository.ts:185-229 | an activity's events carry versions 1..version once each, chain from creation to the current status along the rules with the rules' event types, and replaying them alone rebuilds every column a rule writes |
| `ActivityLifecycle.OutboxTellsLifecycle` | src/activities/activity-transition.map.ts:92-214 | in every reachable state each event has the type its statuses call for, by status and naming no rule, was made by time or a member as the move demands, and took the version before it to the version after it by just the columns that entry stamps with `occurredAt`, sets or clears |
| `ActivityLifecycle.CommitWritesEntry` | src/activities/activities.service.ts:293-335 | a commit of any cause writes those columns, and besides them only the assignee of an assignment and the mark of a deletion |
| `ActivityLifecycle.CommitTellsEntry` | src/activities/activities.service.ts:229-241 | its event carries the entry's type, both statuses, the next version, the maker, the reason given and the instant read |
| `ActivityLifecycle.RulesAreTheLifecycle` | src/activities/activity-transition.map.ts:92-223 | the moves are the seven of members, cancellation from any open status, and the five of time; none belongs to both |
| `ActivityLifecycle.VerdictIsTable` | src/activities/activities.service.ts:182-212 | what `transition()` answers to each actor for each move: done, ignored, invalid or forbidden, in the order it checks |
| `ActivityLifecycle.RequestIsAcceptedIff` | src/activities/activities.service.ts:506-677 | each member's request is accepted exactly in its statuses, of its member, before its hour, by the row's columns |
| `ActivityLifecycle.FlagsByStatus` | src/activities/activity-policy.service.ts:61-109 | every flag of the policy by the row's columns; past means past the end, or past the start when there is no end |
| `ActivityLifecycle.WiredAreTheTimers` | src/queues/activity-timers/activity-timers.ops.ts:25-47 | an entry sets a timer for exactly the kinds its status calls for, to go off at its column, at once if that is past but not for a past start, and cancels exactly the kinds it ends, at the version before |
| `ActivityLifecycle.TimerIsObeyedIff` | src/queues/activity-timers/activity-timers.processor.ts:89-121 | a job is obeyed exactly on its version, undeleted, in the status its kind ends |
| `ActivityLifecycle.EventNamesAreDistinct` | src/activities/activity-transition.map.ts:53-66 | no two events share a name and none goes by a catch-all name of subscriptions |
| `ActivityMachine.CommitIsReplayed` | src/activities/activities.service.ts:293-335 | what a commit writes by rule is a function of the event it emits and the columns before |
| `ActivityRuns.EventTimesAscend` | src/activities/activities.service.ts:172-182 | `occurredAt` never decreases in version order although it is read outside the transaction |
| `ActivityRuns.VersionFixesRow` | src/activities/repositories/activities.repository.ts:189-212 | two requests in flight that hold the same version of an activity hold the same row, and it is the replay of the log up to that version |
| `ActivityRuns.GuardsHoldAtCommit` | src/activities/activities.service.ts:191-223 | when the compare-and-swap passes the locked row is the checked snapshot, so actor, assignee, late-response and creator guards hold of the row being overwritten |
| `ActivityRuns.SystemCommitIsDueIff` | src/activities/activities.service.ts:276-284 | a timer's or sweep's commit to start or end is always due; one to `overdue` is due exactly when the response window opened by the event of the snapshot's own version (`occurredAt` plus the timeout) has run out; always when both reads saw one version |
| `ActivityRuns.DeadlineCountsFromEvent` | src/activities/activity-transition.map.ts:92-214 | in created, assigned and verify the row's deadline is the timeout after the event that entered the status |
| `ActivityWitnesses.OverdueCanComeEarly` | src/queues/activity-timers/activity-timers.sweep.ts:83-96 | a concrete run in which the sweep's `overdue` is about to commit on a row whose deadline has not come |
| `ActivityRuns.NoRowWaitsOnNothing` | src/activities/activities.service.ts:348-377 | with nothing lost, every row that only time moves is due already or has a job of its version and kind queued or about to be, and that job passes the processor's checks |
| `ActivityRuns.SweepNeverMisses` | src/queues/activity-timers/activity-timers.sweep.ts:21-41 | even with jobs lost, a row that only time moves has an anchor column: its deadline in created, assigned and verify, its start in assisting, its end or else its start in progress; the sweep selects it exactly from then on, for the next status, and its timer has the same anchor and target |
| `ActivityRuns.DueFromAnchorOn` | src/activities/repositories/activities.repository.ts:277-304 | the query and `dueTargetFor` on any row, by that column |
| `ActivityRuns.FastPathRefinesSlowPath` | src/queues/activity-timers/activity-timers.processor.ts:89-121 | a job that passes version and source checks after its delay finds its row due, and asks for what the sweep would |
| `ActivityMachine.FireAgreesWithSweep` | src/queues/activity-timers/activity-timers.processor.ts:16-45 | the same for one activity, from the timer invariant |
| `ActivityRuns.QueueCallsCommute` | src/queues/activity-timers/activity-timers.producer.ts:21-56 | pending queue calls run in any order and at any times leave the current version with the same live timers, none cancelled; jobs of other versions do nothing |
| `ActivityRuns.RanOpsLiveKinds` | src/queues/activity-timers/activity-timers.ops.ts:25-47 | which timers a version keeps after a sequence of adds and removes, given that removals are of older versions |
| `ActivityRuns.OriginReadsHistory` | src/activities/activity-policy.service.ts:25-32 | in every reachable overdue row `overdueOrigin` answers created, assigned or verify exactly when the last event came from there |
| `ActivityMachine.CommitSetsOrigin` | src/activities/activity-transition.map.ts:92-214 | the rules into `overdue` leave the columns `overdueOrigin` reads in agreement with the status left |
| `ActivityRuns.PolicyAgreesWithEngine` | src/activities/activity-policy.service.ts:61-109 | confirm, assign or reassign, and complete flags hold exactly when the engine accepts; decline additionally needs the date not past; a late decline is open exactly when the log says the row came from `assigned` |
| `ActivityMachine.CommitKeepsRowInv` | src/activities/activity-transition.map.ts:92-214 | each rule keeps what its status says of the columns (verifyAt only in verify or overdue, assignee absent only in created, overdue or cancelled, deletion only when cancelled, and the rest) |
| `ActivityMachine.CasPassesOnSnapshot` | src/activities/repositories/activities.repository.ts:189-212 | equal status and version make the locked row equal to the snapshot |
| `ActivityMachine.StepKeepsInv` | src/activities/activities.service.ts:167-253 | every step of one activity keeps its invariant and extends its log by what it emitted |
| `ActivityMachine.BirthInv` | src/activities/activities.service.ts:405-446 | a created row, its event and its unfired timers satisfy the invariant |
| `ActivityMachine.WiringWakes` | src/queues/activity-timers/activity-timers.ops.ts:25-47 | wiring a status that waits for a timer adds that timer unless the row is due already |
| `ActivityWitnesses.EveryWaitingRowCanMove` | src/queues/activity-timers/activity-timers.sweep.ts:83-96 | from every reachable state, whatever was lost, the run of four moves (clock to the anchor, sweep selects, `transition()` reads, commits) leads from that state to the row in its timer's target status, one version and one event on, every other activity as it was |
| `ActivitySweep.QueryMatchesDueTarget` | src/activities/repositories/activities.repository.ts:277-304 | the SQL predicate selects a row exactly when it is not deleted and `dueTargetFor` is not null |
| `ActivitySweep.SweptRowMoves` | src/queues/activity-timers/activity-timers.sweep.ts:21-41 | each selected row's target is a legal system rule that takes one remaining step off |
| `ActivitySweep.SweepMovesItsBatch` | src/queues/activity-timers/activity-timers.sweep.ts:83-96 | a pass moves exactly its batch, changes no other row and lowers the total of remaining steps by the batch size |
| `ActivitySweep.SweepDrains` | src/queues/activity-timers/activity-timers.sweep.ts:83-96 | among any total-plus-one successive passes, at any times, one finds nothing due |
| `ActivityStore.ActivitiesService.ApplyTransition` | src/activities/repositories/activities.repository.ts:185-229 | the transaction writes the row and one outbox row when the re-check passes, and nothing otherwise |
| `ActivityStore.ActivitiesService.WireTimers` | src/activities/activities.service.ts:348-361 | the calls fired are exactly those the entered status asks for, none for an absent target or a start already past |
| `ActivityStore.ActivitiesService.Transition` | src/activities/activities.service.ts:167-253 | with nothing racing, the result, table, outbox and calls for every outcome: moved, unchanged, not found, invalid, forbidden |
| `ActivityStore.ActivitiesService.Create` | src/activities/activities.service.ts:384-450 | accepted exactly when the schedule is; then one row at version 1 with its columns given, one event and the queue calls of its status, all of this activity |
| `ActivityStore.ActivitiesService.Handle` | src/activities/activities.service.ts:506-677 | a member's request moves the row exactly when the handler's check and the engine both allow it; then one row, one event and the entered status's calls change and nothing else |
| `ActivityStore.ActivitiesService.HandleTimer` | src/queues/activity-timers/activity-timers.processor.ts:89-121 | a timer moves the row exactly when its checks pass, to its kind's status, one version on, with its event and calls and nothing else; otherwise nothing changes |
| `ActivityStore.ActivitiesService.RunSweep` | src/queues/activity-timers/activity-timers.sweep.ts:83-96 | the table after the loop, one stamped system event per batch row, for each batch row exactly the queue calls of the status it entered and none for others, and the measure lowered by the batch |
| `TimerJobs.JobIdsAreDistinct` | src/queues/activity-timers/activity-timers.job.ts:8-10 | different kinds, activities or versions never share a job id |
| `TimerJobs.TimerQueue.Enqueue` | src/queues/activity-timers/activity-timers.producer.ts:21-44 | adds one job ready no earlier than its target, leaves every other job, and keeps a job already there |
| `TimerJobs.TimerQueue.Cancel` | src/queues/activity-timers/activity-timers.producer.ts:46-56 | removes that job and no other |
| `DeliveryMachine.NeverOrphaned` | src/webhooks/dispatcher/reconcile.service.ts:48-80 | in every reachable state an unfinished delivery has a live job, or the queue holds nothing for it and from `next_attempt_at` on a reconcile pass gives it a ready job |
| `DeliveryMachine.DueDeliveryMovesOn` | src/webhooks/delivery/repositories/webhook-delivery.repository.ts:137-152 | once its time has come, and as long again as its last attempt took to settle, an unfinished delivery is ready, running, or in the reconciler's answer |
| `DeliveryMachine.QueueBudgetOutlastsRow` | src/webhooks/delivery/delivery.service.ts:336-365 | attempts made never exceed the row's count, the count stays below eight while unfinished, an attempt on an unfinished row leaves at most eight, and the queue never gives a job up |
| `DeliveryMachine.QueueNeverOutwaitsRow` | src/webhooks/delivery/processor.ts:17-18 | on each retry, with time passing between the row's stamp and the throw, the delay the queue computes is at most the delay stored in the row, and equal for a job never re-created that lost no worker |
| `DeliveryModel.BackoffIsMonotone` | src/webhooks/delivery/backoff.strategy.ts:13-42 | more attempts never mean a shorter delay, with or without Retry-After |
| `DeliveryModel.DelayIsAskedOrScheduled` | src/webhooks/delivery/backoff.strategy.ts:13-42 | the delay after an attempt is what the endpoint asked for, if it did, and else at once, 5 s, 5 min, 30 min, 2 h, 5 h, then 10 h |
| `DeliveryModel.SevenWaits` | src/webhooks/delivery/backoff.strategy.ts:13-25 | an endpoint that never answers is given up after waits of 17 h 35 min 5 s in all |
| `DeliveryModel.AppliedIsOutcome` | src/webhooks/delivery/classify.ts:17-28 | succeeded on 2xx, retried on a network failure, 408, 429 or 5xx and dead when that was the last attempt, failed otherwise; with count, next time and completion |
| `DeliveryMachine.ReconcilableIff` | src/webhooks/delivery/repositories/webhook-delivery.repository.ts:137-152 | of reachable rows the reconciler's query returns the pending and the retrying whose time has come, no others |
| `DeliveryMachine.AtMostEightAttempts` | src/webhooks/delivery/backoff.strategy.ts:13-25 | without replays an unfinished delivery has had at most seven attempts, and if its next finishes it with nobody left holding the pair, there are never more than eight |
| `DeliveryMachine.NoNinthAttemptIff` | src/webhooks/delivery/backoff.strategy.ts:13-25 | after eight attempts a ninth is ruled out if and only if nobody holds the finished pair |
| `DeliveryMachine.RowCountsAttempts` | src/webhooks/delivery/delivery.service.ts:144-221 | over any run without replays, the row's count grows by exactly the attempts that wrote it |
| `DeliveryMachine.FinishedRowStays` | src/webhooks/delivery/delivery.service.ts:138-144 | a finished delivery never changes again without a replay if and only if its job neither waits nor runs, no dispatcher has still to add it, and no reconcile pass still has it among its candidates |
| `DeliveryMachine.HeldRowCanChange` | src/webhooks/dispatcher/reconcile.service.ts:53-67 | the other direction: every finished pair that someone holds has a run, without replay or flush, that attempts it once more |
| `DeliveryMachine.SuccessCanBeReopened` | src/webhooks/dispatcher/fan-out.service.ts:114-136 | a reachable run in which a succeeded delivery becomes retrying without a replay |
| `DeliveryMachine.StepKeepsInv` | src/webhooks/delivery/delivery.service.ts:283-387 | every step of a pair, the death of a worker at any point of an attempt included, keeps the row, job and counting invariants |
| `DeliveryStore.DeliveryWorker.ApplyOutcome` | src/webhooks/delivery/delivery.service.ts:283-365 | the row for each answer, by status code; the status reported to metrics is the one written; it throws exactly when the row is retrying; 410 and nothing else disables the subscription |
| `DeliveryStore.DeliveryWorker.Handle` | src/webhooks/delivery/delivery.service.ts:130-221 | one attempt's effect on the table, by status code or as failed when nothing could be sent, a disabled subscription sent nothing; an unknown pair left alone; never a ninth attempt on an unfinished row |
| `DeliveryStore.DeliveryWorker.Reconcile` | src/webhooks/dispatcher/reconcile.service.ts:48-99 | jobs and count after the loop, when the queue stops answering part-way and some adds are lost |
| `DeliveryStore.ReconcileFillsIn` | src/webhooks/dispatcher/reconcile.service.ts:53-67 | reconciling keeps every job and adds a fresh one for exactly the candidates that had none |
| `DeliveryStore.MissingIsExact` | src/webhooks/dispatcher/reconcile.service.ts:52-67 | the reported number is the number of candidates without a job |
| `DeliveryStore.ReconcileIsMachineStep` | src/webhooks/dispatcher/reconcile.service.ts:82-99 | the loop does to each of its pairs what the pair machine's add or skip does |
| `DeliveryStore.DeliveryWorker.ReplayDead` | src/webhooks/admin/replay.service.ts:82-139 | every dead delivery of the subscription starts over with a fresh job and none is left; no other row or job changes; the number returned is how many there were |
| `DeliveryStore.DeliveryJobIdsAreDistinct` | src/webhooks/delivery/delivery.job.ts:34-36 | different pairs never share a job id |
| `FanOut.OneRowPerPair` | src/webhooks/dispatcher/fan-out.service.ts:79-119 | in every run, with racing relays, rollbacks and crashes: at most one delivery per (event, subscription), one notification per (user, event), one frame per notification and none without one |
| `FanOut.DispatchIsAllOrNothing` | src/webhooks/dispatcher/fan-out.service.ts:92-106 | a delivery row exists exactly when some committed dispatch of its activity event read a subscription of that id that lists the event type, `activity.state_changed` or `*`; a notification exactly when its user was a recipient of a committed dispatch of its event; an event is marked exactly when a dispatch of it committed |
| `FanOut.DispatchRun` | src/webhooks/dispatcher/fan-out.service.ts:92-118 | an uninterrupted commit, publish and enqueue sequence leaves the rows, the mark and the frames, and nothing held back |
| `FanOut.InsertedIsExact` | src/webhooks/delivery/repositories/webhook-delivery.repository.ts:51-72 | insert-or-ignore keeps the table, adds exactly the new keys and keeps keys unique |
| `FanOut.SelectMatched` | src/webhooks/dispatcher/fan-out.service.ts:32-45 | each subscription at most once, those that list the event type, `activity.state_changed` or `*`, and no other |
| `FanOut.InsertEach` | src/notifications/fan-out/notification-fan-out.service.ts:242-266 | the loop's table and its list of rows really created |
| `FanOut.Relay.Dispatch` | src/webhooks/dispatcher/fan-out.service.ts:79-119 | a dispatch is a run of the machine; a rolled-back one changes nothing; a committed one adds exactly the rows wanted, marks the event, and publishes and enqueues exactly the new rows in order |
| `FanOut.Relay.Poll` | src/webhooks/dispatcher/relay.ts:37-57 | a poll is a run of the machine; a failing event does not stop the others; over the batch exactly the wanted rows and notifications are added, each new one enqueued or published once; the number returned is that of the new deliveries |
| `Limiter.LimiterConservesSlots` | src/webhooks/delivery/endpoint-limiter.ts:60-88 | after any calls, per host the active count is the number of releasers handed out and not yet run, at most the cap; calls wait only at the cap; those waiting are the last arrivals in order; an arrival has its releaser exactly when fewer came before it than the cap and the releasers run together |
| `Limiter.WaiterIsAdmittedInTurn` | src/webhooks/delivery/endpoint-limiter.ts:66-84 | whoever stands at place p of a queue has a releaser, at any later time, exactly when p + 1 more releasers of the host have run |
| `Limiter.ReleaseHandsOver` | src/webhooks/delivery/endpoint-limiter.ts:73-88 | the first run of a releaser gives a releaser to the head of the queue and to no one else, the count unchanged, or frees one slot when nobody waits; the clamp at zero is not met; other hosts do not notice |
| `Limiter.ReleaseIsIdempotent` | src/webhooks/delivery/endpoint-limiter.ts:73-88 | a second release changes nothing, and a first one finds a counted slot |
| `Limiter.FairIsConservative` | src/webhooks/delivery/endpoint-limiter.ts:60-88 | of the auxiliary history: with arrivals let in in order, one more per release, the cap holds, no slot is idle while someone waits, and the arrival k places after the first cap is let in by release k + 1 |
| `Limiter.AcquireKeepsInv` | src/webhooks/delivery/endpoint-limiter.ts:60-71 | an acquire keeps the counters and queues equal to what the history says |
| `Limiter.ReleaseKeepsInv` | src/webhooks/delivery/endpoint-limiter.ts:73-88 | a release does too, at its host and at all others |
| `Limiter.ReleasersAreHistory` | src/webhooks/delivery/endpoint-limiter.ts:60-88 | the releasers the program handed out, run and not yet run, are the history's leavers and holders |
| `Limiter.EndpointLimiter.ActiveCount` | src/webhooks/delivery/endpoint-limiter.ts:46-48 | the count reported for a host is the number of releasers handed out there and not yet run, at most the cap |
| `Limiter.EndpointLimiter.AcquireSlot` | src/webhooks/delivery/endpoint-limiter.ts:60-71 | the maps after an acquire, and a slot granted at once or a place at the end of the queue |
| `Limiter.EndpointLimiter.ReleaseSlot` | src/webhooks/delivery/endpoint-limiter.ts:73-88 | the maps after a release, and to whom the slot went |
| `ExpenseMachine.StatusGuardIsEnough` | src/expenses/expenses.service.ts:323-381 | in every concurrent run an expense's lifecycle events and audited changes are those of the one path to its status, their versions strictly increase, the audit fallback is never used, it is approved by someone other than the requester exactly in approved or paid |
| `ExpenseMachine.BalanceIsSumOfApprovals` | src/expenses/repositories/expenses.repository.ts:209-254 | over every run the balance is the rounded sum of the shares of the rows as their approvals committed them |
| `ExpenseMachine.ApprovalMovesBalance` | src/expenses/repositories/expenses.repository.ts:209-224 | over every run the commit of an approval raises the requester's unrounded balance by the amount times twice the payer's part less the whole, lowers any other viewer's by as much, leaves other bonds alone, and no other commit moves a balance |
| `ExpenseModel.ShareHasSign` | src/expenses/repositories/expenses.repository.ts:213-224 | one more expense counts exactly when approved or paid and not deleted, for the requester with one sign and for others with the other |
| `ExpenseModel.LoneExpenseHasSide` | src/expenses/repositories/expenses.repository.ts:242-247 | a bond's one counted expense shows its requester something to collect only if the payer's part is the larger, to pay only if it is the smaller, and exactly the whole cents there are |
| `ExpenseModel.SidesOfBalance` | src/expenses/repositories/expenses.repository.ts:242-247 | what is to collect is the positive balance and what is to pay the negative one, the other side 0 |
| `ExpenseMachine.OutboxTellsLifecycle` | src/expenses/expense-events.ts:37-71 | an expense's events by its status: created 1, approved 2 or rejected 2, paid 3 |
| `ExpenseMachine.CommitIsAudited` | src/expenses/repositories/expenses-audit.repository.ts:49-119 | each commit adds one audit entry with its action, user and statuses by the kind of request |
| `ExpenseMachine.AllowedIff` | src/expenses/expense-policy.service.ts:53-68 | approving and rejecting are for the first member who did not ask, paying for either, changing and cancelling for who asked, each in its status |
| `ExpenseMachine.CountedRowsAreFrozen` | src/expenses/repositories/expenses.repository.ts:291-302 | once out of pending, amount, ratios, requester, approver and deletion never change, and the only move left is approved to paid |
| `ExpenseMachine.CommitKeepsBalance` | src/expenses/expenses.service.ts:198-313 | pay, reject, edit and cancel leave every member's sum of shares alone; an approval adds that row's share |
| `ExpenseMachine.NextOnPath` | src/expenses/expense-events.ts:37-71 | each lifecycle event is the next on its expense's path, with the ordinal as version |
| `ExpenseMachine.StepKeepsInv` | src/expenses/expenses.service.ts:198-381 | every creation, read and commit keeps the table's invariant |
| `ExpenseMachine.ApprovalCanMissAnEdit` | src/expenses/expenses.service.ts:337-350 | a reachable run in which an approval commits on an amount other than the one its approver saw |
| `ExpenseEdits.ApprovalIsOfWhatWasSeenIff` | src/expenses/expenses.service.ts:337-350 | over any run between an approver's read and a passing commit, the row approved is the row read with the edits committed between; its amount and ratios are those seen if and only if the last edit to set each, if any, set it to what was seen |
| `ExpenseEdits.PendingRowIsEdited` | src/expenses/expenses.service.ts:198-242 | while an expense stays pending, only committed edits change it, the last one to set a field deciding it |
| `ExpenseModel.BalancesMirror` | src/expenses/repositories/expenses.repository.ts:242-253 | when two members make all requests their balances are opposite, and what one owes is what the other is owed |
| `ExpenseModel.RoundIsNearest` | src/expenses/repositories/expenses.repository.ts:213-224 | the rounding is to the nearest cent, halves away from zero |
| `ExpenseModel.SelectCounterpart` | src/expenses/expense-counterpart.ts:15-20 | the counterpart is an active member other than the requester, absent exactly when there is none |
| `ExpenseModel.CounterpartIsFirst` | src/expenses/expense-counterpart.ts:15-20 | and it is the first such member in the list |
| `ExpenseStore.ExpensesService.Create` | src/expenses/expenses.service.ts:87-137 | row, audit entry and event together; the payer's part as given or half, the other's the rest |
| `ExpenseStore.ExpensesService.UpdateGuarded` | src/expenses/repositories/expenses.repository.ts:291-302 | writes exactly one row when status and deletion match, and reports whether it did |
| `ExpenseStore.ExpensesService.Commit` | src/expenses/expenses.service.ts:340-376 | the transaction is the machine's commit: one audit entry when applied, nothing on conflict |
| `ExpenseStore.ExpensesService.Act` | src/expenses/expenses.service.ts:323-381 | alone, a request is applied exactly when the policy allows it |
| `Ipv6Text.FullTextExpands` | src/webhooks/delivery/ssrf-http.client.ts:130-162 | eight groups printed in full, with or without an IPv4 tail and a zone, expand to themselves |
| `Ipv6Text.CompressedTextExpands` | src/webhooks/delivery/ssrf-http.client.ts:130-162 | so they do with any one run of zero groups written as '::' |
| `Ipv6Text.AnySpellingExpands` | src/webhooks/delivery/ssrf-http.client.ts:130-162 | eight pieces of one to four hexadecimal digits, in either case and with leading zeros, expand to the numbers they spell; fewer, around a '::', to those numbers around zeros |
| `Ipv6Text.AnySpellingWithIpv4Expands` | src/webhooks/delivery/ssrf-http.client.ts:130-162 | so they do with an IPv4 address as the last piece |
| `Ipv6Text.ZeroKeepsValue` | src/webhooks/delivery/ssrf-http.client.ts:146-149 | a leading zero does not change the number a piece spells |
| `Ipv6Text.CaseKeepsValue` | src/webhooks/delivery/ssrf-http.client.ts:146-149 | nor does the case of its letters |
| `Ipv6Text.ExpansionIsEightGroups` | src/webhooks/delivery/ssrf-http.client.ts:154-161 | whatever the text, an expansion is exactly eight values below 65536 |
| `Ipv6Text.ExpandsIffAddress` | src/webhooks/delivery/ssrf-http.client.ts:130-162 | a text expands if and only if what stands before its zone is pieces between colons that make eight groups, or at most eight around one '::' |
| `Ipv6Text.UnreadableIsBlocked` | src/webhooks/delivery/ssrf-http.client.ts:93-111 | what is of neither family, or does not read as an address, is blocked |
| `Ipv6Text.ParseGroups` | src/webhooks/delivery/ssrf-http.client.ts:136-152 | the loop is the piecewise reading, and fails exactly when some piece does |
| `Ipv6Text.SplitJoin` | src/webhooks/delivery/ssrf-http.client.ts:136-152 | splitting undoes joining for pieces without the separator |
| `Ipv6Text.OctetTestsAreNetworks` | src/webhooks/delivery/ssrf-http.client.ts:114-127 | the octet tests are exactly ten named networks, as address ranges |
| `Ipv6Text.MappedTextIsItsIpv4` | src/webhooks/delivery/ssrf-http.client.ts:86-112 | any text that expands to the mapped groups of an IPv4 address is blocked exactly when that address, or its dotted text, is |
| `Ipv6Text.MappedPrintsAreTheirIpv4` | src/webhooks/delivery/ssrf-http.client.ts:86-112 | so are its printed forms: in full or with any one run of its zero groups compressed, with an IPv4 tail or not, with a zone or not |
| `Ipv6Text.BlockedGroupsAreRanges` | src/webhooks/delivery/ssrf-http.client.ts:101-108 | outside the mapped form, exactly ::, ::1, fc00::/7 and fe80::/10 are blocked |
| `BondReport.BuildExpenseSection` | src/reports/build-bond-report.ts:186-272 | totals, percentages, a status bucket for exactly the statuses present, a category bucket for exactly the categories present, sorted |
| `BondReport.ReportConservesMoney` | src/reports/build-bond-report.ts:195-220 | total is paid plus pending, is the sum of the category buckets, is the sum of the non-rejected status buckets; category counts sum to the eligible rows |
| `BondReport.ReportIgnoresRowOrder` | src/reports/repositories/bond-report.repository.ts:57-68 | the same rows in any order give the same section |
| `BondReport.CategoriesPartition` | src/reports/build-bond-report.ts:206-217 | over any complete list of categories the category tallies add up to the eligible rows |
| `BondReport.StatusesPartition` | src/reports/build-bond-report.ts:186-203 | each undeleted row lies in one status; eligible is pending, approved and paid |
| `BondReport.ArrangedIsSorted` | src/reports/build-bond-report.ts:218-220 | buckets come out strictly ordered by amount and category |
| `BondReport.SortedIsUnique` | src/reports/build-bond-report.ts:218-220 | that order admits one arrangement of the same buckets |
| `BondReport.CategoriesAreOrdered` | src/reports/build-bond-report.ts:218-220 | larger amounts first, of equal ones no category first, then in collation order |
| `BondReport.ReportCountsRow` | src/reports/build-bond-report.ts:134-135 | what one more row adds to the total, to a status and to a category |
| `BondReport.StatusBuckets` | src/reports/build-bond-report.ts:186-193 | the status loop |
| `BondReport.CategoryBuckets` | src/reports/build-bond-report.ts:205-217 | the category loop: a bucket per category present, with its count and amount, each once |
| `BondReport.PercentageIsNearest` | src/reports/build-bond-report.ts:142-149 | the shown percentage is the nearest hundredth of a percent, a tie going up |
| `BondReport.PartIsAtMostWhole` | src/reports/build-bond-report.ts:142-149 | a part of a whole shows between 0 and 100 percent, 100 exactly when what is missing rounds away, and 0 of nothing |
| `BondReport.PaidPercentagesInRange` | src/reports/build-bond-report.ts:263-264 | with amounts not negative, both paid percentages are between 0 and 100 |
| `ActivityReport.BuildActivitySection` | src/reports/build-bond-report.ts:169-184 | total, rate, a count for exactly the statuses present, completed as the number of rows done, overdue as the number of open rows whose deadline is before now |
| `ActivityReport.ActivityCountsAddUp` | src/reports/build-bond-report.ts:171-184 | the status counts add up to the total; a closed activity is never overdue |
| `BondHealth.AggregatesByBond` | src/reports/repositories/bond-health.repository.ts:37-126 | after the four loops each bond holds its own row of each group, zeros where it has none |
| `BondHealth.CountPartIsItsRow` | src/reports/repositories/bond-health.repository.ts:98-123 | a bond's count is that of its row in the group, 0 without one |
| `BondHealth.CardAgreesWithReport` | src/reports/build-bond-health.ts:43-61 | over the same days, a bond's card shows the percentages and total of that bond's report, and its children and members from their own groups |
| `BondHealth.ExpenseColumnsAreReported` | src/reports/repositories/bond-health.repository.ts:77-87 | grouping all bonds at once gives each bond the sums the report computes from its own query |
| `BondTrend.BuildBondTrend` | src/reports/build-bond-health.ts:89-111 | exactly `months` points, each for the month after the one before it, counting up to the reference |
| `BondTrend.MonthKeysDiffer` | src/reports/build-bond-health.ts:77-80 | different months have different keys |
| `BondTrend.MonthKeySpellsMonth` | src/reports/build-bond-health.ts:77-80 | a key is the year in decimal, a dash and the month from 01 to 12 |
| `BondTrend.TrendEndsAtReference` | src/reports/build-bond-health.ts:97-101 | the last key is the reference month's if and only if its year is not in 0..99, and 1900 years later if it is |
| `BondTrend.TrendMonthsAreDistinct` | src/reports/build-bond-health.ts:96-108 | no month appears twice |
| `BondTrend.TrendSumsWindowRows` | src/reports/build-bond-health.ts:94-110 | the points sum to the rows whose month is in the window |
| `BondTrend.TrendCountsTheTable` | src/reports/repositories/bond-health.repository.ts:129-155 | each point tells its month of the table, and the points count the window's activities once each |

## Left out

- HTTP controllers, DTO validation, authentication, authorisation, Swagger, module wiring, migrations, storage and PDF: plumbing over libraries.
- Redis, BullMQ, TypeORM and Postgres internals: only the assumptions listed above are used.
- HMAC signing, encryption, DNS, undici and `SsrfHttpClient.post`: an attempt is an arbitrary (status, networkError, retryAfter), or one of the failures before the POST.
- Membership, category and child look-ups: a request that fails them does nothing; the model takes the requests that pass.
- The actor's role and the bond id in event payloads, and the realtime activity and expense frames: copied, never read by the modelled code.
- User deletion (which clears an assignee), retention purges and rows from before versions existed: outside the runs.
- The reminder of stale expenses: it writes `expense.stale` rows with the version of a pending expense and changes no expense. The events of `ExpenseMachine` are the lifecycle events.
- Notification recipients and wording: recipients are an arbitrary list.
- `last_error` texts, the attempt log, subscription health, observability and the `webhook.test` ping: written beside the modelled columns, read by none of them.
- `handleTest`, the infrastructure exceptions inside `handle`, and flushes or replays during an active attempt: the code promises nothing above there.
- The queue's own limit on jobs whose workers keep dying (it fails the job and keeps its id): the assumption above hands such a job out every time. A POST whose worker dies before the row is written is not counted as an attempt, there as in the code.
- `EndpointLimiter.run`: it releases once in a `finally`; the theorems cover any order of acquires and releases, so every use of it. A fractional configured cap is not modelled.
- The counts by status beside the balance: plain counts. Enabling a disabled subscription again: a disabled one stays so. A text of the IPv4 family that is not four octets, which `isIP` does not produce, is taken as blocked.
- The empty expense edit answered with a bad request, the conversion of an attachment into an expense (`updateActivityId`), and the concept, description, date and category columns: they touch no column the theorems read.
- Report members, children, ages, criticality and category names: easy counts and look-ups. The card's child and member counts are merged but not compared with the report's lists.
- JavaScript floats: money is in cents, percentages in hundredths of a percent, ratios in hundredths, times in milliseconds.
- `localeCompare` on category ids: a number per id in collation order, absent ids first.
- Octets that `Number` would accept but that are not decimal digits (signs, exponents, hexadecimal, blanks): `isIP` has rejected such text before; its answer is a parameter of `IsBlockedIp`. The bit masks are written as divisions.
- Months of years below 1000 or outside the range of `Date`: the database pads the year to four digits and the series does not. The database session is taken to be in UTC.
- The order in which the sweep's query returns rows: any order and any choice of at most 100 due rows is allowed.
- Concurrency inside `ActivityStore`, `DeliveryStore`, `FanOut.Relay` and `ExpenseStore`: their methods run one at a time; interleavings are in the machines, whose steps use the same functions.
