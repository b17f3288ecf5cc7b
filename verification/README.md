# Verified model of the VPS billing backend

The project models the parts of the backend in which something can be lost, doubled or overdrawn, and proves what they
keep over every run. `dafny verify dfyconfig.toml` checks all of it.

- **Capacity.** Node counters and resource reservations (`Allocator`), the same transactions taken statement by
  statement under read-committed isolation with row locks (`Interleaving`), what happens when a commit and a release
  race on one reservation (`DoubleResolution`), the scheduler with its ranking and fallback (`Scheduler`), the provision
  workflow with its compensation, one execution at a time (`Provisioning`) and any number at once (`ProvisioningRuns`),
  which agree (`ProvisioningAgreement`), how many instances an operation ends up with (`OperationInstances`), and the
  reconciler (`Reconciler`).
- **Money.** Order totals in machine integers (`Orders`, `Words`), payments, settlement, wallets and the double-entry
  ledger (`Commerce`, `Ledger`, `Bookkeeping`), the same statement by statement (`MoneyInterleaving`), fulfilment into
  subscriptions and operations (`Fulfillment`, `Texts`), and the way from webhook deliveries to subscriptions, request
  by request (`Deliveries`) and interleaved (`DeliveryInterleaving`).
- **Lifecycles.** Operations and their keys (`Operations`), workers, retries and recovery (`Retries`), the requests on
  instances and the workflow behind them (`InstanceActions`, `Lifecycle`), who writes what an instance is meant to be
  (`IntentInterleaving`), the Gregorian calendar (`Calendar`), and periods, renewals, cancellations and the due sweep,
  call by call (`Subscriptions`) and statement by statement (`SubscriptionInterleaving`).
- **Small cores.** The two rate limiters (`RateLimit`), TOTP (`Totp`) and the bounded broadcaster (`Broadcaster`).
- `Totals`, `Arithmetic`, `Resources`, `Instances`, `Identifiers` and `Options` are shared.

Code that changes rows or fields step by step is a class whose methods are proved equal to a function of the old state;
the lemmas are about those functions, over all inputs, all sequences of calls, or all interleavings of statements. The
modules named after these with `Laws` at the end (`AllocatorLaws`, `SchedulerLaws`, `ProvisioningLaws`, `CommerceLaws`,
`FulfillmentLaws`, `ReconcilerLaws`, `OperationLaws`, `ActionLaws`, `IntentLaws`, `OrderLaws`, `SubscriptionLaws`,
`LimiterLaws`, `TotpLaws`, `BroadcasterLaws`, `TextLaws`) say what each operation answers and writes in the columns of
its rows alone: exactly when each answer is given, which columns change, and to what. Some also prove a whole call to be
a run of the statements that the interleavings are made of.

How the model reads the source: ids are the 128-bit numbers behind UUIDs; CPU is an exact number of hundredths of a
core; scores and ratios are exact reals; time is in whole seconds, and in nanoseconds for the rate limiters; a row's
`version` and its touch-only timestamps are not modelled. Clocks, fresh ids, the answers of providers and gateways, and
whether a call to the database comes through are parameters. Go's time and formatting packages and Postgres's locks and
unique indexes are not part of the repository; their behaviour is written out where it matters. A transaction that fails
leaves the database as it was.

## What the proofs found

The code is modelled as it is. These are the places where it does something else than its comments, names or
documentation say or a reader would expect; where a proof settles the question, its lemma is named.

- Commit and release read the reservation without a lock. Their counters are right if and only if no reservation is
  resolved twice (`DoubleResolution.ConservedExactlyWhenResolvedOnce`), and a worker and the reconciler can resolve one
  twice (`DoubleResolution.RaceAppliesDeltaTwice`). Capacity is never exceeded all the same
  (`Interleaving.NoInterleavingOvercommits`).
- A provision execution that succeeds has its capacity allocated if and only if its reservation neither expired on the
  way nor saw its commit call fail (`ProvisioningRuns.SuccessCommitsExactlyWhenUnflawed`); one that outlives its
  reservation has none (`ProvisioningRuns.LateCommitIsLost`).
- `max_retries` bounds nothing for an operation that workers run, because no statement writes `retry_count`
  (`Retries.AlwaysFailingRetriesForever`), and is not looked at by the background run that fulfilment starts
  (`Retries.BackgroundFailureIgnoresRetries`). `Retries.FailedExactlyWhenLastWriteFails` says exactly when an operation
  fails. One whose worker dies while it waits is never recovered (`Retries.DeadWhileWaitingIsStranded`).
- An operation that has succeeded can be run again by a reconciler that had listed it as stuck
  (`Retries.SucceededIsRunAgain` and `Retries.RunsAgainExactlyWhen`), and each execution that records an instance adds
  one, since none looks for another's (`OperationInstances.AtMostOneExactlyWhenNoneFound`).
- The key of a request on an instance is meant to end with a timestamp that nothing provides. So each kind of action
  runs once for each instance, for ever: a second stop is accepted, answered with the first one's operation, and shown
  as the instance's desired state, and nothing carries it out (`InstanceActions.EachKindRunsOnceForEver`).
- Resetting a password asks for a running instance, and its workflow then leaves the instance as it was observed; the
  two differ unless that was running or not known (`ActionLaws.RequestAndWorkflowAgree`).
- The reconciler writes back the desired state that it has read, and so can take a request back
  (`IntentInterleaving.ReconcilerUndoesStop`), exactly when it had read the row before
  (`IntentInterleaving.IntentIsKeptExactlyWhen`).
- A cancelled subscription can come back: its renewal and the sweep overwrite rows that they have read before
  (`SubscriptionInterleaving.CancelledIsFinalExactlyWhen`).
- The comment on the sweep promises past_due to suspended; the computed grace period is not stored, so that step never
  happens (`Subscriptions.NobodyIsEverSuspended`). The comment also says "after" the due date where the query takes the
  due date itself as well.
- A reservation status "expired" is documented at backend/internal/domain/infrastructure/model.go:96 and never written.
- An order can end up cancelled although its payment has succeeded (`MoneyInterleaving.PaidOrderEndsCancelled`), exactly
  when a cancellation that had read it as pending commits last (`MoneyInterleaving.PaidExactlyWhenSettledLast` and
  `MoneyInterleaving.CancellableExactlyWhenReadBefore`). If it does so before the background fulfilment reads the order,
  the customer has paid and gets nothing (`DeliveryInterleaving.RefusedExactlyWhenReadBefore`).
- A cancelled order can still become paid (`Bookkeeping.CancelledIsPaidExactlyWhenPayable`).
- A quantity of 2^31 or more is never stored as ordered. It is charged in full and stored modulo 2^32 where that is a
  positive int32, and the order is refused where it is not, as for all quantities from 2^31 to 2^32
  (`Orders.StoresExactlyBelowInt32` and `Orders.PlacesExactlyTheStorable`).
- Lines without a currency can be mixed with lines in one, if they come first (`Orders.QuotesExactlyTheAcceptable`).
- Fulfilling an order is not idempotent (`Fulfillment.SecondCallDoublesSubscriptions`); it is safe only because it is
  triggered once (`Bookkeeping.FulfilmentTriggeredOnce` and `DeliveryInterleaving.TriggeredOnceInterleaved`).
- Twelve monthly periods are not always a year (`Calendar.TwelveMonthsAreAYear`).
- A fixed window in memory lets its first request through even when the limit is below one (`RateLimit.QuotaPerWindow`).

## Model

| member | source | states |
|---|---|---|
| `Allocator.Store.ReserveResources` | backend/internal/repository/infrastructure_repository.go:190-254 | the new tables and the answer, for every outcome: missing node, node not active, too little left in any one of CPU, memory and disk, taken id, or one reserved row and the matching increase of its node; a refusal changes nothing |
| `Allocator.Store.CommitReservation` | backend/internal/repository/infrastructure_repository.go:268-310 | moves exactly the row's amount from reserved to allocated and the row to committed; a missing row or one that is not reserved is an error and changes nothing |
| `Allocator.Store.ReleaseReservation` | backend/internal/repository/infrastructure_repository.go:313-355 | takes exactly the row's amount off the reserved counters and marks it released; a row already resolved is left alone without an error |
| `Allocator.Store.UpdateNodeStatus` | backend/internal/repository/nodes.sql.go:386-390 | changes the status of one node and nothing else |
| `Allocator.Store.UpdateNodeReservationDelta` | backend/internal/repository/nodes.sql.go:359-367 | adds a delta to the reserved counters of one row, and does nothing when the row is missing |
| `Allocator.Store.CommitNodeReservation` | backend/internal/repository/nodes.sql.go:14-25 | takes an amount off the reserved counters of one row and adds it to the allocated ones |
| `Allocator.AdmissionFits` | backend/internal/repository/infrastructure_repository.go:213-218 | the check under the row lock, with availability clamped at zero, is enough for the node still to fit once the amount is reserved |
| `Allocator.ApplyKeepsInvariant` | backend/internal/repository/infrastructure_repository.go:190-355 | each transaction keeps every node's reserved counters equal to the sum of its reserved rows, its allocated counters equal to the initial ones plus its committed rows, and their sum within the total |
| `Allocator.RunsNeverOvercommit` | backend/internal/repository/infrastructure_repository.go:190-355 | the same for every sequence of transactions on any set of nodes |
| `Allocator.ReserveThenRelease` | backend/internal/repository/infrastructure_repository.go:190-355 | releasing undoes a reservation: the counters of every node are again what they were |
| `Interleaving.StepKeepsSound` | backend/internal/repository/infrastructure_repository.go:190-355 | under read-committed reads and row locks, what a transaction has read under a lock or written stays consistent with the committed tables at every statement of every other transaction |
| `Interleaving.NoInterleavingOvercommits` | backend/internal/repository/infrastructure_repository.go:199-247 | in every state of every interleaving of reserve, commit, release and expiry, whatever races on whatever reservation, allocated plus reserved never exceeds the total |
| `Interleaving.StepRefines` | backend/internal/repository/infrastructure_repository.go:190-355 | each statement leaves the committed tables alone or does to them what one whole transaction does |
| `Interleaving.Serializable` | backend/internal/repository/infrastructure_repository.go:190-355 | if no reservation is resolved by two transactions at once, every interleaving ends as its completed transactions would, one after the other in commit order |
| `Interleaving.RunsApartConserve` | backend/internal/repository/infrastructure_repository.go:190-355 | under that side condition the counters of every node equal the sums of its rows in every reachable state |
| `DoubleResolution.StepKeepsAccounts` | backend/internal/repository/resource_reservations.sql.go:71-74 | without the side condition, the counters are exactly accounted for by how often each reservation has been committed and released |
| `DoubleResolution.ReservedDrift` | backend/internal/repository/resource_reservations.sql.go:71-74 | the reserved counters fall short of the reserved rows by exactly the amounts resolved more than once |
| `DoubleResolution.AllocatedDrift` | backend/internal/repository/resource_reservations.sql.go:71-74 | the allocated counters exceed the committed rows by exactly the commits that the rows' status does not show |
| `DoubleResolution.ConservedExactlyWhenResolvedOnce` | backend/internal/repository/infrastructure_repository.go:268-355 | after any interleaving from a conserved database, a node's counters equal the sums of its rows if and only if none of its non-zero reservations has been resolved twice |
| `DoubleResolution.RaceAppliesDeltaTwice` | backend/internal/repository/infrastructure_repository.go:277-309 | for every reserved row there is a run in which a commit and a release both read it as reserved and its amount is taken off the reserved counters twice, which breaks conservation |
| `Scheduler.FreeRatioInUnit` | backend/internal/service/scheduler/scheduler.go:76-79 | the average free ratio lies between 0 and 1 for a node whose counters are not negative |
| `Scheduler.ScoreOrderExactlyLexicographic` | backend/internal/service/scheduler/scheduler.go:80-99 | on any two nodes with positive totals, negative counters included, comparing scores is comparing weight, then free ratio, then id, if and only if the lighter one is not ahead in free ratio by ten for each step of weight |
| `Scheduler.ScoreOrderIsLexicographic` | backend/internal/service/scheduler/scheduler.go:80-99 | in particular it is on nodes whose counters are not negative: the ratio term stays within 0 to 100 against steps of 1000 |
| `Scheduler.PositivePlansAreMeasurable` | backend/internal/service/scheduler/scheduler.go:61-72 | for a plan that asks for some of everything the filter leaves only nodes with positive totals, so that the ratios can be taken; nodes with zero totals may be listed |
| `Scheduler.RankingIsUnique` | backend/internal/service/scheduler/scheduler.go:94-99 | a strict ranking of given candidates is unique, so the sorting algorithm does not matter |
| `Scheduler.SortCandidates` | backend/internal/service/scheduler/scheduler.go:94-99 | sorts an array of candidates in place into that ranking |
| `Scheduler.QualifyingCandidates` | backend/internal/service/scheduler/scheduler.go:58-86 | keeps, with their scores, the listed nodes that are active and have enough left |
| `Scheduler.TryInOrder` | backend/internal/service/scheduler/scheduler.go:104-132 | reserves on the first candidate it can, going on after a full or offline node and stopping at any other error, while other transactions complete between its attempts |
| `Scheduler.SelectAndReserve` | backend/internal/service/scheduler/scheduler.go:40-133 | the tables and the answer of the whole call, for any listing, stale or not, and any transactions of others between its attempts |
| `Scheduler.SelectsBestReservable` | backend/internal/service/scheduler/scheduler.go:101-130 | the node returned is the best ranked of those that qualified in the listing, but for those whose own attempt found them full or offline, and its reservation is all the call has added |
| `Scheduler.ErrorsLeaveNothing` | backend/internal/service/scheduler/scheduler.go:88-132 | a call that returns an error has added nothing to what others did |
| `Scheduler.AnswerIgnoresListingOrder` | backend/internal/service/scheduler/scheduler.go:92-99 | neither the answer nor the tables depend on the order of the listing |
| `Scheduler.StaleListingNeverOvercommits` | backend/internal/service/scheduler/scheduler.go:45-132 | however stale the listing, the counters stay conserved and within capacity |
| `Provisioning.ProvisionWorkflow.Execute` | backend/internal/workflow/provision_workflow.go:65-302 | the tables, the instances, the subscription's status and the result, for every combination of outcomes of the lookups, the provider calls, the insert and the release or commit call |
| `Provisioning.FailureIsCompensated` | backend/internal/workflow/provision_workflow.go:117-262 | a failed execution whose release comes through leaves the counters as others alone leave them, no instance, and at most one reservation of its operation, which is released |
| `Provisioning.SuccessAddsOnePlan` | backend/internal/workflow/provision_workflow.go:237-283 | a successful execution whose commit comes through allocates exactly one plan on one node that had room for it, adds one instance with that plan on that node, and activates the subscription unless that last write is lost |
| `Provisioning.RetriesAreCompensated` | backend/internal/workflow/provision_workflow.go:65-302 | over any number of retries with any outcomes: one plan for each success, nothing for each failure, one instance for each success, and no reservation of the operation left reserved |
| `ProvisioningRuns.StepKeepsSound` | backend/internal/workflow/provision_workflow.go:117-274 | whatever executions, expiries, crashes, status changes and failing calls interleave, each reservation and each instance stays tied to the execution that made it |
| `ProvisioningRuns.CommittedInjectIntoInstances` | backend/internal/workflow/provision_workflow.go:237-274 | in every reachable state each reservation committed since the start has an instance of its own, on the same node and with the same resources |
| `ProvisioningRuns.AllocatedIsBacked` | backend/internal/workflow/provision_workflow.go:237-274 | whatever the table held at the start, what has been allocated on a node since then is at most what the instances recorded since then take of it |
| `ProvisioningRuns.StatusFollowsExecution` | backend/internal/workflow/provision_workflow.go:148-274 | every taken reservation is committed if and only if its execution succeeded and it neither expired nor saw a call fail; short of that it is reserved exactly while the execution is at work and released exactly when it failed, and otherwise it stays reserved only once the execution is over |
| `ProvisioningRuns.SuccessCommitsExactlyWhenUnflawed` | backend/internal/workflow/provision_workflow.go:271-283 | in every reachable state a successful execution has its reservation committed if and only if that neither expired on the way nor saw its commit call fail |
| `ProvisioningRuns.InstanceIsBackedExactlyWhen` | backend/internal/workflow/provision_workflow.go:237-274 | in every reachable state a recorded instance is backed by a committed reservation of its own if and only if its execution went on to succeed and the reservation neither expired nor saw its commit call fail |
| `ProvisioningRuns.CountersSumSuccesses` | backend/internal/workflow/provision_workflow.go:117-274 | once all executions are over, without expiries, crashes or failing calls, the reserved counters are what they were at the start and each node has allocated since then exactly the plans of the executions that succeeded on it |
| `ProvisioningRuns.LateCommitIsLost` | backend/internal/workflow/provision_workflow.go:271-283 | the witness: an execution whose reservation expires before its commit ends as a success with an instance, while the counters are what they were before |
| `ProvisioningAgreement.ExecutionIsARun` | backend/internal/workflow/provision_workflow.go:65-302 | with nobody else at work, for all answers of the outside calls, the steps of one execution lead to exactly the tables and the result of the execution taken as a whole |
| `OperationInstances.InstancesCountSuccesses` | backend/internal/workflow/provision_workflow.go:237-274 | in every reachable state an operation has as many instances as executions of it have succeeded, and one more for each that has recorded its instance and is still at work or has crashed |
| `OperationInstances.AtMostOneExactlyWhenNoneFound` | backend/internal/workflow/provision_workflow.go:237-250 | in every run an operation ends up with at most one instance if and only if each of its executions that recorded one found none of the operation there |
| `OperationInstances.OneMoreExactlyWhenHolding` | backend/internal/workflow/provision_workflow.go:237-250 | from every reachable state a further instance can be recorded for an operation without a further reservation if and only if an execution of it holds one and has yet to record |
| `OperationInstances.TwoExecutionsTwoInstances` | backend/internal/workflow/provision_workflow.go:117-274 | the witness: two executions of one operation leave its subscription with two instances and allocate its plan twice |
| `Reconciler.Reconciler.ReconcileExpiredReservations` | backend/internal/reconciler/reconciler.go:50-67 | releases all expired reserved rows and no others, in whatever order they are listed, takes exactly their amounts off their nodes, and counts them |
| `Reconciler.Reconciler.ReconcileStuckOperations` | backend/internal/reconciler/reconciler.go:70-96 | puts every operation that has been running for too long back to retrying if it has a retry left and fails it otherwise, touches no other, and counts them |
| `Reconciler.Reconciler.ReconcileNodeHeartbeats` | backend/internal/reconciler/reconciler.go:99-122 | takes exactly the silent active nodes offline, marks the instances on them unknown, and counts the nodes |
| `Reconciler.Reconciler.MarkNodeInstancesUnknown` | backend/internal/reconciler/reconciler.go:124-140 | marks the live instances of one node unknown and changes nothing else |
| `Reconciler.Reconciler.ReconcileInstanceStates` | backend/internal/reconciler/reconciler.go:143-182 | gives every live instance that has a provider and a provider id the state its provider answers, or unknown when it cannot be reached, and counts those that differed |
| `Reconciler.Reconciler.ReconcileInstanceState` | backend/internal/reconciler/reconciler.go:150-180 | the same for one instance |
| `Instances.UpdatesKeepIdentity` | backend/internal/repository/instances.sql.go:269-278 | over any number of state updates an instance keeps its subscription, node, provider and resources and shows the states of the last one |
| `Instances.UpdatesKeepProviderId` | backend/internal/repository/instances.sql.go:269-278 | its provider id is the one that the last update to bring one brought, or the one it had: no update without an id takes it away |
| `Reconciler.Reconciler.RunOnce` | backend/internal/reconciler/reconciler.go:213-218 | a whole run as one function of the tables, the clock and the providers' answers |
| `Reconciler.RunConverges` | backend/internal/reconciler/reconciler.go:212-218 | a second run with the same clock and answers changes nothing, and a run changes nothing if and only if nothing was expired, stuck, silent or out of line |
| `Reconciler.SilentNodesGoOffline` | backend/internal/reconciler/reconciler.go:98-182 | exactly the silent nodes go offline; their instances end up unknown, unless their provider is asked and still answers, which undoes the mark in the same run |
| `Reconciler.RunLeavesIntentAlone` | backend/internal/reconciler/reconciler.go:50-182 | with nobody else at work no run changes a desired state, a provider instance id, an instance's node or resources, or an operation's retry count |
| `Reconciler.RunLeavesAllocationsAlone` | backend/internal/reconciler/reconciler.go:50-182 | no run changes an allocated counter or a reservation that is no longer reserved |
| `Reconciler.RunKeepsInvariant` | backend/internal/reconciler/reconciler.go:50-122 | a run keeps the counters conserved and every node within its capacity |
| `Operations.Service.CreateOperation` | backend/internal/service/operation/service.go:100-157 | returns the operation that holds a non-empty key, or creates one queued row, or fails on a taken key or id |
| `Operations.Service.UpdateProgress` | backend/internal/repository/operations.sql.go:500-508 | writes status, phase, clamped progress and, if it was unset, the starting time of one row, and no other column |
| `Operations.Service.CompleteOperation` | backend/internal/repository/operations.sql.go:14-23 | the columns that completing writes, and no other |
| `Operations.Service.FailOperation` | backend/internal/repository/operations.sql.go:154-162 | the columns that failing writes, and no other |
| `Operations.CallsKeepOrders` | backend/internal/service/operation/service.go:100-224 | over any calls no row goes away, none changes its kind, resource, key or retry columns, progress stays within 0 to 100, and no key is used twice |
| `Operations.SameKeySameOperation` | backend/internal/service/operation/service.go:100-109 | once an operation exists under a non-empty key, asking again under that key, after any calls and with any other input, returns it and creates nothing |
| `Operations.EmptyKeyServesOnce` | backend/internal/service/operation/service.go:104-134 | the empty key is not looked up but is unique all the same: a second operation without a key is refused for ever |
| `Retries.Worker.ProcessOperation` | backend/internal/worker/worker.go:104-156 | the row after one execution: unsupported kind, success, retry or final failure, decided on the row as it was read |
| `Retries.RetryCountNeverMoves` | backend/internal/worker/worker.go:135-142 | in every reachable state of any number of workers, background runs, crashes and recoveries the retry count is what it was at the start, in the row and in every copy that is decided on |
| `Retries.FailedExactlyWhenLastWriteFails` | backend/internal/worker/worker.go:127-148 | with a retry left and a registered workflow, in every run of workers, background runs, crashes and recoveries, an operation is failed if and only if the last write to its status was a workflow giving up by itself or a background run that failed |
| `Retries.NeverLeftFailed` | backend/internal/worker/worker.go:127-148 | such an operation, when only workers run it, is not failed whenever no worker is at work on it, as long as none dies between giving up and reporting back; other crashes do no harm |
| `Retries.CrashesNeverFailIt` | backend/internal/worker/worker.go:127-148 | when only workers run it and its workflow does not fail it by itself, it never fails at all, crashes included |
| `Retries.BackgroundFailureIgnoresRetries` | backend/internal/service/fulfillment/fulfillment_service.go:115-125 | the background run that fulfilment starts leaves an operation failed with all its retries left |
| `Retries.AlwaysFailingRetriesForever` | backend/internal/worker/worker.go:135-146 | an operation that only workers run and whose every execution fails is executed for ever, for any number of executions, exactly when it had a retry left at the start; otherwise it fails at the first |
| `Retries.CountedRetriesEnd` | backend/internal/worker/worker.go:135-142 | were each retry counted, it would end in failed after exactly its remaining retries plus one executions |
| `Retries.RevivedExactlyWhenPendingOrRunning` | backend/internal/repository/operations.sql.go:433-437 | with nobody at work on it, anything can happen to an operation again if and only if it is queued, retrying or running |
| `Retries.DeadWhileWaitingIsStranded` | backend/internal/repository/operations.sql.go:433-437 | every pending operation can reach a state in which its worker has died while it waited for a resource or its provider, and every run from there leaves it as it is |
| `Retries.RunsAgainExactlyWhen` | backend/internal/reconciler/reconciler.go:70-96 | from every reachable state in which an operation has ended, or at least is neither polled nor listed as stuck, it is started once more in some continuation if and only if a run of it has yet to start or, given a retry left, a run or a reconciler that has read it before is still at work on it |
| `Retries.SucceededIsRunAgain` | backend/internal/reconciler/reconciler.go:70-96 | the witness: an operation that succeeds after the reconciler has listed it as stuck is put back to retrying and started again |
| `Retries.TwoWorkersCanRunIt` | backend/internal/worker/worker.go:78-98 | nothing keeps two workers from running one pending operation at once |
| `Lifecycle.InstanceLifecycleWorkflow.Execute` | backend/internal/workflow/instance_workflow.go:41-180 | the operation's row, the instances and the result, for every kind of operation and every outcome of the lookup, the provider and the update |
| `Lifecycle.AllOrNothing` | backend/internal/workflow/instance_workflow.go:106-166 | a failed execution changes no instance; a successful one leaves its own in the target state, desired and observed alike, and not deleted |
| `Lifecycle.GivingUpIsUndone` | backend/internal/workflow/instance_workflow.go:79-83 | an execution without a provider fails its operation, and the worker then puts it back to retrying with the failure's error and finishing time still on it |
| `InstanceActions.InstanceHandler.HandleAction` | backend/internal/handler/instance_handler.go:101-171 | the operations, the instances and the answer, for every outcome of the look-ups, the conflict check, the creation and the write of the desired state |
| `InstanceActions.ActionKeyInjective` | backend/internal/handler/instance_handler.go:148 | requests of different kinds or for different instances have different keys |
| `InstanceActions.AcceptedRunsExactlyWhenFirst` | backend/internal/handler/instance_handler.go:134-165 | in every reachable state a request that is accepted is given an operation of its own if and only if there is none of its kind on its instance yet, and otherwise that one, which is not in progress, while the instance shows what was asked for |
| `InstanceActions.EachKindRunsOnceForEver` | backend/internal/handler/instance_handler.go:148 | every later request of a kind for an instance that is accepted, whatever has happened since, is given the operation of the first and runs nothing |
| `IntentInterleaving.IntentIsKeptExactlyWhen` | backend/internal/reconciler/reconciler.go:124-180 | when requests, workflows and reconcilers overlap: from any state an instance's desired state can change without anybody asking for it if and only if a reconciler that has read it as something else still has to write the row back |
| `IntentInterleaving.ReconcilerUndoesStop` | backend/internal/reconciler/reconciler.go:143-180 | the witness: a stop requested while the reconciler waits for the provider is taken back |
| `IntentInterleaving.IntentsAreAskedFor` | backend/internal/repository/instances.sql.go:269-278 | in every interleaving the desired state is the one at the start or one that was asked for since, and all columns but the two states are as they were |
| `Orders.CreateOrder` | backend/internal/service/commerce/order_service.go:33-139 | the placed order or the first error, line by line, with int64 products and sums that wrap |
| `Orders.CreateOrderWithItems` | backend/internal/repository/commerce_repository.go:340-357 | stores each quantity as an int32 and refuses the order when one is not positive after that |
| `Orders.QuotesExactlyTheAcceptable` | backend/internal/service/commerce/order_service.go:47-91 | the loop succeeds if and only if every line names an active plan of an active product with a positive quantity and no line is in another currency than one before it, lines without a currency excepted as long as they come first; then there is one item for each line at the catalog's price |
| `Orders.ChargesWorth` | backend/internal/service/commerce/order_service.go:74-102 | within int32 quantities the total is unit price times quantity over all items if and only if that sum fits an int64 |
| `Orders.PlacesExactlyTheStorable` | backend/internal/repository/commerce_repository.go:340-357 | for all lines: an order is placed if and only if its lines are acceptable and every quantity is positive modulo 2^32 as an int32, and refused at the insert if and only if they are acceptable and some quantity is not |
| `Orders.StoresExactlyBelowInt32` | backend/internal/repository/commerce_repository.go:347 | for every placed order of any lines: it charges unit price times ordered quantity in full, wrapped to an int64, stores each quantity modulo 2^32, and stores the ordered quantity if and only if that is below 2^31 |
| `Words.WrapSum` | backend/internal/service/commerce/order_service.go:74-75 | wrapping at every step of a sum is wrapping once at the end |
| `Commerce.CommerceStore.PlaceOrder` | backend/internal/repository/commerce_repository.go:308-397 | adds the order and its pending invoice, or nothing |
| `Commerce.CommerceStore.CancelOrder` | backend/internal/service/commerce/order_service.go:171-182 | cancels only the user's own pending order |
| `Commerce.CommerceStore.InitiatePayment` | backend/internal/service/commerce/payment_service.go:47-95 | returns the payment under the order's key, or creates one for the order's total and currency, or refuses |
| `Commerce.CommerceStore.ProcessWebhook` | backend/internal/service/commerce/payment_service.go:103-162 | every check in order, then the settlement |
| `Commerce.CommerceStore.ProcessPaymentSuccessTx` | backend/internal/repository/commerce_repository.go:592-721 | the settlement: payment, order, invoice, one balanced posting and one event together, or nothing; a payment that has succeeded is reported as already processed |
| `Commerce.CommerceStore.GetOrCreateWallet` | backend/internal/repository/commerce_repository.go:831-855 | an empty wallet where there was none, and otherwise nothing, with the currency as it is given |
| `Commerce.CommerceStore.GetUserWallet` | backend/internal/service/commerce/wallet_service.go:36-42 | the same, in US dollars when no currency is given |
| `Commerce.CommerceStore.DepositWalletTx` | backend/internal/repository/commerce_repository.go:857-972 | one balanced posting, the absolute balance and one event, or nothing for a negative amount |
| `Ledger.TrialBalance` | backend/internal/repository/commerce_repository.go:645-689 | in every currency all debits equal all credits, and gateway debits equal revenue credits plus wallet credits |
| `Bookkeeping.HandleKeeps` | backend/internal/repository/commerce_repository.go:592-972 | every request keeps: unique payments, payments for their order's total and currency, one posting and one event for each succeeded payment, wallets that are the sum of their entries, revenue that is the sum of succeeded payments |
| `Bookkeeping.SettledExactlyOnce` | backend/internal/repository/commerce_repository.go:601-721 | over any requests in any order a payment has exactly one order_payment posting, one payment.succeeded.v1 event and one delivery answered as the first if it has succeeded, and none of them otherwise |
| `Bookkeeping.SuccessIsFinal` | backend/internal/repository/commerce_repository.go:610-614 | succeeded is absorbing |
| `Bookkeeping.CancelledIsPaidExactlyWhenPayable` | backend/internal/repository/commerce_repository.go:616-634 | from every reachable state in which an order is cancelled it can still become paid, because settlement does not look at its status, if and only if a payment of it is pending that a delivery can name and settle |
| `Bookkeeping.WalletProjectsLedger` | backend/internal/repository/commerce_repository.go:937-942 | each wallet's balance is its credits minus its debits wrapped to an int64, and that sum itself if and only if it fits |
| `Bookkeeping.OnePaymentPerOrder` | backend/internal/service/commerce/payment_service.go:61-70 | an order never has two payments |
| `Bookkeeping.BooksBalance` | backend/internal/repository/commerce_repository.go:645-689 | in every reachable state debits equal credits, gateway debits equal revenue plus wallet credits, and revenue is the sum of the totals of the orders with a succeeded payment |
| `Bookkeeping.RevenueIsWorthSold` | backend/internal/service/commerce/order_service.go:74-102 | for orders within int32 quantities and int64 sums, revenue in each currency is unit price times quantity over all orders in it that a payment has succeeded for |
| `Bookkeeping.FulfilmentTriggeredOnce` | backend/internal/service/commerce/payment_service.go:151-155 | over any deliveries the fulfilment of an order is triggered exactly once if a payment of it has succeeded, and never otherwise |
| `MoneyInterleaving.CommitRefines` | backend/internal/repository/commerce_repository.go:871-942 | a deposit or a settlement that commits, however its statements interleave with others, does what the whole transaction would do at that moment: no absolute balance overwrites another deposit |
| `MoneyInterleaving.StepKeepsSound` | backend/internal/repository/wallets.sql.go:72-102 | what is read under the lock of a wallet or of a payment, and what the unique keys of a new wallet or a gateway reference promise, holds until the transaction ends |
| `MoneyInterleaving.SettledExactlyOnceInterleaved` | backend/internal/repository/commerce_repository.go:601-614 | exactly-once settlement in every interleaving of concurrent deliveries |
| `MoneyInterleaving.NoDepositIsLost` | backend/internal/repository/commerce_repository.go:873-942 | in every interleaving of deposits, first deposits that create the wallet included, the balance is what the wallet's entries come to |
| `MoneyInterleaving.InterleavedBooksBalance` | backend/internal/repository/commerce_repository.go:645-689 | in every interleaving debits equal credits, gateway debits equal revenue plus wallet credits, and revenue is the sum of the totals of the orders with a succeeded payment |
| `MoneyInterleaving.InterleavedRevenueIsWorthSold` | backend/internal/service/commerce/order_service.go:74-102 | in every interleaving, for orders within int32 quantities and int64 sums, revenue in each currency is unit price times quantity over all orders in it that a payment has succeeded for |
| `MoneyInterleaving.PaidExactlyWhenSettledLast` | backend/internal/repository/commerce_repository.go:627-634 | in every interleaving an order with a succeeded payment is paid if and only if the last transaction to write its status was a settlement, and is cancelled otherwise |
| `MoneyInterleaving.CancellableExactlyWhenReadBefore` | backend/internal/service/commerce/order_service.go:171-182 | from any reachable state in which an order has been paid for and is paid, some continuation ends with it cancelled if and only if a cancellation that has read it as pending is still at work; otherwise it stays paid for ever |
| `MoneyInterleaving.PaidUnlessCancelled` | backend/internal/repository/commerce_repository.go:627-634 | an order with a succeeded payment is paid in every interleaving in which nobody begins to cancel that order, whatever is done to others |
| `MoneyInterleaving.PaidOrderEndsCancelled` | backend/internal/service/commerce/order_service.go:171-182 | the witness: a cancellation that has read its order as pending overwrites it after the payment has settled |
| `Fulfillment.FulfillmentService.FulfillPaidOrder` | backend/internal/service/fulfillment/fulfillment_service.go:41-131 | subscriptions and operations after one call, for any failing lookups and writes |
| `Fulfillment.FulfillmentService.FulfillUnit` | backend/internal/service/fulfillment/fulfillment_service.go:60-106 | one unit: a pending subscription for a month, then an operation for it under the unit's key |
| `Fulfillment.FulfilsEachUnitOnce` | backend/internal/service/fulfillment/fulfillment_service.go:53-127 | when everything comes through, a first call creates exactly as many subscriptions and operations as the order has units, and each unit has a subscription of its own and an operation for just that subscription |
| `Fulfillment.SubscriptionsAreWorthTheOrder` | backend/internal/service/fulfillment/fulfillment_service.go:65-77 | the prices of the new subscriptions add up to unit price times quantity over the order's items |
| `Fulfillment.SecondCallDoublesSubscriptions` | backend/internal/service/fulfillment/fulfillment_service.go:60-106 | a second call is not idempotent: it creates all subscriptions again and no operation for any of them |
| `Deliveries.DeliveriesSellWhatWasCharged` | backend/internal/service/commerce/payment_service.go:131-155 | however often and in whatever order webhooks are delivered, each unit of a paid order ends up with a subscription of its own and an operation of its own for just that subscription, there are exactly as many new ones as units, and their prices add up to exactly the total that was charged; an order without a succeeded payment has none |
| `Deliveries.PaidOrderStays` | backend/internal/repository/commerce_repository.go:610-634 | an order that a payment has succeeded for is paid, and no request changes it any more |
| `DeliveryInterleaving.TriggeredOnceInterleaved` | backend/internal/service/commerce/payment_service.go:151-155 | in every interleaving of deliveries, settlements and cancellations the fulfilment of an order is triggered exactly once if a payment of it has succeeded, and never otherwise |
| `DeliveryInterleaving.FulfilsExactlyWhenSettledLast` | backend/internal/service/fulfillment/fulfillment_service.go:41-51 | the background fulfilment, which reads the order later, fulfils it if and only if the last write to its status by then was a settlement, and otherwise gives up for good |
| `DeliveryInterleaving.RefusedExactlyWhenReadBefore` | backend/internal/service/fulfillment/fulfillment_service.go:49-51 | from every reachable state in which a paid order waits for its fulfilment, it can end up refused if and only if a cancellation that has read it as pending is still at work |
| `DeliveryInterleaving.SoldIsWhatWasFulfilled` | backend/internal/service/fulfillment/fulfillment_service.go:41-130 | over any interleaving of any number of orders, when what fulfilments write comes through: each order found paid has for each of its units a subscription and an operation of its own, and all that the shop has sold is worth exactly what these orders were charged |
| `DeliveryInterleaving.FulfillingLeavesOthers` | backend/internal/service/fulfillment/fulfillment_service.go:89 | fulfilling one order takes no key of another |
| `Texts.ProvisionKeyInjective` | backend/internal/service/fulfillment/fulfillment_service.go:89 | the keys of different units differ, and none is empty |
| `Texts.CanonicalInjective` | backend/internal/service/fulfillment/fulfillment_service.go:89 | different UUIDs have different canonical forms |
| `Texts.CanonicalKeepsOrder` | backend/internal/service/scheduler/scheduler.go:98 | one UUID is less than another as a number if and only if its canonical form comes first in the order of texts |
| `Calendar.DayHasDate` | backend/internal/service/subscription/subscription_service.go:28-39 | every day has a valid Gregorian date of which it is the day |
| `Calendar.DateOfDay` | backend/internal/service/subscription/subscription_service.go:28-39 | and each valid date is the date of its day |
| `Calendar.AddMonthsSpans` | backend/internal/service/subscription/subscription_service.go:28-39 | adding k months, with days that overflow their month normalised into the next, moves a day by exactly the lengths of the k calendar months from its own on |
| `Calendar.SpanBounds` | backend/internal/service/subscription/subscription_service.go:28-39 | one month is its own length, 28 to 31 days; three are 89 to 92, six 181 to 184, twelve 365 or 366 |
| `Calendar.TwelveMonthsAreAYear` | backend/internal/service/subscription/subscription_service.go:28-39 | twelve chained months end where one year does if and only if the first day is at most the 28th, or a 29th in February or before a February that has one |
| `Subscriptions.PeriodLength` | backend/internal/service/subscription/subscription_service.go:28-39 | the same bounds for the period that a billing cycle gives, from any instant |
| `Subscriptions.TwelveMonthlyAreOneAnnual` | backend/internal/service/subscription/subscription_service.go:28-39 | twelve chained monthly periods equal one annual period under exactly that condition |
| `Subscriptions.SubscriptionService.CreateSubscription` | backend/internal/service/subscription/subscription_service.go:41-71 | a row whose period and due date follow from the cycle |
| `Subscriptions.SubscriptionService.RenewSubscription` | backend/internal/service/subscription/subscription_service.go:92-114 | refused for cancelled and terminated rows; otherwise active again for a period that starts at the end of the current one if that is still to come, and now if not |
| `Subscriptions.SubscriptionService.CancelSubscription` | backend/internal/service/subscription/subscription_service.go:116-131 | only the user's own active or past-due subscription, at once or at the end of its period |
| `Subscriptions.SubscriptionService.ListDueSubscriptions` | backend/internal/repository/subscriptions.sql.go:186-191 | as many due rows as the limit allows, the earliest due first |
| `Subscriptions.SubscriptionService.ListGraceExpiredSubscriptions` | backend/internal/repository/subscriptions.sql.go:236-241 | as many past-due rows with an expired grace period as the limit allows |
| `Subscriptions.SubscriptionService.ProcessDueAndGraceCheck` | backend/internal/service/subscription/subscription_service.go:133-168 | marks what the first query answers past due and what the second answers suspended, changes nothing else, and counts both |
| `Subscriptions.EachPeriodFollows` | backend/internal/service/subscription/subscription_service.go:102-113 | each renewal's period starts no earlier than the last one ends, and exactly there if and only if it is renewed no later than that |
| `Subscriptions.PeriodsNeverOverlap` | backend/internal/service/subscription/subscription_service.go:92-114 | for any renewals at any instants no two periods overlap and their ends strictly increase |
| `Subscriptions.NobodyIsEverSuspended` | backend/internal/service/subscription/subscription_service.go:143-165 | in every reachable state, fulfilment's own creations included, the due date is the period's end and no grace period is stored, so no sweep ever suspends anybody |
| `Subscriptions.GracedSweepsDrain` | backend/internal/service/subscription/subscription_service.go:133-168 | were the computed grace period stored, sweeps at one instant would mark the due rows and suspend those with an expired grace period, 100 of each a sweep, until none is left, and touch nobody else |
| `Subscriptions.StoredGraceSuspends` | backend/internal/service/subscription/subscription_service.go:133-168 | every due subscription, however many there are, would then be past due with its grace period, and suspended by the sweep that reaches it after that |
| `Subscriptions.SweepsDrain` | backend/internal/service/subscription/subscription_service.go:136-151 | sweeps at one instant drain n due subscriptions in exactly n / 100 calls, rounded up, with counts that add up to n |
| `Subscriptions.CancelledIsFinal` | backend/internal/service/subscription/subscription_service.go:98-100 | as long as calls do not overlap: whatever is done to others, renewals, cancellations and sweeps leave a cancelled subscription as it is; what overlapping calls do is in `SubscriptionInterleaving` |
| `Subscriptions.OnlyActivationRevives` | backend/internal/workflow/provision_workflow.go:283 | over any one whole call that no other overlaps, a cancelled subscription stays cancelled if and only if that is not its own activation by the provisioning workflow |
| `SubscriptionInterleaving.CancelledIsFinalExactlyWhen` | backend/internal/repository/subscriptions.sql.go:330-339 | when calls overlap: from any state in which a subscription is cancelled, some continuation without its activation ends in another status if and only if a renewal that has read it, or a sweep that has listed it, still has to write; otherwise it is cancelled in every continuation |
| `SubscriptionInterleaving.CancelledIsUntouchedExactlyWhen` | backend/internal/repository/subscriptions.sql.go:419-425 | its row can change at all if and only if, besides those, a second cancellation is at work on it that writes its end anew or marks an unmarked row to end with its period |
| `SubscriptionInterleaving.RenewalOverwritesCancellation` | backend/internal/service/subscription/subscription_service.go:92-131 | the witness: a renewal that has read an active subscription leaves it active, renewed, and with an end, although its user has cancelled it at once in between |
| `SubscriptionInterleaving.SweepOverwritesCancellation` | backend/internal/service/subscription/subscription_service.go:136-151 | the witness for the sweep: a subscription that is cancelled after it was listed as due ends up past due, with an end |
| `SubscriptionInterleaving.NobodyIsEverSuspendedInterleaved` | backend/internal/service/subscription/subscription_service.go:153-165 | in every interleaving no grace period is stored and no sweep has anybody to suspend |
| `SubscriptionInterleaving.WriteRenewsExactlyWhen` | backend/internal/service/subscription/subscription_service.go:92-114 | in every interleaving the write of a renewal does what the whole renewal would do at that moment if and only if the row is still renewable and the new period would still start where it has been computed to |
| `SubscriptionInterleaving.TwoRenewalsAddOnePeriod` | backend/internal/service/subscription/subscription_service.go:92-114 | the witness: two renewals that both read before either writes add one period between them |
| `SubscriptionInterleaving.RenewalApart` | backend/internal/service/subscription/subscription_service.go:92-114 | a renewal that nothing overlaps is the whole request |
| `SubscriptionInterleaving.CancellationApart` | backend/internal/service/subscription/subscription_service.go:116-131 | and so is a cancellation |
| `SubscriptionInterleaving.SweepApart` | backend/internal/service/subscription/subscription_service.go:133-168 | and a sweep, row by row in the order listed |
| `RateLimit.MemoryRateLimiter.Allow` | backend/internal/middleware/rate_limit.go:58-72 | the cell of one key and the answer; other keys are untouched |
| `RateLimit.RedisRateLimiter.Allow` | backend/internal/middleware/rate_limit.go:25-41 | the counters and the answer, with an expiry of two windows on a fresh counter, whether Redis answers, loses the expiry or fails, in which case every request is let through |
| `RateLimit.QuotaPerWindow` | backend/internal/middleware/rate_limit.go:58-72 | each window lets through exactly its first requests, up to the limit, and its very first in any case |
| `RateLimit.RefusedOnlyWhenFull` | backend/internal/middleware/rate_limit.go:70-71 | a request is refused if and only if its window has already let its quota through |
| `RateLimit.TwiceTheQuotaPerInterval` | backend/internal/middleware/rate_limit.go:58-72 | no closed interval as long as a window sees more than twice the quota let through, for all request times |
| `RateLimit.LimitPerBucket` | backend/internal/middleware/rate_limit.go:31-41 | a counter never expires within its own bucket, so of the requests that are counted each bucket lets through exactly the first ones, up to the limit, and none when that is below one |
| `RateLimit.TwiceTheLimitPerInterval` | backend/internal/middleware/rate_limit.go:31-41 | no interval shorter than a window sees more than twice the limit of counted requests let through |
| `Totp.PutUint64` | backend/internal/domain/identity/totp.go:37-39 | fills the buffer with the counter, the most significant byte first |
| `Totp.GenerateTOTPCode` | backend/internal/domain/identity/totp.go:27-53 | the code of a secret at a time, or an error for a secret that cannot be decoded |
| `Totp.ValidateTOTPCode` | backend/internal/domain/identity/totp.go:56-76 | accepts a trimmed code of six characters that equals one of the three generated ones, and nothing else |
| `Totp.TruncationIsBigEndian` | backend/internal/domain/identity/totp.go:45-49 | the masked shifts are the four big-endian bytes at the offset without their topmost bit, with all indices inside a 20-byte digest (section 5.3 of RFC 4226) |
| `Totp.PaddedInjective` | backend/internal/domain/identity/totp.go:51-52 | the six-digit form is injective |
| `Totp.AcceptsExactlyThreeSteps` | backend/internal/domain/identity/totp.go:62-75 | validation accepts exactly the codes of the counters c - 1, c and c + 1, and before 30 s what truncated division makes of c - 1 (sections 4.2 and 5.2 of RFC 6238) |
| `Totp.SkewOfOneStepIsAccepted` | backend/internal/domain/identity/totp.go:56-76 | a code generated at t is accepted at every time within 30 s of t |
| `Broadcaster.LocalBroadcaster.PublishUpdate` | backend/internal/service/operation/service.go:43-56 | each subscribed channel with room gets the update, in order; nothing else changes |
| `Broadcaster.LocalBroadcaster.SubscribeTo` | backend/internal/service/operation/service.go:58-63 | adds one empty channel at the end of the list of its operation |
| `Broadcaster.LocalBroadcaster.CleanUpChannel` | backend/internal/service/operation/service.go:65-80 | removes and closes its own channel only, drops an empty list, and does nothing the second time |
| `Broadcaster.ActionsKeepRight` | backend/internal/service/operation/service.go:43-83 | after any actions no closed channel is listed, no channel holds more than 16 updates, and what a reader gets is, in order, part of what was published while it was subscribed, all of it up to a buffer's worth |
| `AllocatorLaws.ReserveAnswersExactly` | backend/internal/repository/infrastructure_repository.go:199-235 | over the columns alone, exactly when a reservation is granted, and exactly when each refusal is given: no such node, a node that is not active, more asked of CPU, memory or disk than max(0, total - allocated - reserved), a taken id |
| `AllocatorLaws.ReserveWritesExactly` | backend/internal/repository/infrastructure_repository.go:220-248 | a granted reservation enters one row, given column by column with its expiry, adds its amounts to its node's reserved counters, and changes nothing else |
| `AllocatorLaws.ResolvesExactlyTheReserved` | backend/internal/repository/infrastructure_repository.go:268-355 | over the columns alone, exactly when a commit or a release gets which answer, and what it moves: a reserved row's amounts, off the reserved counters, onto the allocated ones if it commits |
| `AllocatorLaws.ReserveIsARun` | backend/internal/repository/infrastructure_repository.go:190-254 | a reservation is granted if and only if its statements, taken one after the other with nobody else at work, can all be made, and then ends with the same tables |
| `AllocatorLaws.ResolveIsARun` | backend/internal/repository/infrastructure_repository.go:268-355 | and what a commit or a release does to a reserved row is such a run of its statements |
| `AllocatorLaws.ReservesOnlyOnActive` | backend/internal/repository/infrastructure_repository.go:209-211 | in every interleaving, status changes included, whenever a reservation is committed to the database its node is active and has room for it at that moment |
| `SchedulerLaws.ChosenIsTheBest` | backend/internal/service/scheduler/scheduler.go:76-130 | over the columns of healthy nodes: every listed active node with room that has a larger weight than the one answered, or as much and a larger sum of (total - allocated - reserved) / total over CPU, memory and disk, or as much of both and the smaller id, was found full or offline at an earlier attempt; the new row is given column by column |
| `SchedulerLaws.NoneOnlyWhenAllAreFull` | backend/internal/service/scheduler/scheduler.go:88-132 | the answer that there is no such node means that each listed active node with room was found full or offline at an attempt on it |
| `SchedulerLaws.FailsOnlyOnMissingOrTaken` | backend/internal/service/scheduler/scheduler.go:117-129 | any other error comes from an attempt that met a node that is gone, or a taken id on a node with room |
| `ProvisioningLaws.SucceedsExactlyWhen` | backend/internal/workflow/provision_workflow.go:65-262 | an execution succeeds if and only if the plan is found, a node selected, a provider found, the instance created and verified there, and its row stored under a free id |
| `ProvisioningLaws.RecordsWhatWasAnswered` | backend/internal/workflow/provision_workflow.go:237-283 | column by column, the row of the instance after a success (subscription, node, provider asked, id answered, resources, desired "running", verified state, not deleted), its reservation with its expiry, the subscription's status, and that nothing else of these tables changes |
| `ProvisioningLaws.NextRunAsksItsProvider` | backend/internal/reconciler/reconciler.go:143-182 | whatever else there is, the next run of the reconciler asks that provider about that instance under that id and shows its answer |
| `CommerceLaws.SucceedsExactlyWhenPaid` | backend/internal/service/commerce/payment_service.go:103-162 | over any requests from empty books, a payment has succeeded if and only if one of them was a delivery by "fake" that was signed, reported success and carried the payment's number, amount and currency while it was pending, its order there, its amount not negative and the reference free |
| `CommerceLaws.DeliveryAnswersExactly` | backend/internal/service/commerce/payment_service.go:108-150 | a delivery that fails any check changes nothing and is refused for the first check that it fails; it settles if and only if it passes them all |
| `CommerceLaws.DeliveryWritesExactly` | backend/internal/repository/commerce_repository.go:616-721 | what a settlement writes into payments, orders, invoices, ledger and outbox, column by column |
| `CommerceLaws.SettlesExactly` | backend/internal/repository/commerce_repository.go:601-643 | the transaction's own answers, each if and only if its cause is there and no earlier one is |
| `CommerceLaws.OrderMovesExactly` | backend/internal/repository/commerce_repository.go:627-634 | what each request does to an order: paid if a payment of it settles, cancelled if its own user cancels it while pending, and untouched otherwise |
| `CommerceLaws.CancelsExactly` | backend/internal/service/commerce/order_service.go:171-182 | exactly when a cancellation gets which answer, and the one column that it writes |
| `CommerceLaws.InitiatesExactly` | backend/internal/service/commerce/payment_service.go:47-95 | exactly when a new payment is made, with what columns, and when the one that is there is given |
| `CommerceLaws.InitiateAnswersExactly` | backend/internal/service/commerce/payment_service.go:47-70 | exactly when an initiation is refused for its gateway, its order or that order's status, and that a payment that has succeeded is refused |
| `CommerceLaws.DepositWritesExactly` | backend/internal/repository/commerce_repository.go:857-972 | a deposit's balance modulo 2^64, posting and event, column by column; a negative amount changes nothing |
| `CommerceLaws.PlacesExactly` | backend/internal/repository/commerce_repository.go:308-397 | exactly when an order is entered, with an invoice that is not paid |
| `CommerceLaws.OpensExactly` | backend/internal/service/commerce/wallet_service.go:36-42 | a wallet is opened empty, where there is none, in US dollars unless a currency is given |
| `FulfillmentLaws.UnitsMapOntoNewRows` | backend/internal/service/fulfillment/fulfillment_service.go:53-106 | a first fulfilment maps the units one-to-one onto the new subscriptions and onto the new operations; for each, the operation's kind is "provision_instance", its resource is that subscription's id, it is queued under the unit's key and retryable with three retries and none counted, and the subscription has the order's user and currency, the item's plan and price, is pending, and lasts the one calendar month from its instant |
| `FulfillmentLaws.UnitDoesExactly` | backend/internal/service/fulfillment/fulfillment_service.go:65-106 | and what one unit does when some of it fails or an id or a key is taken |
| `FulfillmentLaws.UnpaidGetsNothing` | backend/internal/service/fulfillment/fulfillment_service.go:49-51 | an order that is not paid gets nothing |
| `OperationLaws.CreatesExactly` | backend/internal/service/operation/service.go:100-157 | exactly when a row is created, the columns it then has, and exactly when a call is refused |
| `OperationLaws.ShowsTheLastWrites` | backend/internal/repository/operations.sql.go:14-23 | over any updates a row shows the status and the time of the last, the finishing time of the last that ended it, and the error of the last failure; the other columns stay |
| `OperationLaws.StartsOnce` | backend/internal/repository/operations.sql.go:500-508 | the first starting time that is written stays, over any updates |
| `OperationLaws.ProgressIsClamped` | backend/internal/service/operation/service.go:159-224 | progress shows as it is within 0 to 100 and as the nearer bound beyond; completing shows 100 and failing leaves it |
| `OperationLaws.ExecutionEndsExactly` | backend/internal/worker/worker.go:104-156 | the status, phase, progress, error and times at the end of one execution, for a success, a failure with and without a retry left, and an operation of an unknown kind |
| `OperationLaws.ListedExactlyWhen` | backend/internal/worker/worker.go:78-98 | exactly when a worker can poll an operation and when the reconciler lists it as stuck |
| `OperationLaws.ExecutionIsARun` | backend/internal/worker/worker.go:104-156 | with nobody else at work the steps of one execution end with the row of the execution taken as a whole |
| `ActionLaws.RequestAnswersExactly` | backend/internal/handler/instance_handler.go:101-171 | exactly when a request is accepted, in conflict or not found, and the columns of the operation and the instance that it writes |
| `ActionLaws.WorkflowEndsExactly` | backend/internal/workflow/instance_workflow.go:106-180 | exactly when the workflow succeeds, and the states that the instance then has for each kind of action |
| `ActionLaws.WorkflowLeavesOperation` | backend/internal/workflow/instance_workflow.go:41-180 | the status, error and finishing time that the workflow itself leaves on its operation, for every way to end |
| `ActionLaws.RequestAndWorkflowAgree` | backend/internal/handler/instance_handler.go:151-165 | the desired state that a request writes is the one its workflow ends with, if and only if it does not reset the password of an instance observed in another state than running |
| `ActionLaws.KeySpelledOut` | backend/internal/handler/instance_handler.go:148 | the key of a request, character by character |
| `IntentLaws.RequestIsARun` | backend/internal/handler/instance_handler.go:101-171 | an accepted request is a run of its read and its write on the instance, of the literal state for its kind |
| `IntentLaws.WorkflowIsARun` | backend/internal/workflow/instance_workflow.go:106-166 | a workflow that succeeds is one write |
| `IntentLaws.ReconcilerIsARun` | backend/internal/reconciler/reconciler.go:124-180 | a whole run of the reconciler comes, for each instance, to one look and one write back |
| `ReconcilerLaws.ReleasesExactlyTheExpired` | backend/internal/reconciler/reconciler.go:50-67 | a run releases exactly the reserved rows whose expiry lies before its clock, and changes no other row and no counter for another reason |
| `ReconcilerLaws.TakesExactlyTheSilentOffline` | backend/internal/reconciler/reconciler.go:99-122 | a run takes exactly those active nodes offline that have been seen, and not for longer than the limit, 60 s unless set |
| `ReconcilerLaws.RecoversExactlyTheStuck` | backend/internal/reconciler/reconciler.go:70-96 | exactly the operations running without an update for longer than the limit, 180 s unless set, go back to retrying or fail, by their retry columns; the columns are given |
| `ReconcilerLaws.ObservesExactly` | backend/internal/reconciler/reconciler.go:143-182 | the observed state of each instance after a run, by its columns, its provider's answer and its node |
| `ReconcilerLaws.CountsExactly` | backend/internal/reconciler/reconciler.go:50-182 | membership in the four things counted, over the columns |
| `SubscriptionLaws.CyclesAreMonths` | backend/internal/service/subscription/subscription_service.go:28-39 | a quarter is three calendar months, half a year six, a year twelve, anything else one |
| `SubscriptionLaws.MonthsAreGregorian` | backend/internal/service/subscription/subscription_service.go:28-39 | the lengths of the twelve months, leap years included |
| `SubscriptionLaws.SpanAddsMonths` | backend/internal/service/subscription/subscription_service.go:28-39 | the lengths that a period adds up are those of the months that follow, January after December |
| `SubscriptionLaws.CreatesExactly` | backend/internal/service/subscription/subscription_service.go:41-71 | exactly when a row is created, and its columns, for both ways to create one |
| `SubscriptionLaws.RenewsExactly` | backend/internal/service/subscription/subscription_service.go:92-114 | exactly when a renewal is refused, and the columns that it writes otherwise |
| `SubscriptionLaws.CancelsExactly` | backend/internal/service/subscription/subscription_service.go:116-131 | exactly when a cancellation is made, and the columns that each kind writes |
| `SubscriptionLaws.ActivatesExactly` | backend/internal/workflow/provision_workflow.go:283 | activation writes the status, whatever it was, and nothing else |
| `SubscriptionLaws.ListsExactly` | backend/internal/repository/subscriptions.sql.go:186-191 | which rows each of the two queries of a sweep answers, and how many, over the columns |
| `SubscriptionLaws.SweepsExactly` | backend/internal/service/subscription/subscription_service.go:133-168 | what a sweep that its limit does not stop does to each row |
| `OrderLaws.AnswersExactly` | backend/internal/service/commerce/order_service.go:33-91 | exactly when an order is placed, and exactly when it is refused for having no lines or unstorable quantities |
| `OrderLaws.RefusedForTheFirst` | backend/internal/service/commerce/order_service.go:47-91 | an order refused for one of its lines is refused for the first that cannot be ordered with those before it, and for the first check which that one fails |
| `OrderLaws.StoresExactly` | backend/internal/service/commerce/order_service.go:76-102 | the columns of the order and of each item, the item's total included |
| `OrderLaws.ChargesTheSum` | backend/internal/service/commerce/order_service.go:74-102 | the order's total is, modulo 2^64, the sum of the items' totals and that of catalog prices times ordered quantities, and that sum itself if and only if it fits an int64 |
| `TotpLaws.GeneratesExactly` | backend/internal/domain/identity/totp.go:27-53 | the six digits stand for the big-endian number in the four digest bytes at the offset in the low half of the last, modulo 2^31 and then 10^6, of the digest of the eight bytes that stand for the number of thirty-second steps |
| `TotpLaws.AcceptsExactly` | backend/internal/domain/identity/totp.go:56-76 | a code is accepted if and only if without white space around it it has six characters and is that of the present instant or of thirty seconds before or after |
| `TotpLaws.TrimsExactly` | backend/internal/domain/identity/totp.go:57 | trimming takes all white space off both ends and nothing else |
| `LimiterLaws.CountsExactly` | backend/internal/middleware/rate_limit.go:25-41 | which counter a request counts in, when it has expired, what it then holds, when it expires next, and when the request goes through |
| `LimiterLaws.OpensExactlyAfter` | backend/internal/middleware/rate_limit.go:58-72 | a request opens a window in memory if and only if it comes more than a window's length after the one that opened the last |
| `BroadcasterLaws.PublishesExactly` | backend/internal/service/operation/service.go:43-56 | exactly which buffers an update goes to, at which end, and that nothing else changes |
| `BroadcasterLaws.ReceivesExactly` | backend/internal/service/operation/service.go:58-63 | a reader takes the oldest update of its own buffer |
| `BroadcasterLaws.SubscribesExactly` | backend/internal/service/operation/service.go:58-63 | a subscription opens one empty channel, and changes nothing else |
| `BroadcasterLaws.CleansUpExactly` | backend/internal/service/operation/service.go:65-80 | ending a subscription closes and removes its own channel alone, once |
| `TextLaws.DecimalStandsFor` | backend/internal/service/fulfillment/fulfillment_service.go:89 | the decimal form of a number stands for it, without a leading zero |
| `TextLaws.CanonicalStandsFor` | backend/internal/service/fulfillment/fulfillment_service.go:89 | the canonical form of an id is its 32 hexadecimal digits in groups of 8, 4, 4, 4 and 12 |

## Left out

- IPv4, IPv6 and NAT port counts of reservations: stored but never checked against a capacity or counted on a node.
- Floating-point rounding of CPU counts and scores: exact numbers instead.
- Foreign keys, deletion of nodes and operations, and administrators' edits of a node's totals.
- A lost connection at the moment of commit, where the caller does not learn whether its transaction took effect.
- Provisioning.ProvisionWorkflow.Execute: does not model the operation's own step and progress rows, the provider's request and network fields, or the choice between several providers; `Retries` covers what workflows write into an operation's row.
- ProvisioningRuns.StepKeepsSound: takes each allocator transaction as one step, because `Interleaving` covers its statements, and lets a reservation expire at any moment, which includes every moment at which a clock would.
- Lifecycle.InstanceLifecycleWorkflow.Execute: does not model operation steps or the requests sent to the provider.
- Operations.Service.CreateOperation: takes the look-up and the insert as one step, as the mutex makes them within one process; between processes only the unique key stands, and the loser of the race gets the error.
- Orders.CreateOrder: leaves out order and invoice numbers and the JSON snapshots; an invoice is only paid or not.
- Commerce.CommerceStore.InitiatePayment: takes the read of the order and the insert of the payment as one step; between them an order may be paid or cancelled.
- Commerce.CommerceStore.ProcessWebhook: takes the signature check and the decoding of the body as given by a flag and a record.
- MoneyInterleaving.CommitRefines: says nothing of cancellations, whose commit overwrites the order whatever it has become; `PaidOrderEndsCancelled` shows what follows.
- Fulfillment.FulfillmentService.FulfillPaidOrder: does not start the background run of each operation; `Retries` has those runs beside the workers' ones, and `Retries.TwoWorkersCanRunIt` shows that nothing keeps two runs apart.
- Retries.Worker.ProcessOperation: leaves out polling, the limit of four jobs at a time and shutdown, beyond the interleaving of jobs.
- Reconciler.Reconciler.ReconcileStuckOperations: takes the listing and the writes as one step; `Retries` takes them apart.
- Reconciler.RunLeavesIntentAlone: is about a run that nobody else's writes overlap; `IntentInterleaving` is about the others.
- InstanceActions.InstanceHandler.HandleAction: leaves out authentication, the operation's steps and its trace id.
- Reconciler.Reconciler.RunOnce: assumes that the database answers; a listing that fails only makes its part of the run do nothing.
- `VerifyOrAdoptCreate`, which nothing in the run calls.
- Subscriptions.StoredGraceSuspends: is about a variant of the sweep.
- Deliveries.DeliveriesSellWhatWasCharged: takes requests one after another, each fulfilment at its trigger, and the fulfilment of one order at a time; `DeliveryInterleaving` does not.
- DeliveryInterleaving.SoldIsWhatWasFulfilled: takes one fulfilment's look-ups and inserts as one step once it has read its order.
- Scheduler.QualifyingCandidates: a node that qualifies with a zero total, for a plan that asks for nothing of something or through negative counters, has no ratio; the source divides by zero in floating point there.
- The virtual machine that an execution which fails after creating it leaves behind at the provider.
- Subscriptions.SubscriptionService.RenewSubscription: takes the read of the row and its update as one step; `SubscriptionInterleaving` takes them apart.
- Subscriptions.SubscriptionService.ProcessDueAndGraceCheck: takes its listings and writes as one step; `SubscriptionInterleaving` takes them apart.
- Subscriptions.CancelledIsFinal: is about calls that do not overlap; `SubscriptionInterleaving.CancelledIsFinalExactlyWhen` is about those that do.
- Subscriptions.OnlyActivationRevives: likewise.
- Retries.CountedRetriesEnd: is about a variant in which retries are counted, one execution after another.
- Totp.GenerateTOTPCode: the base32 decoding and HMAC-SHA-1 are parameters, of which only the length of the digest is used.
- Broadcaster.ActionsKeepRight: leaves out Redis pub-sub and the locks, whose critical sections are single actions here.
- The other HTTP handlers, sessions, roles, tickets, audit, product administration, the provider adapters and the frontend: they would only add easy members.
