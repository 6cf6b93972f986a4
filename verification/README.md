# Verified model of per-tenant credit accounting

The credit system receives heartbeats from a tenant's clusters, charges usage and reserves nodes on a
double-entry ledger that enforces hard limits, and keeps one long-running accounting workflow per
tenant. Its promises are that nothing is charged twice, that no wallet is overdrawn, and that the
workflow's record of reservations matches the ledger, although attempts are retried, replies get lost,
credits are issued while a flush is waiting, and the workflow restarts itself.

This project models that protocol and proves what holds over every run of it.

| file | content |
|---|---|
| `Domain.dfy` | resources, heartbeats, 64-bit conversions |
| `Maps.dfy` | sums of weights over finite sets and maps |
| `TransferIds.dfy` | the four transfer ID layouts, byte by byte |
| `Ledger.dfy` | accounts, transfers, batches; validity, idempotence, non-interference |
| `Transfers.dfy` | submission and classification: the code that talks to the ledger |
| `Replies.dfy` | what an answer of the ledger says, then and later |
| `Activities.dfy`, `Allocations.dfy` | the flush activity and the allocation activity |
| `Charging.dfy` | what a batch of heartbeats is charged, heartbeat by heartbeat |
| `GaugeOrder.dfy`, `GaugeFlag.dfy` | when the order of gauge updates does not matter, and what the last one finds |
| `Workflow.dfy` | the workflow's state, its handlers, flush and credit |
| `Protocol.dfy` | workflow, ledger and everything in flight, as a state machine |
| `Invariant.dfy`, `Preservation.dfy` | what holds in every state, and why each event keeps it |
| `Guarantees.dfy` | what that means for a tenant |
| `Provenance.dfy` | where every entry and every balance on the ledger comes from |
| `Attempts.dfy` | what an attempt of a flush changes, and when it succeeds |
| `History.dfy` | reports and reservations of a flush against those of other flushes and attempts |
| `Continuity.dfy` | what only grows, redelivery, given-up flushes, skipped heartbeats |
| `FlushOrder.dfy` | the order of clusters in a flush of the running protocol |
| `Restarts.dfy` | when a restart can be told from no restart |
| `Snapshots.dfy` | balance lookups and database rows |
| `Dedup.dfy`, `Gateway.dfy` | the gateway's deduplication and its streams |
| `Witnesses.dfy` | runs in which what holds only under a condition fails without it |

How the pieces fit:

- Objects that the original updates in place (`TenantAccountingState`, `MemDedup`, the ledger client) are
  classes; loops are methods with loops. Each method is proved against a function on values, and the
  theorems are about those functions.
- In `Protocol`, every request that was ever issued may reach the ledger at any later moment, any number of
  times; a waiting flush or credit may see any reply produced so far, or give up. An event that is not
  possible in a state does nothing, so every sequence of events is a run, and a theorem about
  `Exec(Init(cfg), es)` is about every reachable state.
- A transfer ID is the accounting event it is derived from. `TransferIds` proves that the hashed bytes
  determine the event; the truncated hash is taken to be collision-free and never zero.
- The conversion of a negative amount to an unsigned one is modelled, so theorems hold for every amount.

Where code and comments differ, the model follows the code. The comment on the exceeded flags says that
any rejected transfer of a batch raises the flag (`internal/accounting/workflow_accounting.go:334`); the code
lets the last transfer of each resource decide (`internal/accounting/activities_tb.go:153`), and that is what
`FlagFollowsLastTransfer` and `FlaggedIffLastRejected` state. The comment on continue-as-new says that
flushing first loses no heartbeats and that pending handlers complete first
(`internal/accounting/workflow_accounting.go:244-249`); a failed flush there does lose its batch, nothing waits for
the handlers, and `RestartIsInvisibleIff` gives the exact condition for both.

Every lemma switches automatic induction off and no map comprehensions are used, because Dafny 4.11 can derive
contradictions from either.

Promises that hold only under a condition, each with a run or input on which it fails:

- *Record and ledger agree on reservations.* A flush that gave up after its gauge request was committed leaves
  a reservation that nothing ever releases (`LeftBehindForever`, `LostReplyLeavesReservation`).
  `RecordMatchesLedgerIff` says exactly when they agree.
- *An attempt succeeds.* One refused charge whose reply was lost makes every later flush of that batch fail
  (`RefusedThenLostNeverCompletes`, `LostRefusalBlocksForever`); a refused heartbeat that is in the batch twice
  fails at once (`RefusedTwiceInOneBatch`). `AttemptSucceedsIff` is exact.
- *The order of clusters does not matter.* For what is accepted, exactly when there is room for all increases at
  once (`IterationOrderIsHarmlessIff`); that the new total fits is not enough (`NewTotalIsNotEnough`). For the
  gauge's flag, exactly when the cluster that comes last fits what the others leave in every order or in none
  (`FlagIgnoresOrderIff`, `OrderDecidesFlag`). A new total that fits is enough for the flag
  (`NewTotalFitsNeverFlags`), but not needed (`OverfullTotalNeverFlags`).
- *A confirmed credit is credited.* Exactly unless its number equals the period start of the first allocation
  (`AcknowledgedIsCredited`, `ClashingCreditAddsNothing`).
- *A restart is invisible.* With no flush waiting, exactly when the batch is empty and no credit is waiting that
  can still be acknowledged (`RestartIsInvisibleIff`).
- *Signals arrive in order.* As long as the gateway has not evicted the cluster and a stream that ends drops
  what it holds (`SignalsArriveInOrder`); from
  any point on, exactly when the cluster's mark covers what it has delivered and holds (`StaysInOrderIff`,
  `IdleClusterIsForgotten`).
- *A repeated heartbeat gets through.* Not one that was dropped for lack of room in the channel: its mark stands
  (`ReceiveMarksThenQueues`, `DroppedIsLost`).
- *The two deduplicators agree.* Exactly up to sequence number two to the fifty-third (`ValkeyAgreesIff`,
  `ValkeyRoundsAway`).

## Model

| member | source | states |
|---|---|---|
| `Domain.ToUint64` | internal/accounting/activities_tb.go:138 | conversion of a signed amount: congruent to it modulo two to the sixty-fourth, zero exactly for zero, unchanged when not negative |
| `Domain.ToInt64` | internal/accounting/activities_tb.go:322-326 | inverse of the conversion; not negative exactly below two to the sixty-third |
| `TransferIds.LittleEndianRoundTrip` | internal/ledger/ids.go:21-26 | a number is read back from its little-endian bytes when it fits the width |
| `TransferIds.PreimageRoundTrip` | internal/ledger/ids.go:18-108 | every accounting event is read back from the bytes that are hashed for its ID, domain separators included |
| `TransferIds.PreimageInjective` | internal/ledger/ids.go:18-108 | two events of any of the four kinds hash the same bytes exactly when they are the same event |
| `Ledger.OutcomesByIndex` | internal/ledger/transfers.go:48-50 | each outcome of a batch is that of the transfer applied to the ledger which the transfers before it left |
| `Ledger.StepCommitsOrBurns` | internal/ledger/transfers.go:249-273 | a transfer commits its ID, burns it, or changes nothing; its outcome says which |
| `Ledger.ApplyValid` | internal/ledger/accounts.go:90-100 | any transfer keeps balances exact sums of distinct transfers, every ledger balanced and every wallet within its credits |
| `Ledger.RunValid` | internal/ledger/transfers.go:48-50 | so does any batch, whatever it contains |
| `Ledger.LedgerIsDetermined` | internal/ledger/transfers.go:237-276 | the committed, voided and refused transfers determine all balances |
| `Ledger.RunExtends` | internal/ledger/transfers.go:237-276 | a batch never changes or removes a committed, voided or refused transfer |
| `Ledger.RedeliveryIsIdle` | internal/ledger/ids.go:10-30 | after a batch, and anything since, delivering its transfers again in any order changes nothing |
| `Ledger.ResourcesDoNotInterfere` | internal/ledger/transfers.go:48-69 | running a mixed batch and looking at one resource is running that resource's transfers alone |
| `Ledger.OutcomesDoNotInterfere` | internal/ledger/transfers.go:48-69 | each transfer's outcome depends only on its own resource's ledger and transfers |
| `Transfers.RejectionsFaithful` | internal/ledger/transfers.go:249-254 | the sparse answer reports exactly the transfers that did not commit, each once, with its own outcome |
| `Transfers.LedgerClient.CreateTransfers` | internal/ledger/transfers.go:244 | the ledger runs the batch and answers with its rejections |
| `Transfers.FailedByIndex` | internal/ledger/transfers.go:251-254 | the map from index to outcome holds exactly the transfers that did not commit |
| `Transfers.ClassifyAnswer` | internal/ledger/transfers.go:249-275 | succeeds exactly when every outcome can be classified, and then gives each transfer its own classification |
| `Transfers.SubmitBatch` | internal/ledger/transfers.go:237-276 | runs the batch on the ledger and classifies transfer by transfer |
| `Transfers.ReserveIndexInBatch` | internal/ledger/transfers.go:156-190 | where each update's void and reservation stand in the batch, the void first |
| `Transfers.BatchMembers` | internal/ledger/transfers.go:156-190 | the batch holds the voids and reservations of its updates and nothing else |
| `Transfers.MetasFaithful` | internal/ledger/transfers.go:140-190 | the parallel index entries name for each transfer its update and whether it is a void |
| `Transfers.BuildGaugeBatch` | internal/ledger/transfers.go:145-190 | builds exactly the batch and its parallel index entries |
| `Transfers.AttributeRejections` | internal/ledger/transfers.go:201-224 | fails exactly when a rejection is not tolerated; marks exactly the updates whose reservation was beyond the credits |
| `Transfers.AssignPendingIds` | internal/ledger/transfers.go:226-231 | gives an ID to exactly the accepted updates that made a reservation |
| `Transfers.ClassifyGaugeAnswer` | internal/ledger/transfers.go:201-233 | from the sparse answer, every update gets its own result |
| `Transfers.SubmitGaugePendingUpdates` | internal/ledger/transfers.go:130-234 | runs void-and-replace on the ledger and returns each update's own result, or fails |
| `Replies.AnswerIsFinal` | internal/ledger/transfers.go:256-273 | an accepted transfer is committed for good, one beyond the credits refused for good, whatever follows |
| `Replies.AnswerSaysWhatHappened` | internal/ledger/transfers.go:256-273 | in a request that succeeds, a transfer is reported existing exactly when its ID was committed before its turn, accepted exactly when it is committed in the end, beyond the credits exactly when it is burnt |
| `Replies.RetrySucceedsIffRecorded` | docs/plan/poc_test_plan.md:318-320 | a delivered request sent again succeeds exactly when each of its transfers stands committed, and then all are reported as existing |
| `Replies.ClassifiableIffClean` | internal/ledger/transfers.go:256-273 | a request of posted transfers can be classified exactly when none is burnt, repeats of committed ones differ in accounts or amount or in nothing, and no transfer repeats a new one that its wallet had no room for or that differs from it in its user data alone |
| `Replies.NewIdToleratedIff` | internal/ledger/transfers.go:201-224 | under an unused ID a gauge request tolerates any reservation, and a void exactly when its target is unknown or a reservation between the same accounts, open or not |
| `Replies.UsedIdToleratedIff` | internal/ledger/transfers.go:201-224 | under a used ID it tolerates exactly the repeats that differ from the committed one in accounts or amount or in nothing |
| `Replies.GaugeAnswersTheRightUpdate` | internal/ledger/transfers.go:130-234 | an update gets an ID exactly when it asked for a reservation that is on the ledger; then it is open unless something voids it; beyond the credits exactly when its ID is refused, and else accepted; its old reservation is gone |
| `Activities.UsageBatchMembers` | internal/accounting/activities_tb.go:112-145 | the request holds exactly the charges of each heartbeat and cumulative resource with a non-zero amount |
| `Activities.BuildUsage` | internal/accounting/activities_tb.go:109-145 | builds the request and, in parallel, each transfer's resource |
| `Charging.ChargedInOrder` | internal/accounting/activities_tb.go:112-145 | on any valid ledger, what a wallet is charged by a usage request is a fold over the heartbeats in batch order: each new key takes its CPU time or memory if that fits what the earlier ones left |
| `Charging.ReportsLastUse` | internal/accounting/activities_tb.go:147-159 | a resource is reported exactly when a heartbeat uses it, and beyond the credits exactly when the last one that does is new and does not fit |
| `Activities.LatestIsHighest` | internal/accounting/activities_tb.go:164-169 | per cluster of the batch, the chosen heartbeat has the highest number |
| `Activities.LatestIsFirst` | internal/accounting/activities_tb.go:164-169 | of several heartbeats with a cluster's highest number the first one is chosen |
| `Activities.LatestByCluster` | internal/accounting/activities_tb.go:164-169 | computes that choice |
| `Activities.CollectUsage` | internal/accounting/activities_tb.go:152-158 | per resource, the last result of the batch |
| `Activities.GaugeMapEntries` | internal/accounting/activities_tb.go:230-241 | each cluster's entry is the result of its own update, and there are no others |
| `Activities.CollectGauge` | internal/accounting/activities_tb.go:230-241 | fills in the gauge's result and each cluster's new reservation |
| `Activities.SubmitUsage` | internal/accounting/activities_tb.go:147-159 | first request of an attempt: ledger afterwards and result, or failure |
| `Activities.BuildUpdates` | internal/accounting/activities_tb.go:175-223 | one update per cluster, in whatever order the iteration has |
| `Activities.SubmitUpdates` | internal/accounting/activities_tb.go:225-242 | second request of an attempt: ledger afterwards and result, or failure |
| `Activities.SubmitTBBatch` | internal/accounting/activities_tb.go:102-245 | one attempt: both requests in order, the second only if the first could be classified |
| `Activities.BuildAllocations` | internal/accounting/activities_tb.go:263-289 | one credit per resource, converted to unsigned amounts, in whatever order the iteration has |
| `Activities.SubmitAllocationTransfers` | internal/accounting/activities_tb.go:262-297 | sends all credits in one request, nothing when there are none; succeeds exactly when every outcome can be classified |
| `Allocations.AllocationOrderIsIrrelevant` | internal/accounting/activities_tb.go:264-289 | on any valid ledger, all orders of the resources leave the same ledger |
| `Allocations.CreditDeliveryIsActivity` | internal/accounting/workflow_accounting.go:422-434 | delivering a credit is the allocation activity with its one resource: same ledger, and acknowledged exactly when the activity succeeds |
| `Allocations.ProvisioningOrderIsIrrelevant` | internal/accounting/workflow_provisioning.go:84-102 | whatever order provisioning takes, the first allocation leaves the ledger that runs start from |
| `GaugeOrder.EveryOrderAcceptsIffRoom` | internal/accounting/activities_tb.go:175-223 | every order of the updates is accepted in full exactly when the wallet has room for all increases at once |
| `GaugeOrder.OrderLeavesNoTrace` | internal/ledger/transfers.go:156-190 | with that room, all orders end in the same ledger |
| `Workflow.ProcessedIsHighest` | internal/accounting/workflow_accounting.go:362-365 | marks never fall, cover the batch, and are old marks or numbers of the batch |
| `Workflow.AckIsHighest` | internal/accounting/workflow_accounting.go:366-368 | the acknowledgement never falls, covers the batch, and is the old one or a number of the batch |
| `Workflow.LastIndex` | internal/accounting/activities_tb.go:152-158 | the last transfer of a resource in a request |
| `Workflow.PerResourceIsLast` | internal/accounting/activities_tb.go:152-158 | a resource's reported result is that of its last transfer |
| `Workflow.FlagFollowsLastTransfer` | internal/accounting/workflow_accounting.go:333-342 | after a flush a resource is flagged exactly when its last transfer was refused, or it had none and was flagged |
| `Workflow.FlushIds` | internal/accounting/workflow_accounting.go:293-314 | one reservation ID and one void ID per cluster of the batch, from the flush's number |
| `Workflow.WithGaugeResults` | internal/accounting/workflow_accounting.go:344-357 | new reservations replace tracked ones, released ones are dropped, others stay |
| `Workflow.TenantAccounting.constructor` | internal/accounting/workflow_accounting.go:96-122 | carried state is restored, missing parts start empty, the batch is empty |
| `Workflow.TenantAccounting.ReceiveHeartbeat` | internal/accounting/workflow_accounting.go:186-205 | processed numbers are skipped, others batched; tells when the batch is full |
| `Workflow.TenantAccounting.RegisterCluster` | internal/accounting/workflow_accounting.go:208-214 | a new cluster starts at mark zero, a known one keeps its mark |
| `Workflow.TenantAccounting.BeginFlush` | internal/accounting/workflow_accounting.go:274-326 | nothing for an empty batch; else the next number is taken and the input carries the batch, the tracked reservations and the flush's IDs |
| `Workflow.TenantAccounting.UpdateExceeded` | internal/accounting/workflow_accounting.go:336-342 | sets and clears flags from the per-resource results |
| `Workflow.TenantAccounting.UpdateGauge` | internal/accounting/workflow_accounting.go:346-357 | applies the gauge results to the tracked reservations |
| `Workflow.TenantAccounting.UpdateSeqs` | internal/accounting/workflow_accounting.go:362-369 | raises marks and acknowledgement over the batch |
| `Workflow.TenantAccounting.FinishFlush` | internal/accounting/workflow_accounting.go:333-370 | the whole new state after a flush's result; the batch is empty |
| `Workflow.TenantAccounting.BeginCredit` | internal/accounting/workflow_accounting.go:403-429 | the next number makes the credit's ID; an amount that is not positive is refused first, as the validator does |
| `Workflow.TenantAccounting.FinishCredit` | internal/accounting/workflow_accounting.go:157-164 | a confirmed credit clears its resource's flag, a failed one does not; the interval starts over |
| `Workflow.TenantAccounting.AdaptInterval` | internal/accounting/workflow_accounting.go:219-234 | base interval after activity, else doubled up to the cap |
| `Workflow.IdleIntervalsDouble` | internal/accounting/workflow_accounting.go:219-234 | from the base interval on, idle timers double it until it stays at a minute |
| `Workflow.TenantAccounting.ContinueAsNew` | internal/accounting/workflow_accounting.go:257-268 | everything but the batch and the interval is carried over |
| `Preservation.InitInv` | internal/accounting/workflow_provisioning.go:62-102 | the state after provisioning meets the invariant |
| `Preservation.InitialCommitted` | internal/accounting/workflow_provisioning.go:80-102 | the first allocation stands on the ledger, in full |
| `Preservation.DeliverInv` | internal/ledger/transfers.go:237-276 | delivering any issued transfers, in any number and order, keeps the invariant |
| `Preservation.FlushCompleteInv` | internal/accounting/workflow_accounting.go:328-370 | applying any report that was produced for the waiting flush keeps the invariant |
| `Preservation.RestartInv` | internal/accounting/workflow_accounting.go:250-269 | a restart keeps the invariant |
| `Preservation.NextInv` | internal/accounting/workflow_accounting.go:180-271 | every event keeps the invariant |
| `Preservation.ExecInv` | internal/accounting/workflow_accounting.go:89-92 | every state of every run meets the invariant |
| `Guarantees.LimitsHold` | internal/ledger/accounts.go:90-100 | in every state no wallet is overdrawn, every ledger balances, usage wallets hold no reservations and gauge wallets no posted debits |
| `Guarantees.NothingIsChargedTwice` | internal/accounting/activities_tb.go:95-159 | in every state, what a usage wallet was charged is the sum over distinct committed keys, each for the non-zero CPU time or memory that a received heartbeat with that key reported; every such figure that completed was charged or refused |
| `Guarantees.ChargesFollowBatchOrder` | internal/accounting/activities_tb.go:112-159 | whenever a flush's usage request reaches the ledger, its heartbeats are charged in batch order as long as they fit, and the reply flags a resource as the last heartbeat that uses it fared |
| `Provenance.LedgerIsExplained` | internal/ledger/transfers.go:51-97 | in every state every entry on the ledger is, field by field, a received heartbeat's usage, a credit that was asked for, the first allocation, the latest active nodes of a cluster in a flush, or a void of a tracked reservation |
| `Provenance.MoneyFlowsOneWay` | internal/ledger/transfers.go:81-90 | in every state and for every resource the operator has paid what the wallet was credited, the sink holds what the wallet was charged and has reserved, and nothing flows another way |
| `Provenance.RecordFollowsEvents` | internal/accounting/workflow_accounting.go:403-434 | in every state the received heartbeats are those signalled, the credits those asked for with resource and amount, and the numbers taken have no gaps |
| `Guarantees.ReservationsMatch` | internal/accounting/workflow_accounting.go:344-357 | in every state, open reservations are the tracked ones that nothing voided plus those of flushes that did not complete, and each tracked one was made from the heartbeat at its cluster's mark; where no uncompleted flush reached the ledger, open and tracked coincide, and the active nodes of those heartbeats add up to the wallet's pending debits |
| `History.RecordMatchesLedgerIff` | internal/accounting/workflow_accounting.go:344-357 | record and ledger agree exactly when every gauge transfer on the ledger belongs to a completed flush or is a void for a cluster that is untracked or tracked by a later flush |
| `Guarantees.AcknowledgedIsCredited` | internal/accounting/workflow_accounting.go:403-434 | an acknowledged credit stands on the ledger, once and in full, exactly unless its ID is that of the first allocation |
| `Guarantees.CreditedIsSumOfCommitted` | internal/accounting/workflow_accounting.go:403-434 | in every state a wallet's credits are its first allocation plus each committed credit once; a credit with the ID of the first allocation adds nothing |
| `Guarantees.NumbersAreNeverReused` | internal/accounting/workflow_accounting.go:288-291 | no flush or credit ever takes a number that was used before, restarts included |
| `Guarantees.RequestsShareNoId` | internal/accounting/workflow_accounting.go:293-314 | gauge requests of different flushes, credits, and the two kinds share no ID; a credit shares one with the first allocation exactly when their numbers clash |
| `Guarantees.FlaggedIffLastRejected` | internal/accounting/workflow_accounting.go:333-342 | in every state a usage resource is flagged exactly when the latest decisive event was a rejection, however flushes and credits interleaved |
| `History.ReportsAgree` | internal/accounting/activities_tb.go:102-245 | all reports of a flush, from any attempt and order of clusters, say the same for every resource, the gauge included, up to whether a transfer existed |
| `History.FirstGaugeDeliveryIsTolerated` | internal/ledger/transfers.go:201-224 | the first delivery of a flush's gauge request never fails |
| `History.GaugeFlaggedIffLastRejected` | internal/accounting/workflow_accounting.go:333-342 | in every state the gauge is flagged exactly when the latest applied flush, or credit for it, was a flush that refuses it; such a flush has a refused reservation on the ledger, a flush with all reservations refused is one, and a flush of one cluster is one exactly when its reservation is refused on the ledger |
| `Guarantees.SequencesAreProcessedOnce` | internal/accounting/workflow_accounting.go:186-195 | the batch holds only new numbers, no heartbeat key is in two completed flushes, the acknowledgement is the highest mark, every mark was completed |
| `Continuity.ExecContinues` | internal/accounting/workflow_accounting.go:362-369 | from any reached state on, nothing on the ledger is undone, nothing issued is forgotten, no mark falls |
| `Continuity.RequestActsOnce` | internal/accounting/activities_tb.go:95-102 | of all deliveries of one request, whenever and in whatever order of clusters, only the first can change the ledger |
| `Attempts.RetryAfterStop` | internal/accounting/activities_tb.go:102-245 | an attempt that stopped anywhere, followed by a whole attempt in any order, leaves the ledger of one attempt |
| `Attempts.GaugeToleratedIff` | internal/ledger/transfers.go:201-224 | a flush's gauge request, at any time, for the first time or again, is tolerated exactly when none of its IDs was refused |
| `Attempts.AttemptSucceedsIff` | internal/accounting/activities_tb.go:102-245 | any attempt of any flush in any reached state succeeds exactly when every charge stands as sent, or is the first of its ID, or repeats a first one that the wallet had room for, and no gauge ID of the flush was refused |
| `Attempts.RetriedAttemptSucceedsIff` | internal/accounting/activities_tb.go:147-242 | once the usage request was delivered, whether the gauge request was or not, a further attempt charges nothing and succeeds exactly when all charges stand as sent and no gauge ID of the flush was refused |
| `Continuity.LeftBehindForever` | internal/accounting/workflow_accounting.go:328-331 | what a given-up flush reserved stays open and untracked in every future |
| `Restarts.RestartIsInvisibleIff` | internal/accounting/workflow_accounting.go:244-269 | in any reached state with no flush waiting, a restart is invisible in every future exactly when the batch is empty and every waiting credit has ID and amount of the first allocation, so that it is never acknowledged |
| `Restarts.CreditAnswer` | internal/accounting/workflow_accounting.go:424-434 | the answer to a credit can be classified exactly unless it has ID and amount of the first allocation |
| `Restarts.SomeRunFlags` | internal/accounting/workflow_accounting.go:333-342 | from any idle state, some run of flushes alone flags any given resource and ends idle |
| `Continuity.DiscardedWasProcessed` | internal/accounting/workflow_accounting.go:190-194 | when signals come in order, a skipped heartbeat is part of a completed flush |
| `Continuity.RefusedThenLostNeverCompletes` | internal/ledger/transfers.go:270-271 | a retained batch with a refused charge never completes, until a restart drops it |
| `FlushOrder.IterationOrderIsHarmlessIff` | internal/accounting/activities_tb.go:175-223 | for a flush of any reached state whose gauge request is not yet on the ledger: every iteration order is accepted exactly when there is room for all increases, and then all orders leave the same ledger |
| `GaugeFlag.WalkReserves` | internal/ledger/transfers.go:156-190 | whatever is refused on the way, what a wallet has reserved after updates in some order is a fold over their old and new amounts: each gives back its old one and takes its new one if it fits |
| `GaugeFlag.LastRefusedIff` | internal/ledger/transfers.go:201-231 | the last update of an order is reported beyond the credits exactly when it does not fit what the others leave |
| `FlushOrder.FlaggedIffLastDoesNotFit` | internal/accounting/activities_tb.go:225-241 | a waiting flush whose gauge request is sent for the first time, in any order, is answered, and the answer flags the gauge exactly when the cluster that came last does not fit what the others leave |
| `FlushOrder.FlagIgnoresOrderIff` | internal/accounting/activities_tb.go:230-235 | for a flush of any reached state whose gauge request is not yet on the ledger: all orders give the same flag exactly when the cluster that comes last fits in every order or in none |
| `FlushOrder.NewTotalFitsNeverFlags` | internal/accounting/activities_tb.go:230-235 | when the new total fits, no order flags the gauge, even one that refuses a cluster |
| `Snapshots.ExactIffCreditsFit` | internal/ledger/accounts.go:162-167 | a balance within its credits is shown exactly when the credits are below two to the sixty-third, and then available is credits less debits, not negative |
| `Snapshots.LookupBalances` | internal/ledger/accounts.go:128-160 | every known wallet's balance under its own resource, whatever the iteration order; unknown ones are left out |
| `Snapshots.LookupAccountBalances` | internal/accounting/activities_tb.go:313-329 | the same, converted to database integers |
| `Snapshots.RowsShowHeldBalances` | internal/accounting/workflow_accounting.go:372-389 | every row, also one overwritten by a slower writer, is a balance its wallet held at one instant, exact and not overdrawn while credits stay below two to the sixty-third |
| `Dedup.MemDedup.constructor` | internal/gateway/dedup.go:34-38 | starts without marks |
| `Dedup.MemDedup.IsDuplicate` | internal/gateway/dedup.go:40-49 | duplicate exactly when the cluster's mark covers the number; else the mark is raised and stamped |
| `Dedup.MemDedup.Prune` | internal/gateway/dedup.go:51-64 | forgets exactly the marks stamped before the cutoff |
| `Dedup.WithoutExpired` | internal/gateway/dedup.go:57-61 | the loop of the prune |
| `Dedup.LetThroughAgainOnlyAfterTtl` | internal/gateway/dedup.go:40-64 | with a clock that does not go back, two "not a duplicate" answers for one number are more than the TTL apart |
| `Dedup.MarkedIffHeld` | internal/gateway/dedup.go:40-64 | a cluster has a mark exactly while every tick since its last heartbeat that was let through came within the TTL of it; duplicates do not refresh it |
| `Dedup.MarkedIffRecent` | internal/gateway/dedup.go:40-64 | with a clock that does not go back, exactly when some heartbeat that was let through is within the TTL of every tick since |
| `Dedup.DuplicateIffRemembered` | internal/gateway/dedup.go:40-64 | duplicate exactly when a number at least as high was checked and the cluster was held through every tick since |
| `Dedup.ScoreIsRoundedMark` | internal/gateway/dedup.go:99-101 | for all numbers the stored score is the high-water mark rounded to float64 |
| `Dedup.ScoreIsNearest` | internal/gateway/dedup.go:99-101 | a score is the sequence number rounded to the nearest float64, ties to even |
| `Dedup.ValkeyNeverLetsMoreThrough` | internal/gateway/dedup.go:91-112 | for all numbers, what the high-water mark calls a duplicate the score form does too |
| `Dedup.ValkeyAgreesIff` | internal/gateway/dedup.go:91-112 | the two forms agree on all histories of numbers up to a bound exactly when it is at most two to the fifty-third |
| `Dedup.ValkeyRoundsAway` | internal/gateway/dedup.go:101 | the first number above is taken for a duplicate |
| `Gateway.SignalsArriveInOrder` | internal/gateway/heartbeat_handler.go:142-210 | despite drops, lost replies, repeated sends and streams that end with what they hold, a cluster that is not evicted is signalled with numbers that never go back, repeats being repeats of the same heartbeat |
| `Gateway.ReceiveMarksThenQueues` | internal/gateway/heartbeat_handler.go:161-180 | a new heartbeat raises the mark whatever becomes of it and is queued exactly when there is room in time |
| `Gateway.DroppedIsLost` | internal/gateway/heartbeat_handler.go:161-180 | a number that the mark covers is never taken in again, short of an eviction, so a dropped heartbeat is lost however often it is repeated |
| `Gateway.StaysInOrderIff` | internal/gateway/heartbeat_handler.go:142-210 | after any actions, a cluster stays in order whatever follows, short of an eviction, exactly when what it has delivered, sending and queued is in order and covered by its mark |
| `Gateway.ForgottenClusterGoesBack` | internal/gateway/dedup.go:51-64 | once a cluster is forgotten, any lower number gets through behind a delivered one |
| `Gateway.IdleClusterIsForgotten` | internal/gateway/dedup.go:51-64 | one delivered heartbeat and a cluster idle for longer than the TTL: the order can be lost |
| `Gateway.SkippedWasProcessed` | internal/accounting/workflow_accounting.go:190-194 | end to end: what comes through the gateway and is skipped by the workflow is part of a completed flush |
| `Witnesses.LostReplyLeavesReservation` | internal/accounting/workflow_accounting.go:328-331 | one heartbeat and one lost reply leave a reservation that the workflow does not know and nothing releases |
| `Witnesses.LostRefusalBlocksForever` | internal/ledger/transfers.go:270-271 | without CPU credits, one billed heartbeat whose refusal gets lost keeps every later flush from completing, short of a restart |
| `Witnesses.RefusedTwiceInOneBatch` | internal/accounting/workflow_accounting.go:190-195 | a refused heartbeat that is in the batch twice fails even the first delivery of the flush |
| `Witnesses.ClashingCreditAddsNothing` | internal/accounting/workflow_accounting.go:410-434 | with one as period start, the first credit for an allocated resource is acknowledged and adds nothing |
| `Witnesses.OrderDecidesFlag` | internal/accounting/activities_tb.go:230-235 | a run in which the order of two clusters alone decides whether the gauge is flagged |
| `Witnesses.NewTotalIsNotEnough` | internal/accounting/activities_tb.go:175-223 | a flush of a run whose new total fits and yet some order is refused |
| `Witnesses.OverfullTotalNeverFlags` | internal/accounting/activities_tb.go:230-235 | a flush of a run whose new total does not fit: every order refuses a cluster and none flags the gauge |

## Left out

- BLAKE3, Temporal, TigerBeetle, Valkey and PostgreSQL internals: each is represented by the small contract the code relies on.
- Transfer codes: each family of IDs has one code of its own, so the ledger never compares two different ones.
- Random fallback IDs: the workflows always pass deterministic IDs (`internal/ledger/transfers.go:76-80`).
- Missing account entries: the model has all accounts of the three resources, as provisioning creates them, so the skip branches never apply.
- The inner map by resource in the tracked reservations: there is one gauge resource, so a cluster has at most one entry.
- A cluster's textual ID and its UUID are one identity; two texts for one UUID are not modelled.
- Wrap-around of the flush number at two to the sixty-fourth, and overflow of the ledger's 128-bit balances.
- Attempt limits and backoff times: any number of attempts, at any time, is allowed, which covers them.
- Other tenants in the protocol machine: the ledger's theorems hold for any accounts, the run theorems are about one tenant's wallets.
- Signals still in the channel at a restart: they are simply signals that arrive later or never.
- A late signal of an abandoned send: a send delivers during its call or not at all, so signals come in call order.
- Gateway.SignalsArriveInOrder: a client that only half-closes its stream leaves a dispatcher that goes on draining the channel (`internal/gateway/heartbeat_handler.go:143`, `internal/gateway/heartbeat_handler.go:186`); the model drops what a closed stream holds and has one live stream per cluster, so signals of an old and a new stream never overlap.
- The unary heartbeat call (`internal/gateway/heartbeat_handler.go:243-260`): it has no queue, and its signal may overlap with a stream's.
- Restarts.RestartIsInvisibleIff: cluster identifiers are byte strings of any length there, so that one that was never heard of always exists.
- Expiry and errors of the Valkey form, which fail open.
- Soft limits, audit rows, overall status and pending commands for clusters, latency statistics, RPC plumbing, configuration, user interface: easy or unrelated to the promises above.
- Workflow.TenantAccounting.AdaptInterval: the timer itself is not modelled; the interval only decides when events happen, which the protocol leaves open.
