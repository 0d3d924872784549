# Verified model of the streaming-payments proxy and executor

A Dafny model of the parts of the repository that hold or move money, with proofs of what they keep over whole runs.
`dafny verify dfyconfig.toml` checks the project. Amounts are whole units of 1e-10, times are milliseconds.

## What is modelled

- **Escrow lane** (`Escrow`, `EscrowSummary`, `EscrowPool`, `EscrowSolvency`, `EscrowDelivery`,
  `EscrowRecords`, `EscrowLane`): one escrow's scalar, status,
  schedule and audit ledger; many escrows commingled in one pool per asset; the mutating operations as methods over the
  stored escrows, tied to the functions the theorems are about.
- **V1 lane** (`CommandId`, `Accrual`, `HostedSettle`, `HostedStream`, `V1Records`, `Json`, `DeliveryTree`,
  `PartyUpdates`): accrual, the hosted settle protocol with crashes and deduplication, the record paths across all
  streams, the walks of committed updates, and the history pager.
- **Auto-withdraw** (`WithdrawTime`, `SettlementJournal`, `AutoWithdraw`): the search that inverts accrual, the journal
  with memory and disk apart, and the pay-then-record protocol with a crash between any two steps.
- **Shared cores** (`StoreLock`, `OffsetCheckpoint`, `Executor`, `ExecutorLoop`, `RateLimiter`, `Distribution`).

The ledger is an environment: live contracts, deduplication by command id, locked offers, one balance per asset. Where a
call leaves the process, its outcome is a parameter or a nondeterministic step.

## Premises

- Escrow solvency: no process stops between a transfer and the save of its record, deposits land at once, nobody drains the pool from outside, and no reconcile finds an offer gone after
  its deadline that had been taken before it. What each premise prevents is shown by `PendingDepositLeavesPoolShort`,
  `InterlockProtects`, `LateAcceptIsUncounted` and, for a lost save, `LostSaveLowersSlack`, `RetryIsTheSameCommand` and
  `LostSaveBlocksPool`; how much a reconcile that breaks it misreads is `ReconcileSlack`.
- Hosted settle: the theorems are about settles without `force`; the ledger deduplicates a command id for good;
  `recoverPendingOffers` is not used (`RecoveryRenumbersIff` says when it would reuse an attempt); and a client records
  an offer as accepted only if it was taken and as withdrawn only if its funds came back (`RecordingIsSafeIff`).
- Record paths: a wallet-signed cycle names its update id; a hosted settle or accept is the first to see its own. Replay
  rejection covers retained entries; the model keeps the total of what was cut.
- Pager: the server keeps updates in offset order and refuses a page only for its length; other failures are arbitrary.
- Auto-withdraw: the journal is on and its file readable, recipient auto-accept is off, stream ids are unique, only this
  worker consumes the escrow contracts, and the withdraw choice takes exactly the amount that accrued by the given time
  and was not withdrawn (its template is not part of this model). A transfer of unknown outcome counts as sent.
- Store lock: a token names one attempt, and saving a store is one atomic step.
- Offset checkpoint: a torn file never parses as another map; an answer with an end offset holds every event up to it,
  and no event appears later at or before an offset that was handed out.
- Executor: one executor runs; its logs carry times no earlier than the evaluation and are visible to the next fetch.
- Limiter: the clock does not go back and the window is positive.

## What the proofs found

- The in-process signing path falls back from executeAndWait to execute and then removes the journal entry, though
  execute answers before the commit. `EarlyAckIsHarmlessIff` gives the exact condition, `EarlyAckPaysTwice` the double
  payment.
- Recovered offers are numbered by counting the records twice, so with any record present they get a later cycle than the
  one they were submitted for (`RecoveryRenumbersIff`).
- Two waiters that reclaim one dead process's lock can both enter (`TwoReclaimersOverlap`). So can one waiter and the next
  holder, when the holder it read releases and exits before it is probed (`OneReclaimerOverlaps`); `SoleReclaimerIsSafe`
  gives the condition that rules this out.
- An accept passes the check of a recorded withdraw, and the next settle then pays the cycle a second time
  (`RecordingIsSafeIff`, `MisrecordedWithdrawPaysAgain`).
- Forced settles have no bound: each adds up to one period, however far the stream is past its accrual
  (`ForcedPlanOverrunsIff`, `ForcedSettlesAddUp`), and force pays a whole period even when part of one is due
  (`PartlyDueIsOverrun`).
- An escrow release whose save is lost blocks its own retries and, in a pool without surplus, every payment of its asset
  (`LostSaveBlocksPool`).
- The executor's guard covers one restart: the next write drops the ids of the process before (`GuardSurvivesIff`).
- A log capped at 256 entries breaks rate limits above 256 (`PrunedLimitsAlikeIff`, `CapLetsRateBreak`).
- The pager's guard cuts very long histories without an error (`LongHistoryIsCutSilently`).
- A wallet-signed cycle without an update id passes the replay guards every time (`EmptyIdIsCreditedAgain`), and an
  update older than 500 cycles of its stream can be recorded again (`CutIdIsCreditedAgain`).
- The comment on skip-missed says older windows lapse; the code only caps one payment (`SkipMissedNeverLapses`).
- The comment on the checkpoint says an event is replayed at most once; a save by another loop can move a checkpoint back
  (`SaveBringsBackItsLoad`), so it can be more often. Nothing is lost.

## Model

| member | source | states |
|---|---|---|
| `Escrow.CreateValid` | packages/proxy/src/escrow.ts:1065-1102 | A new escrow satisfies the invariant: scalar equals ledger, status meaning, cadence. |
| `Escrow.ReleaseConserved` | packages/proxy/src/escrow.ts:1145-1193 | After a release `released` still equals the non-reverted release legs plus the refund legs, and lies in 0..total. |
| `Escrow.ReleasePaced` | packages/proxy/src/escrow.ts:1130-1166 | A release that was due keeps recorded releases a full cadence apart and the next one not due earlier. |
| `Escrow.ReleaseValid` | packages/proxy/src/escrow.ts:1126-1199 | A due release with money left keeps the whole invariant, whether it lands at once or as an offer. |
| `Escrow.IdleReleaseValid` | packages/proxy/src/escrow.ts:1135-1144 | A due escrow with nothing left completes only when no offer is open, and keeps the invariant. |
| `Escrow.RefundValid` | packages/proxy/src/escrow.ts:1213-1252 | A refund keeps the invariant: one refund leg at most, status refunded. |
| `Escrow.ClampNeverBites` | packages/proxy/src/escrow.ts:1383-1383 | No leg that counts exceeds `released`, so `Math.max(0, ...)` never changes a subtraction. |
| `Escrow.ResolveConserved` | packages/proxy/src/escrow.ts:1377-1391 | Settling an open offer any way keeps scalar and ledger equal. |
| `Escrow.ResolveValid` | packages/proxy/src/escrow.ts:1377-1391 | Settling an open offer keeps the invariant and never changes the status: no completed escrow has an offer to reopen it. |
| `Escrow.ReconcileValid` | packages/proxy/src/escrow.ts:1353-1400 | Reconcile, over the whole ledger and any chain snapshot, keeps the invariant; completed and refunded stay so. |
| `Escrow.ReclaimValid` | packages/proxy/src/escrow.ts:1550-1602 | Reclaim, for any set of withdraws that commit, keeps the invariant and the status. |
| `EscrowSummary.Summarize` | packages/proxy/src/escrow.ts:421-467 | The accumulating loop yields, bucket by bucket, the sum over the legs that belong to the bucket. |
| `EscrowSummary.ReleasedSplits` | packages/proxy/src/escrow.ts:421-467 | `released` splits into streamed, refunded, refund in flight and refunds that came back. |
| `EscrowSummary.SummaryConserves` | packages/proxy/src/escrow.ts:1436-1446 | The value-conservation check passes exactly for a delivered deposit (or when nothing has gone out); then the clamp on remaining is inert. |
| `EscrowSummary.CompletedMeansDelivered` | packages/proxy/src/escrow.ts:1194-1197 | By its own ledger, a completed escrow has delivered, not only offered, exactly its deposit, with nothing pending, refunded or remaining. |
| `EscrowSummary.CyclesPartition` | packages/proxy/src/escrow.ts:436-464 | Every release cycle is delivered, pending or came back, and one is pending exactly while a release offer is open. |
| `EscrowSummary.RefundReturnsTheRest` | packages/proxy/src/escrow.ts:1213-1252 | With the deposit delivered, a refund sends back exactly what was not streamed, at once or as an offer; afterwards nothing remains. |
| `EscrowSummary.EnsureLedger` | packages/proxy/src/escrow.ts:375-416 | Builds the ledger of an escrow that has none; one that has a ledger is unchanged. |
| `EscrowSummary.ReconstructionValid` | packages/proxy/src/escrow.ts:375-416 | The reconstruction of a pre-ledger escrow satisfies the invariant and streams what the releases recorded. |
| `EscrowSummary.ReconstructionReports` | packages/proxy/src/escrow.ts:375-416 | The reconstruction reports each recorded release as delivered or pending as it was recorded, and, if refunded, the rest as refunded. |
| `EscrowSummary.WindowSpreads` | packages/proxy/src/escrow.ts:1130-1166 | The newest of c releases in a window is at least c - 1 cadences after the window opens. |
| `EscrowSummary.ReleaseRateBound` | packages/proxy/src/escrow.ts:1128-1166 | Any interval of length L holds at most L / cadence + 1 releases. |
| `EscrowSummary.ReleaseKeepsPace` | packages/proxy/src/escrow.ts:1145-1197 | While releases land at once, k of them have paid min(total, k * rate), and completion comes with the last. |
| `EscrowSummary.ReconcileKeepsPace` | packages/proxy/src/escrow.ts:1353-1400 | Reconcile keeps that pace. |
| `EscrowSummary.ReclaimKeepsPace` | packages/proxy/src/escrow.ts:1550-1602 | So does reclaim. |
| `EscrowSummary.CompletesInCeilReleases` | packages/proxy/src/escrow.ts:1145-1197 | With direct delivery a completed escrow took exactly ceil(total / rate) releases, and an active one has taken fewer. |
| `EscrowPool.StepOk` | packages/proxy/src/escrow.ts:917-1602 | Every step of any escrow, the ledger or the clock keeps every escrow valid and every offer matched to its ledger leg. |
| `EscrowSolvency.ReconcileClaim` | packages/proxy/src/escrow.ts:1353-1391 | One reconcile changes what an escrow may draw by exactly the offers it misreads. |
| `EscrowSolvency.ReconcileSlack` | packages/proxy/src/escrow.ts:1353-1391 | Exactly how far one reconcile moves pool minus owed. |
| `EscrowSolvency.ReleaseSlack` | packages/proxy/src/escrow.ts:1118-1199 | A release leaves pool minus owed of every asset as it was. |
| `EscrowSolvency.RefundSlack` | packages/proxy/src/escrow.ts:1206-1252 | A refund never shrinks pool minus owed. |
| `EscrowSolvency.ReclaimSlack` | packages/proxy/src/escrow.ts:1575-1599 | A reclaim returns to the pool what it adds to the obligation. |
| `EscrowSolvency.StepKeepsSlack` | packages/proxy/src/escrow.ts:917-1602 | Under the two premises no step shrinks pool minus owed of any asset. |
| `EscrowSolvency.PoolStaysSolvent` | packages/proxy/src/escrow.ts:783-796 | From an empty lane, every such run of any number of escrows leaves each pool able to cover all its active escrows. |
| `EscrowSolvency.InterlockProtects` | packages/proxy/src/escrow.ts:783-796 | In any pool, drained or not, a release or refund that moves money leaves enough for every other active escrow of the asset; in a short pool none is possible. |
| `EscrowSolvency.StatusIsFinal` | packages/proxy/src/escrow.ts:1382-1398 | Over every run completed and refunded are final: the reopen branches are unreachable. |
| `EscrowSolvency.PendingDepositLeavesPoolShort` | packages/proxy/src/escrow.ts:1371-1375 | A deposit that lands as an offer leaves the pool short by the whole deposit. |
| `EscrowSolvency.LateAcceptIsUncounted` | packages/proxy/src/escrow.ts:1362-1384 | An offer that was taken but is first seen gone after its deadline is written off as expired while the payee keeps it, and pool minus owed falls by its amount and by whatever else that reconcile misreads. |
| `EscrowSolvency.ClassifiedRightlyIff` | packages/proxy/src/escrow.ts:1359-1376 | A vanished release offer is classified rightly exactly when it was taken and the deadline is ahead, or returned and it is past. |
| `EscrowSolvency.LostSaveLowersSlack` | packages/proxy/src/escrow.ts:1150-1198 | A committed release whose save is lost lowers pool minus owed by exactly its amount, and of no other asset. |
| `EscrowSolvency.RetryIsTheSameCommand` | packages/proxy/src/v1-lane.ts:2221-2228 | Until a release of that escrow is saved every retry submits the command that committed, and no other escrow or cycle ever does. |
| `EscrowSolvency.LostSaveBlocksPool` | packages/proxy/src/escrow.ts:783-796 | When the surplus is smaller than the lost cycle, every release and refund of the asset that moves money is refused from then on. |
| `EscrowDelivery.ReadsRightIsNotMisread` | packages/proxy/src/escrow.ts:1359-1376 | Reading a vanished offer rightly is the same as misreading nothing of it. |
| `EscrowDelivery.StepTruthful` | packages/proxy/src/escrow.ts:1353-1392 | While no reconcile misreads a release (or a refund), every step keeps accepted legs of that kind with taken offers and reverted ones with returned offers. |
| `EscrowDelivery.CompletedMeansReceived` | packages/proxy/src/escrow.ts:1194-1197 | In every run without a misreading, the payee of a completed escrow has received exactly the deposit, each leg directly or by taking its offer on the ledger. |
| `EscrowDelivery.ReconciledLegIsTrue` | packages/proxy/src/escrow.ts:1353-1392 | After a reconcile that reads right, a release or refund leg is delivered exactly when its money was received, in flight exactly when its offer is locked, reverted exactly when it was returned. |
| `EscrowDelivery.ReconciledSummaryIsTrue` | packages/proxy/src/escrow.ts:421-467 | Then delivered and refunded are what payee and payer have received, and pending and refund-pending what is locked in offers. |
| `EscrowDelivery.ReconcileCompletesIff` | packages/proxy/src/escrow.ts:1393-1398 | An active escrow completes in a reconcile exactly when nothing is left and no release is open. |
| `EscrowDelivery.ReconcileClearsStalls` | packages/proxy/src/escrow.ts:1386-1388 | Reconcile clears the stall count exactly when it takes a release for newly accepted. |
| `EscrowDelivery.ReclaimWithdrawsExactly` | packages/proxy/src/escrow.ts:1563-1599 | Reclaim withdraws exactly the release offers past their deadline that are still locked and whose withdraw commits, and counts each as a stall. |
| `EscrowDelivery.ReclaimLeavesAlone` | packages/proxy/src/escrow.ts:1555-1571 | Reclaim touches no leg of a Canton Coin or refunded escrow, nor one that is not reclaimable. |
| `EscrowRecords.ReleaseAgrees` | packages/proxy/src/escrow.ts:1157-1193 | A release adds the same amount and kind to the list of releases and to the ledger, at the time it committed. |
| `EscrowRecords.RunAgrees` | packages/proxy/src/escrow.ts:917-1602 | In every run each escrow lists exactly the releases its ledger holds. |
| `EscrowLane.OwedByAsset` | packages/proxy/src/escrow.ts:335-343 | The loop gives each asset the sum of what remains over its active escrows. |
| `EscrowLane.Lane.PoolSolvent` | packages/proxy/src/escrow.ts:783-796 | The interlock passes exactly when nothing is owed or the pool covers all that is. |
| `EscrowLane.DueFromTheStart` | packages/proxy/src/escrow.ts:1079-1081 | A new escrow may be released at once. |
| `EscrowLane.NextDueOneCadenceLater` | packages/proxy/src/escrow.ts:1128-1166 | After a release, paid or waiting, the next call is refused as not due exactly until one cadence has passed; after completion none is. |
| `EscrowLane.OneReleasePerCadence` | packages/proxy/src/escrow.ts:1128-1166 | A trigger at every due time makes one release per cadence while money is left. |
| `EscrowLane.Lane.CreateEscrow` | packages/proxy/src/escrow.ts:1027-1106 | Creation succeeds exactly when the cadence, the id, the cap and the deposit allow, and registers the new escrow and nothing else. |
| `EscrowLane.Lane.ReleaseEscrowOnce` | packages/proxy/src/escrow.ts:1118-1200 | Every outcome of a release call, in the order of its checks; it is not due exactly before the due time, and one that leaves the escrow active is next due one cadence after it was rescheduled. |
| `EscrowLane.Lane.RefundEscrow` | packages/proxy/src/escrow.ts:1206-1254 | Every outcome of a refund call and the stored record after it. |
| `EscrowLane.Lane.ReconcileEscrow` | packages/proxy/src/escrow.ts:1350-1400 | The in-place loop does what the specification of reconcile does; a failed chain read changes nothing. |
| `EscrowLane.Lane.ReclaimExpiredReleases` | packages/proxy/src/escrow.ts:1550-1602 | The in-place loop does what the specification of reclaim does, and counts the legs reclaimed. |
| `CommandId.DecodeEncode` | packages/proxy/src/v1-lane.ts:2221-2228 | A command id reads back to the agreement, cycle and attempt it was built from, whatever dashes the agreement id holds. |
| `CommandId.EncodeInjective` | packages/proxy/src/v1-lane.ts:2221-2228 | Two attempts share a command id exactly when they are the same attempt. |
| `CommandId.EncodeExamples` | packages/proxy/src/v1-lane.ts:2228-2228 | The ids as the ledger sees them, first attempt and retry. |
| `CommandId.ReferenceInjective` | packages/proxy/src/auto-withdraw.ts:996-1001 | Two auto-withdraw settlements share a reference exactly when stream and time agree. |
| `Accrual.AccruedMonotone` | packages/proxy/src/v1-lane.ts:1534-1542 | Accrual never falls. |
| `Accrual.PeriodsNest` | packages/proxy/src/v1-lane.ts:374-379 | A minute is sixty seconds, an hour sixty minutes, a day twenty-four hours. |
| `Accrual.AccruedStopsAtTermEnd` | packages/proxy/src/v1-lane.ts:1538-1539 | From the end of the term on nothing more accrues. |
| `Accrual.AccruedCountsPeriods` | packages/proxy/src/v1-lane.ts:1534-1542 | After k whole periods up to now or the term end, and before the next is over, exactly k rates have accrued; before the first, nothing. |
| `Accrual.DueReachesTarget` | packages/proxy/src/v1-lane.ts:1545-1552 | A running stream is due exactly what brings its total to the accrual, or one rate further under skip-missed. |
| `Accrual.CatchUpTelescopes` | packages/proxy/src/v1-lane.ts:1545-1552 | Catch-up payments that land at once total the accrual at the last settle, however often settle runs. |
| `Accrual.SkipMissedNeverLapses` | packages/proxy/src/v1-lane.ts:1545-1552 | Under skip-missed n settles pay n periods or all that had accrued: no window lapses. |
| `Accrual.DueWithinAccrual` | packages/proxy/src/v1-lane.ts:1545-1552 | A due amount never passes the accrual, and a stopped stream is never due. |
| `HostedSettle.StepInv` | packages/proxy/src/v1-lane.ts:3046-3185 | Every step of the hosted settle protocol, with crashes, ledger steps and outcomes recorded by clients, keeps its invariant. |
| `HostedSettle.NeverOverpays` | packages/proxy/src/v1-lane.ts:3093-3185 | Over every unforced run there is at most one pending offer, and what the ledger paid or locked is within the accrual. |
| `HostedSettle.AttemptIsNewOrLost` | packages/proxy/src/v1-lane.ts:3135-3137 | A submitted attempt belongs to no saved record; if it was used before, its record was lost and the ledger refuses it. |
| `HostedSettle.LostWriteIsNeverRepaid` | packages/proxy/src/v1-lane.ts:2221-2228 | After a lost state write every later settle retries the same attempt, and the set of payments never changes again. |
| `HostedSettle.DirectSettlePays` | packages/proxy/src/v1-lane.ts:3135-3185 | An undisturbed settle that lands moves the total and the payments by exactly the due amount and ends the cycle. |
| `HostedSettle.OfferedSettlePays` | packages/proxy/src/v1-lane.ts:3145-3172 | One that lands as an offer settles nothing until the offer is taken; the next reconcile then settles exactly the amount. |
| `HostedSettle.RecordingIsSafeIff` | packages/proxy/src/v1-lane.ts:4056-4066 | Recording a pending offer as withdrawn is safe exactly when its funds came back, and as accepted exactly when it was taken. |
| `HostedSettle.MisrecordedWithdrawPaysAgain` | packages/proxy/src/v1-lane.ts:1003-1028 | A taken offer recorded as withdrawn, which the consumption check lets through, is paid again by the next settle, past the accrual by all of it. |
| `HostedStream.UnforcedPlanWithinAccrual` | packages/proxy/src/v1-lane.ts:3115-3133 | Without force a settle pays within the accrual, whatever amount is asked for. |
| `HostedStream.PlanReachesTarget` | packages/proxy/src/v1-lane.ts:3115-3133 | An unforced settle brings the total exactly to its target; a request is paid up to that; force makes it at least one period. |
| `HostedStream.PaysExactlyWhenAccrued` | packages/proxy/src/v1-lane.ts:3126-3133 | An ordinary settle has something to pay exactly when more accrued than is settled. |
| `HostedStream.PlannedIsSubmitted` | packages/proxy/src/v1-lane.ts:3131-3137 | The settle protocol submits the planned amount under the planned attempt, and nothing when none is planned. |
| `HostedStream.ForcedPlanOverrunsIff` | packages/proxy/src/v1-lane.ts:3115-3133 | For any settled total, request and policy a settle pays past the accrual exactly when the stream runs, force is set, and what force adds (the rate, up to the request; without a request only when nothing is due) is more than the accrual left. |
| `HostedStream.ForcedPlanOverrunsByAtMostOnePeriod` | packages/proxy/src/v1-lane.ts:3115-3133 | One settle pays at most one period more than the accrual left. |
| `HostedStream.PartlyDueIsOverrun` | packages/proxy/src/v1-lane.ts:3117-3124 | With part of a period due, a forced settle of a whole period overruns. |
| `HostedStream.ForcedSettlesAddUp` | packages/proxy/src/v1-lane.ts:3126-3129 | Once everything is settled, n forced settles at one instant overrun by n periods. |
| `HostedStream.RecoveryRenumbersIff` | packages/proxy/src/v1-lane.ts:3779-3815 | Of all offers recovered at once only the first can get the cycle it was submitted for, and exactly when no record existed; otherwise, once they are withdrawn, the attempt that was lost is submitted again. |
| `HostedStream.RecoveryNumbers` | packages/proxy/src/v1-lane.ts:3786-3812 | Each offer no record names is appended once, in order, numbered two cycles after the one before. |
| `HostedStream.Stored.ReconcileOutstandingOffers` | packages/proxy/src/v1-lane.ts:3046-3085 | The in-place loop credits and releases as specified, and reports a blocker exactly when some pending offer's fate is not known. |
| `HostedStream.ReconcileResolves` | packages/proxy/src/v1-lane.ts:3054-3072 | Every record before the first of unknown fate takes its offer's fate, later ones are left, and the total grows by exactly the amounts that were taken. |
| `HostedStream.ReconcileBlockedIff` | packages/proxy/src/v1-lane.ts:3054-3072 | Something stays pending exactly when some pending offer's fate is not known. |
| `HostedStream.Stored.CreditAcceptedOffer` | packages/proxy/src/v1-lane.ts:1685-1702 | The offer is settled in full and closed, no other record changes, nothing is pending, and the next attempt is the first of a new cycle. |
| `HostedStream.Stored.NextSettle` | packages/proxy/src/v1-lane.ts:3104-3137 | A settle is planned exactly when the stream runs, nothing blocks and something is to be paid (unforced and unasked: exactly when more accrued than is settled); the amount is the one that reaches the target, or the request up to it. |
| `HostedStream.Stored.RecordOutcome` | packages/proxy/src/v1-lane.ts:3145-3185 | A direct transfer is settled; an offer leaves the total alone and is tracked exactly once; either way the attempt is used up and none passed before is submitted again. |
| `HostedStream.OutcomeUsesAttempt` | packages/proxy/src/v1-lane.ts:3135-3185 | After any saved outcome the next settle submits another attempt. |
| `V1Records.Lane.PushHistory` | packages/proxy/src/v1-lane.ts:1693-1699 | The entry is the newest of at most 500, and a total that already counted it equals everything retained or cut. |
| `V1Records.Lane.RecordSettle` | packages/proxy/src/v1-lane.ts:3584-3727 | A cycle is settled exactly when its update proves a delivery and, if named, is retained nowhere; an update that made an offer leaves exactly one record of it, pending, for the next cycle; a refusal changes nothing; ids stay distinct and totals complete. |
| `V1Records.Lane.RecordAcceptTransfer` | packages/proxy/src/v1-lane.ts:3851-3913 | A settled accept credits the offer's amount, which the chain confirmed, for an update retained nowhere and an offer not accepted before; anything else changes nothing; ids stay distinct and totals complete. |
| `V1Records.Lane.RecordClaim` | packages/proxy/src/v1-lane.ts:3492-3550 | A settled claim credits the allocated amount, which the chain confirmed, for an update retained nowhere and an allocation not claimed before; anything else changes nothing; ids stay distinct and totals complete. |
| `V1Records.Lane.RecordWithdrawTransfer` | packages/proxy/src/v1-lane.ts:4018-4069 | Nothing is credited on any stream; only a pending offer that was consumed is closed; a refusal changes nothing. |
| `V1Records.SettleMeans` | packages/proxy/src/v1-lane.ts:3584-3727 | The exact condition under which a wallet-signed cycle is settled, and what every reply says of the store. |
| `V1Records.AcceptMeans` | packages/proxy/src/v1-lane.ts:3851-3913 | The same for an accepted offer: once per offer and per update. |
| `V1Records.ClaimMeans` | packages/proxy/src/v1-lane.ts:3492-3550 | The same for a claim: once per allocation and per update. |
| `V1Records.WithdrawMeans` | packages/proxy/src/v1-lane.ts:4018-4069 | The same for a withdrawn offer: no update closes one twice. |
| `V1Records.OfferRoundTrip` | packages/proxy/src/v1-lane.ts:3584-3913 | A wallet-signed offer recorded as pending and then accepted under a fresh update settles exactly its amount as the next cycle; withdrawn, it settles nothing. |
| `V1Records.CreditDistinctIff` | packages/proxy/src/v1-lane.ts:2601-2611 | A credit keeps retained ids pairwise distinct exactly when its id is retained nowhere but, in a full history, in the entry being cut. |
| `V1Records.DoOk` | packages/proxy/src/v1-lane.ts:3492-3913 | Each record path keeps ids distinct over all streams and every total equal to all credits, cut entries included. |
| `V1Records.RunOk` | packages/proxy/src/v1-lane.ts:3492-3913 | So does every run over all record paths. |
| `V1Records.RepeatChangesNothing` | packages/proxy/src/v1-lane.ts:2605-2611 | A retained update can be recorded again by no client path, on no stream. |
| `V1Records.EmptyIdIsCreditedAgain` | packages/proxy/src/v1-lane.ts:3597-3604 | Without an update id the replay guards do not apply. |
| `V1Records.SettleCreditsIff` | packages/proxy/src/v1-lane.ts:3597-3604 | A delivered update is credited exactly when no stream retains its id. |
| `V1Records.HistoryHoldsLatest` | packages/proxy/src/v1-lane.ts:1699-1699 | The history is the latest 500 of everything credited. |
| `V1Records.CutIdIsCreditedAgain` | packages/proxy/src/v1-lane.ts:1699-1699 | After 500 further credits an update is forgotten and can be credited again. |
| `Json.GetIs` | packages/proxy/src/v1-lane.ts:564-567 | A property is found exactly when the object has it, with the value of its first occurrence. |
| `Json.PickIs` | packages/proxy/src/v1-lane.ts:564-567 | Of several names the first the object has decides. |
| `Json.VisitMeetsAll` | packages/proxy/src/v1-lane.ts:649-663 | A stack walk meets exactly the objects that occur at some position of the tree, at any depth. |
| `Json.WalkStep` | packages/proxy/src/v1-lane.ts:650-662 | Each turn of a walk shrinks what is left on the stack, which is why it ends. |
| `DeliveryTree.TemplateKeyIgnoresPackage` | packages/proxy/src/v1-lane.ts:621-626 | Template ids match exactly when module and entity agree, whatever the package. |
| `DeliveryTree.SpecLegIs` | packages/proxy/src/v1-lane.ts:590-612 | A transfer specification yields the leg of exactly the transfer it authorizes: from its sender, to its receiver, for its amount, with its instrument's match and the tag under meta.values. |
| `DeliveryTree.InstrumentIs` | packages/proxy/src/v1-lane.ts:569-578 | An instrument matches exactly when it is the configured id, bare or in a record whose admin, if named, is the configured party. |
| `DeliveryTree.HoldingLegIs` | packages/proxy/src/v1-lane.ts:618-640 | A created holding of the configured template credits exactly its owner with exactly its amount. |
| `DeliveryTree.WalkedLegs` | packages/proxy/src/v1-lane.ts:642-665 | The walk order yields the same legs, with the same multiplicity, as structural recursion. |
| `DeliveryTree.LegsAreStated` | packages/proxy/src/v1-lane.ts:642-665 | A leg is found exactly when some object of the tree states it. |
| `DeliveryTree.CollectDeliveryLegs` | packages/proxy/src/v1-lane.ts:642-665 | The stack walk returns the multiset of legs of structural recursion; text that is not JSON has none. |
| `DeliveryTree.VerifiedDelivery` | packages/proxy/src/v1-lane.ts:709-723 | The amount of the largest transfer any object of the tree authorizes from the sender to the receiver, in the instrument, with the tag asked for and at least the minimum; null exactly when there is none. |
| `DeliveryTree.TreeDelivers` | packages/proxy/src/v1-lane.ts:709-723 | The legs that meet an expectation are exactly the expected transfers of the tree. |
| `DeliveryTree.ReversedIsNoDelivery` | packages/proxy/src/v1-lane.ts:715-719 | A tree whose every transfer goes one way delivers nothing the other way. |
| `DeliveryTree.OneTransferDelivers` | packages/proxy/src/v1-lane.ts:709-723 | An update with one transfer of n delivers n from its sender to its receiver and nothing back. |
| `DeliveryTree.HoldingsAreNoDelivery` | packages/proxy/src/v1-lane.ts:580-640 | Only a transfer specification can be evidence of a delivery between two parties. |
| `DeliveryTree.UpdateConsumesContract` | packages/proxy/src/v1-lane.ts:674-700 | True exactly when some object at any depth reports an exercise or archiving of the contract. |
| `DeliveryTree.ConsumesIs` | packages/proxy/src/v1-lane.ts:688-698 | An object consumes a contract exactly when it reports that, under one of the four event properties or by its own type. |
| `DeliveryTree.CreationDoesNotConsume` | packages/proxy/src/v1-lane.ts:667-672 | The object that creates a contract does not consume it. |
| `DeliveryTree.FindCreatedInstructionCid` | packages/proxy/src/v1-lane.ts:1043-1080 | Finds the contract of an offer some object of the tree creates, and nothing exactly when none does. |
| `DeliveryTree.CreatedIs` | packages/proxy/src/v1-lane.ts:1058-1078 | An object creates an offer exactly when its template id names either transfer family, it has a contract id and it carries create arguments. |
| `PartyUpdates.FetchPartyUpdates` | packages/proxy/src/v1-lane.ts:1338-1372 | The windowed loop does what the recursive walk does. |
| `PartyUpdates.WalkReturnsPrefix` | packages/proxy/src/v1-lane.ts:1338-1372 | However a walk ends, its result is a prefix of the history: in order, no gap, no duplicate. |
| `PartyUpdates.WalkCompletes` | packages/proxy/src/v1-lane.ts:1348-1370 | Each request lowers the potential 2 * pages left + log2(window), so that many requests finish the walk. |
| `PartyUpdates.ReadsEverything` | packages/proxy/src/v1-lane.ts:1338-1372 | When ranges of `span` offsets are served, 2 * ceil(end / ceil(span / 2)) + log2(end) requests read everything: the history itself when it ends by `end`. |
| `PartyUpdates.SparseRestIsFast` | packages/proxy/src/v1-lane.ts:1361-1361 | A shrunk window grows back: a sparse rest of up to window * 2^k offsets takes k + 1 requests. |
| `PartyUpdates.ReadsEverythingIff` | packages/proxy/src/v1-lane.ts:1338-1372 | Within 2 * end + log2(end) requests the walk reads everything or throws, and throws exactly when some single offset exceeds the list limit. |
| `PartyUpdates.ThrowsOnlyOnOversizedOffset` | packages/proxy/src/v1-lane.ts:1362-1369 | A walk that throws names an offset that is too large to be served alone. |
| `PartyUpdates.OversizedOffsetIsNotPassed` | packages/proxy/src/v1-lane.ts:1362-1369 | No walk returns anything beyond such an offset. |
| `PartyUpdates.LongHistoryIsCutSilently` | packages/proxy/src/v1-lane.ts:1348-1348 | With an update at each offset, a history longer than limit * guard comes back short without an error. |
| `WithdrawTime.ResolveWithdrawTime` | packages/proxy/src/auto-withdraw.ts:1003-1058 | A returned time has exactly the amount; for a withdrawable that never falls, no time is returned exactly when no allowed millisecond has it. |
| `WithdrawTime.LeastReaching` | packages/proxy/src/auto-withdraw.ts:1014-1035 | The binary search finds the least instant that reaches the amount, or that none does. |
| `WithdrawTime.FindExact` | packages/proxy/src/auto-withdraw.ts:1082-1127 | The closed form and its neighbours, then the capped scan: nothing is found exactly when no try fits and no instant up to the cap has the amount. |
| `WithdrawTime.AnswerIsLostIff` | packages/proxy/src/auto-withdraw.ts:1082-1127 | For any withdrawable, an answer that exists is lost exactly when every instant that has the amount is more than 1000 milliseconds on and more than two from the closed form. |
| `WithdrawTime.ScanLosesWhatFalls` | packages/proxy/src/auto-withdraw.ts:1116-1127 | It happens for a withdrawable that falls only beyond the cap. |
| `SettlementJournal.RestartFindsLastFlush` | packages/proxy/src/settlement-journal.ts:57-90 | Over any run of operations, a restart finds the entries the process knew just after its last successful flush, never a mixture. |
| `SettlementJournal.ReliableWritesLoseNothing` | packages/proxy/src/settlement-journal.ts:57-90 | When no write fails, a restart after any run of operations loses nothing. |
| `SettlementJournal.Writer.PutEntry` | packages/proxy/src/settlement-journal.ts:65-72 | The entry is in memory, and on disk exactly when the write succeeded. |
| `SettlementJournal.Writer.BumpAttempts` | packages/proxy/src/settlement-journal.ts:74-83 | A known entry gains an attempt; an unknown one changes nothing. |
| `SettlementJournal.Writer.RemoveEntry` | packages/proxy/src/settlement-journal.ts:85-90 | A known entry is removed and the removal flushed; an unknown one changes nothing. |
| `SettlementJournal.Writer.List` | packages/proxy/src/settlement-journal.ts:92-94 | Every entry of memory, loading the file first when nothing was loaded. |
| `AutoWithdraw.CommitInv` | packages/proxy/src/auto-withdraw.ts:570-642 | A record that lands, at once or late, closes exactly the settlement it was submitted for. |
| `AutoWithdraw.RecoverInv` | packages/proxy/src/auto-withdraw.ts:578-641 | Recovery of an entry, whatever the ledger answers and whether the write succeeds, keeps the invariant. |
| `AutoWithdraw.PrepareInv` | packages/proxy/src/auto-withdraw.ts:754-786 | Preparing on the snapshot of a contract archived since fails; otherwise the amount is what the ledger will accept. |
| `AutoWithdraw.PutTransferInv` | packages/proxy/src/auto-withdraw.ts:797-800 | Journaling before the transfer keeps the invariant; a failed write stops the settlement before any money moves. |
| `AutoWithdraw.SendInv` | packages/proxy/src/auto-withdraw.ts:802-814 | Sending, acknowledged or not, keeps the payment backed by its entry in memory and on disk. |
| `AutoWithdraw.SubmitInv` | packages/proxy/src/auto-withdraw.ts:845-863 | Submitting keeps the invariant, for every answer but an acknowledgement that precedes the commit. |
| `AutoWithdraw.RestartInv` | packages/proxy/src/settlement-journal.ts:42-55 | A crash at any point, with any writes lost, keeps the invariant. |
| `AutoWithdraw.StepInv` | packages/proxy/src/auto-withdraw.ts:490-993 | Every step of worker, ledger and clock keeps the invariant. |
| `AutoWithdraw.NoAccrualIsPaidTwice` | packages/proxy/src/auto-withdraw.ts:490-993 | Over every run a stream has at most one journaled settlement; sent equals recorded plus that settlement while unrecorded; nothing beyond the accrual is sent. |
| `AutoWithdraw.RemovalMeansRecorded` | packages/proxy/src/auto-withdraw.ts:615-641 | Whenever an entry is removed, everything sent on its stream is recorded. |
| `AutoWithdraw.CycleSettles` | packages/proxy/src/auto-withdraw.ts:490-863 | An undisturbed cycle sends exactly what accrued and was not withdrawn, records it, and leaves the journal clear of the stream. |
| `AutoWithdraw.RecoveryCanRecord` | packages/proxy/src/auto-withdraw.ts:600-616 | A journaled record whose contract is active can be recorded by recovery while attempts are left. |
| `AutoWithdraw.AtMostFiveTries` | packages/proxy/src/auto-withdraw.ts:597-604 | With writes that succeed, across any crashes, a journaled record is resubmitted in vain at most five times. |
| `AutoWithdraw.ForgottenIsPaidAgainIff` | packages/proxy/src/auto-withdraw.ts:499-518 | With no entry in memory the next cycle pays all that the ledger shows due, which exceeds the accrual exactly when an earlier payment is unrecorded. |
| `AutoWithdraw.EarlyAckIsHarmlessIff` | packages/proxy/src/auto-withdraw.ts:938-962 | The asynchronous execute fallback, acknowledged before the commit, keeps the invariant exactly when the record had landed already. |
| `AutoWithdraw.EarlyAckPaysTwice` | packages/proxy/src/auto-withdraw.ts:938-993 | When it had not, the next cycle can pay beyond the accrual. |
| `StoreLock.OneInside` | packages/proxy/src/store-lock.ts:53-109 | At most one process holds the lock. |
| `StoreLock.StepInv` | packages/proxy/src/store-lock.ts:53-109 | Every step of any process keeps exclusion and serial order, provided a reclaim removes a lock nobody holds. |
| `StoreLock.ReclaimIsSafeIff` | packages/proxy/src/store-lock.ts:75-82 | A reclaim keeps exclusion exactly when nobody holds the lock it removes. |
| `StoreLock.ReleaseRemovesOwn` | packages/proxy/src/store-lock.ts:102-109 | A release removes the lock of the process that releases. |
| `StoreLock.MutationsAreSerial` | packages/proxy/src/escrow.ts:673-703 | In every run whose reclaims remove unheld locks: one process inside, and the store is the saved changes made one after another. |
| `StoreLock.SoleReclaimerIsSafe` | packages/proxy/src/store-lock.ts:66-82 | When one process does all the reclaiming, none is by age, and no holder exits between being read and being probed by it, every reclaim removes an unheld lock. |
| `StoreLock.OneReclaimerOverlaps` | packages/proxy/src/store-lock.ts:66-82 | Without the last condition one reclaimer is enough to put two processes inside: the holder it read releases and exits before the probe, and another takes the lock. |
| `StoreLock.AgeReclaimOverlaps` | packages/proxy/src/store-lock.ts:71-79 | A live holder that outlasts the stale age is overtaken. |
| `StoreLock.TwoReclaimersOverlap` | packages/proxy/src/store-lock.ts:66-82 | Two waiters that reclaim one dead lock both enter, and one saved change is lost. |
| `OffsetCheckpoint.OffsetStore.GetAssetOffset` | packages/proxy/src/transfer-events-subscriber.ts:158-161 | The stored offset of the asset, zero when the file is torn or lacks it. |
| `OffsetCheckpoint.OffsetStore.SetAssetOffset` | packages/proxy/src/transfer-events-subscriber.ts:163-167 | The file gains this offset and keeps the others, or stays as it was when the write fails. |
| `OffsetCheckpoint.OffsetStore.PollOnce` | packages/proxy/src/transfer-events-subscriber.ts:590-652 | Exactly the settlements of the answer are emitted, in order; the checkpoint moves only after them, and not at all for an answer without events. |
| `OffsetCheckpoint.StepInv` | packages/proxy/src/transfer-events-subscriber.ts:136-168 | Any step of any loop keeps every file body, every loaded map and every planned save behind what was emitted. |
| `OffsetCheckpoint.CheckpointNeverAhead` | packages/proxy/src/transfer-events-subscriber.ts:553-652 | Over every run with crashes and overlapping saves, no checkpoint is past a settlement that was not emitted. |
| `OffsetCheckpoint.EveryEventIsEmitted` | packages/proxy/src/transfer-events-subscriber.ts:633-642 | A poll that reaches its save has emitted every settlement up to its end offset. |
| `OffsetCheckpoint.EmitsAll` | packages/proxy/src/transfer-events-subscriber.ts:594-631 | Emitting an answer emits exactly its settlements. |
| `OffsetCheckpoint.SaveAdvances` | packages/proxy/src/transfer-events-subscriber.ts:163-167 | An undisturbed save moves the asset's checkpoint to the end offset and no other. |
| `OffsetCheckpoint.SaveBringsBackItsLoad` | packages/proxy/src/transfer-events-subscriber.ts:163-167 | An undisturbed save leaves exactly the map its load saw, undoing what other loops saved since. |
| `Executor.EvaluatePolicy` | packages/executor/src/evaluator.ts:33-101 | The loop returns the first eligible streams that the period still allows, each with the smaller of its balance and the maximum, and nothing when limited or cooling. |
| `Executor.DecisionIncludesIff` | packages/executor/src/evaluator.ts:33-101 | A stream is acted on exactly when the filter admits it, the policy allows it, it has a balance, executions are left after the eligible ones before it, and no log still cools; for its balance up to the maximum. |
| `Executor.CountsYounger` | packages/executor/src/evaluator.ts:43-46 | The executions that count are exactly those younger than the period, to the microsecond. |
| `Executor.CoolingIff` | packages/executor/src/evaluator.ts:57-72 | A policy cools exactly while some log is younger than the cooldown by a whole millisecond. |
| `Executor.OfPolicyIs` | packages/executor/src/watcher.ts:122-123 | The logs considered are the policy's own, each as often as it was written. |
| `Executor.RecentCount` | packages/executor/src/watcher.ts:113-128 | The pruned log shows min(256, logs of the period). |
| `Executor.RecentCooling` | packages/executor/src/watcher.ts:113-128 | The pruned log ends the cooldown at the same moment as the full one. |
| `Executor.PrunedDecidesAlike` | packages/executor/src/watcher.ts:113-128 | Pruned and full log give the same actions, for at most 256 executions per period or at most 256 logs in it. |
| `Executor.PrunedLimitsAlikeIff` | packages/executor/src/watcher.ts:98-128 | They agree on the rate limit exactly when the maximum is at most 256 or the period is not used up. |
| `Executor.CycleKeepsRate` | packages/executor/src/index.ts:70-153 | One cycle keeps the number of executions in every period window within the maximum. |
| `Executor.RunKeepsRate` | packages/executor/src/index.ts:70-153 | So does every run of cycles. |
| `Executor.CapLetsRateBreak` | packages/executor/src/watcher.ts:86-86 | With a maximum above 256, a full window does not stop the next cycle. |
| `ExecutorLoop.Guard.ExecutePending` | packages/executor/src/index.ts:109-153 | Each decided action that nothing blocks is submitted once, in order, with its id on disk meanwhile when writes succeed; reservations are released. |
| `ExecutorLoop.SubmittedIff` | packages/executor/src/index.ts:109-128 | A decided action is submitted exactly when its key is not blocked and its stream has no success on record younger than the cooldown. |
| `ExecutorLoop.RestartDoesNotReplay` | packages/executor/src/index.ts:190-215 | The first cycle after a restart, whatever it decides, submits no action whose id was on disk. |
| `ExecutorLoop.RestartReplaysIff` | packages/executor/src/index.ts:109-153 | An action in flight at the stop that is decided first again is submitted again exactly when its id had not been written. |
| `ExecutorLoop.GuardSurvivesIff` | packages/executor/src/index.ts:130-152 | An id found on disk at a restart is still there at a second stop in the same cycle exactly when no write had succeeded by then. |
| `RateLimiter.Limiter.Handle` | packages/proxy/src/index.ts:315-330 | Who is admitted, the bucket afterwards, and a Retry-After that is the least whole number of seconds that outlasts the window. |
| `RateLimiter.Limiter.SweepExpired` | packages/proxy/src/index.ts:332-335 | The sweep removes exactly the expired buckets. |
| `RateLimiter.SweepsChangeNothing` | packages/proxy/src/index.ts:331-336 | Sweeps anywhere in a run change no decision. |
| `RateLimiter.AtMostTwiceTheMaximum` | packages/proxy/src/index.ts:314-330 | Any closed interval of one window admits at most 2 * max(1, MAX) requests of a key. |
| `RateLimiter.TwiceIsReached` | packages/proxy/src/index.ts:314-330 | For every MAX of at least 1 the bound is reached. |
| `Distribution.AccruedReachesIff` | packages/proxy/src/distribution.ts:145-160 | A total has accrued by an instant exactly when its whole periods are over and within the end time. |
| `Distribution.ScheduleCoversIff` | packages/proxy/src/index.ts:2297-2310 | The schedule check is the end-time half of that. |
| `Distribution.CommitmentIs` | packages/proxy/src/index.ts:2265-2296 | A commitment is a whole number of periods, at least one, of the distribution's instrument alone. |
| `Distribution.PrepareFunding` | packages/proxy/src/index.ts:2231-2325 | A request passes exactly when it is well formed and everything funded, commitment included, has accrued by its deadline. |

## Left out

- Escrow tick: the streamer is modelled as the sequence of release, reconcile and reclaim steps it makes, in any order; the pause after repeated delivery stalls only skips steps.
- Escrow creation: reading the funding transfer from the chain and refusing a reused funding id; the custody cap is a check at creation, not an invariant of runs.
- Escrow balance and on-ledger comparison checks of reconcile, which report and change nothing.
- EscrowPool.StepOk: the clock of a run is one number; the readings of one mutation are ordered but otherwise free.
- Ledger leg fields that carry no money or state (sequence numbers, parties, references, reasons); a leg's position is its sequence number.
- Rounding: `toFixed(10)`, floating-point error and the 1e-6 tolerances; the 1e-9 tolerance of delivery checks is kept, as ten units.
- HostedSettle.NeverOverpays: forced settles are not part of its runs; each may pass the accrual by up to one more period, without a bound on their number (`ForcedPlanOverrunsIff`, `ForcedSettlesAddUp`).
- V1Records.RunOk: a wallet-signed cycle without an update id is not part of its runs (`EmptyIdIsCreditedAgain` shows why).
- The unverified trust path for assets other than Canton Coin as evidence of delivery; only its bookkeeping is modelled.
- Selecting a pending offer or claim by cycle or contract id: records are given by position.
- Reading a JSON value as a number or as a string is a parameter of the delivery configuration; keys of one object are unique.
- WithdrawTime.ResolveWithdrawTime: the closed form of linear vesting is an arbitrary guess, which covers whatever the division and rounding give.
- SettlementJournal: the order in which entries are listed, timestamps, and entries of other operators in the same file.
- AutoWithdraw: manual reconciliation and removal of entries, and the recovery of a recipient's pending transfer.
- AutoWithdraw.SubmitInv: the bounded retry loop around the in-process submission is one submission that may commit at any later time.
- StoreLock: waiting times and the age of a lock are free choices; process ids are not reused; a lock file is never unreadable, as it is linked whole.
- OffsetCheckpoint: back-off, reconnection and the ledger-updates fallback.
- ExecutorLoop.Guard.ExecutePending: the bound of 1024 retained ids, far above what one executor has in flight.
- Executor: fetching policies and balances, and the expiry of a policy.
- RateLimiter: the exempt health paths and the choice of the key.
- Distribution: parsing of amounts and dates, leg validation and the registry call that follows the guards.
- HTTP, registries, choice contexts, signing, tokens, configuration, dashboards and the SDK.
