# The auction core in Dafny

This project models the money and the outcome of the auction service and proves what they
keep: deposit settlement, bidding and ending, and the small primitives under them.
`dafny verify dfyconfig.toml` checks all of it.

## How it is built

**Settlement.** `Settlement.dfy` has the rows (deposits, their append-only transitions and
ledger, refunds, manifests, auctions) and the transactions as functions on them.
`SettlementMachine.dfy` is the protocol: any number of workers and administrators, each a
program point with its private copies of manifests, interleaving at every await. A
transaction commits, aborts, or commits and still raises; a POS call is answered, declined,
or times out, and may take effect without a reply; a worker can stop anywhere; a lock is
only a permission the environment grants. `SettlementBooks.dfy` is the invariant of rows
and gateway and its preservation by every effect, `SettlementRuns.dfy` what each worker
knows at each point and the invariant of whole runs. The results are in
`SettlementTheorems.dfy` (books, acknowledgement, POS discipline, what each read and answer
leads to, retry), `SettlementExpiry.dfy` (when a manifest expires), `SettlementCounts.dfy`
(the acknowledged count), `SettlementOutcome.dfy` (conservation), `SettlementLockstep.dfy`
(when manifest and auction move together), `SettledReconciles.dfy` over `Reconcile.dfy`
(settlement makes reconciliation pass), `Bystanders.dfy` (which deposits are planned and which passed over), `SettledTables.dfy`
(where every deposit of a settled auction is, the balance and the exact verdict of the report),
and `SettlementTicks.dfy` with `SettlementAttempts.dfy` (termination).

**The settlement code itself.** `Database.dfy` is the tables as one mutable object, with
each transaction write by write. `Deployment.dfy` is a running system: the tables, the
gateway, the workers and a ghost history, always in the state the machine reaches by that
history. `SettlementService.dfy` and `SettlementWorker.dfy` are the service and the worker
in the source's own shape on top of it, so every theorem about runs is about this code. A
`calm` deployment is one live instance without infrastructure exceptions; in it the worker
is proved to finish within its bound, and to complete what it settles if the gateway is also
`approving`.

**Bidding and ending.** `Bidding.dfy` is the machine, `BiddingInvariants.dfy` and
`BiddingTheorems.dfy` what it keeps, `BidCalls.dfy` what a call answers, `Winner.dfy`
who wins, `AuctionHouse.dfy` the code of `placeBid`, the ending worker and `updateStatus` refining
it, and `AuctionLifecycle.dfy` the one-way life of an auction row under the trigger.

**Primitives.** `RedisLock.dfy` and `CircuitBreaker.dfy`.

`ShortDeposit.dfy`, `RetryRounds.dfy`, `FractionalBid.dfy` and the end of
`SettlementLockstep.dfy` are concrete runs that show where a property one might expect is false;
`OneItem.dfy` has the moves the first two are put together from.

## Assumptions

- Saving an auction in `placeBid` and `updateStatus` is a compare-and-set on `version`, as the
  comment at `apps/auction-service/src/modules/auctions/services/bid.service.ts:260` says.
- `minimumIncrement` is positive. A participant's deposit is their own, for that auction, and
  no two participants share one; a user has one deposit per auction.
- When a run starts no settlement has begun and no held deposit has refund or settlement rows;
  bidding starts without bids. Nothing outside the model changes deposits.
- The POS acts at most once per idempotency key. Redis keys are not evicted.

## Where the code and its documentation differ

- The admin retry writes the auction back to settling, but the trigger has no such edge, so as
  shipped every retry rolls back. The edge is a parameter: results hold with and without it.
- The audit document speaks of boundary bursts of twice the limit; the exact bound is one less.
- The winner query breaks ties by time; no tie can arise.
- The reconciliation check on the captured amount compares a deposit with the final price, and
  settlement does nothing to make it true.
- The retry is meant to reset failed items only; it reads the manifest without a lock and saves the
  whole of it, so it can also undo what was acknowledged since.
- The reply to a bid echoes the amount offered; the row holds it rounded.

## Model

| member | source | states |
|---|---|---|
| SettlementTheorems.ExactlyOnceBooks | apps/auction-service/src/modules/auctions/services/settlement.service.ts:354-722 | in every state of every run, with any number of workers, crashes, ambiguous commits and stale copies, a deposit's status is what its append-only transitions replay to, its ledger postings are exactly the rows that status calls for, each for the full amount, and it has one refund row, with the matching status, iff it is on the refund path |
| SettlementTheorems.OthersUntouched | apps/auction-service/src/modules/auctions/services/settlement.service.ts:129-143 | a deposit that was not held when the run started keeps its status for ever |
| SettlementTheorems.TruthfulEverywhere | apps/auction-service/src/modules/auctions/services/settlement.service.ts:233-352 | in every state, every copy of a manifest, stored or in anybody's memory, marks a capture acknowledged only if the deposit is captured and a refund only if it is refunded |
| SettlementTheorems.NoStuckItems | apps/auction-service/src/modules/auctions/services/settlement.service.ts:270-271 | no stored manifest ever holds an item in state `sent`, although items are marked in place before the POS call |
| SettlementTheorems.OneKeyPerDeposit | apps/auction-service/src/modules/auctions/services/settlement.service.ts:145-156 | every POS request for a deposit is the same request, under one key, for its amount and a capture iff it is the winner's; no deposit is sent both a capture and a refund; money moves at most once per deposit |
| SettlementTheorems.RecordsMatchThePos | apps/auction-service/src/modules/auctions/services/settlement.service.ts:273-297 | a deposit recorded captured or refunded had a successful POS reply under its key, and money moved under that key only |
| SettlementTheorems.RefundRequestsFollowCommits | apps/auction-service/src/modules/auctions/services/settlement.service.ts:446-592 | a refund request leaves only from a state where the refund's initiation and its refund row are already durable; a capture request only where there is no refund row |
| SettlementTheorems.ReadDecides | apps/auction-service/src/modules/auctions/services/settlement.service.ts:233-646 | in any state of any run, a read that finds the deposit captured for a capture, or refunded for a refund, leads to the item acknowledged and ready to be saved, with nothing written and no request sent; a refund under way goes on to the POS without a second initiation; a re-read after an error fails the item once more iff the deposit has not arrived |
| SettlementTheorems.AnswerDecides | apps/auction-service/src/modules/auctions/services/settlement.service.ts:273-345 | in any state of any run, an open circuit costs the item an attempt and sends nothing, a call sends exactly the item's request, an approval is recorded, a decline costs an attempt, and an error leads to a second look at the deposit |
| SettlementTheorems.InitiationDecides | apps/auction-service/src/modules/auctions/services/settlement.service.ts:446-486 | in any state of any run, a refund's initiation that returns either moved a held deposit, and the POS is called next, or found it moved on and looks again; one that fails is tried four times at most, and then the stored manifest is left as it is for the next tick |
| SettlementTheorems.GivesUpAtTheFourth | apps/auction-service/src/modules/auctions/utils/db-retry.util.ts:75-84 | the first attempt that returns records the charge or refund; the worker gives up exactly at an error not worth retrying or at the fourth attempt |
| SettlementExpiry.DeadlineEverywhere | apps/auction-service/src/modules/auctions/services/settlement.service.ts:174-175 | in every state since an initiation at t, the stored manifest and every copy of it, in anybody's memory, expire at t + 172800000 |
| SettlementExpiry.ExpiresIffOverdue | apps/auction-service/src/modules/auctions/workers/settlement.worker.ts:239-243 | whatever copy it has, a worker comes to close the manifest as expired exactly by being granted the lock with a clock past t + 172800000 |
| SettlementExpiry.NeverExpiredEarly | apps/auction-service/src/modules/auctions/workers/settlement.worker.ts:239-243 | while no worker granted a lock has had a clock past t + 172800000, the manifest is not expired and nobody is about to close it as expired |
| SettlementExpiry.OverdueCloses | apps/auction-service/src/modules/auctions/workers/settlement.worker.ts:355-408 | a worker granted the lock on its copy after that closes it, and fails the auction if that is settling |
| SettlementCounts.CountIsExact | apps/auction-service/src/modules/auctions/services/settlement.service.ts:726-751 | in every state of every run the stored count of acknowledged items is the number of items the row has acknowledged, and equals the total iff that is all of them |
| SettlementTheorems.CommitsPassTheTriggers | database/migrations/020_sniper_protection_and_ending_transitions.sql:22-166 | no transaction of the settlement model writes a row that a trigger would reject |
| SettlementTheorems.ShippedTriggerBlocksRetry | apps/auction-service/src/modules/auctions/controllers/admin-settlement.controller.ts:215-222 | with the trigger as shipped every admin retry rolls back with the world unchanged |
| SettlementTheorems.RetryReactivates | apps/auction-service/src/modules/auctions/controllers/admin-settlement.controller.ts:186-224 | with the retry edge a retry stores the administrator's copy reactivated: what that copy has acknowledged stays so, nothing is left failed or out of attempts, and something is reset; about the stored row see the next two |
| SettlementTheorems.RetryKeepsAcks | apps/auction-service/src/modules/auctions/controllers/admin-settlement.controller.ts:149-212 | over runs: the row is read without a lock and written back whole, so what is stored as acknowledged before the commit is so after it iff the commit has no effect or each such item was acknowledged already in the row as it was read; nothing is lost if the row has not changed since |
| RetryRounds.StaleRetryResetsAnAck | apps/auction-service/src/modules/auctions/controllers/admin-settlement.controller.ts:151-212 | a concrete run in which a retry of a copy read before another administrator's retry sets a captured and acknowledged item back to pending |
| RetryRounds.RoundsWithoutEnd | apps/auction-service/src/modules/auctions/controllers/admin-settlement.controller.ts:149-224 | with the edge the rounds are unbounded: for every n a run brings the auction back n times through the endpoint, each time from an escalated manifest with an item out of attempts to an active one, and can be retried again |
| SettlementTheorems.RetryNeedsTheEdge | apps/auction-service/src/modules/auctions/controllers/admin-settlement.controller.ts:155-208 | a retry goes through iff its copy is escalated with a failed item, its auction has failed, and the trigger has the edge back to settling |
| SettlementRuns.WorkMove | apps/auction-service/src/modules/auctions/services/settlement.service.ts:233-722 | whatever a worker does next and however it turns out, its effect is one that its knowledge at that point justifies, and its knowledge at the next point holds |
| SettlementRuns.StepKeeps | apps/auction-service/src/modules/auctions/services/settlement.service.ts:77-891 | every step of any actor keeps the invariant of rows, gateway and memories, and only moves deposits, plans and winners the way everybody relies on |
| SettlementRuns.RunInv | apps/auction-service/src/modules/auctions/services/settlement.service.ts:77-891 | the invariant holds at the end of every run |
| SettlementRuns.PcStable | apps/auction-service/src/modules/auctions/workers/settlement.worker.ts:192-218 | what a worker knows survives everybody else's steps, with or without the lock |
| SettlementBooks.PerformKeeps | apps/auction-service/src/modules/auctions/services/settlement.service.ts:77-891 | each justified effect keeps the invariant |
| SettlementBooks.PlanItemsSound | apps/auction-service/src/modules/auctions/services/settlement.service.ts:129-163 | the items of a new manifest are one pending item for each eligible participant with a held deposit, with the right owner, amount, action and key, none twice |
| SettlementOutcome.SettledMeansResolved | apps/auction-service/src/modules/auctions/services/settlement.service.ts:738-788 | in every state, an auction that was settled, and not by hand, has every planned deposit captured or refunded as planned; what is done to other auctions does not matter |
| SettlementOutcome.Conservation | apps/auction-service/src/modules/auctions/services/settlement.service.ts:129-163 | for an auction settled, not by hand: captured plus refunded deposits of its manifest equal the manifest's items and the captured and refunded ledger rows about them; a deposit is captured iff the winner's; at most one capture |
| SettledTables.SettledWhere | apps/auction-service/src/modules/auctions/services/settlement.service.ts:112-163 | where every deposit of an auction settled by the code is: captured or refunded, as its owner won or not, iff it was held with an eligible participant when the run started; otherwise where it was then |
| SettledTables.FullBalance | scripts/validate-ledger-integrity.ts:183-206 | for an auction settled by the code, what the script finds unaccounted is the total of its deposits that, when the run started, were neither held with an eligible participant nor captured or refunded already; so, amounts being positive, it balances iff there were none |
| ShortDeposit.SettledButUnbalanced | apps/auction-service/src/modules/auctions/services/settlement.service.ts:112-143 | a concrete run in which every step of settlement succeeds and the balance fails, by the held deposit of a participant who is not eligible |
| ShortDeposit.SettledByHandDoesNotAddUp | apps/auction-service/src/modules/auctions/services/auction.service.ts:16-24 | a concrete run in which an auction settled by hand does not add up |
| Bystanders.BystandersAreLeftAlone | apps/auction-service/src/modules/auctions/services/settlement.service.ts:112-143 | a held deposit without an eligible participant stays held for ever: no run plans an item for it, requests or moves its money |
| SettlementLockstep.StepExact | apps/auction-service/src/modules/auctions/workers/settlement.worker.ts:382-387 | from any state in lockstep, with any number of instances, a commit keeps lockstep iff the auction's row is where the unconditional save takes it to be (settling for a saved copy, not settled for a forced close) and nobody moves an auction into or within settlement by hand |
| SettlementLockstep.LockstepIffInStep | apps/auction-service/src/modules/auctions/services/settlement.service.ts:748-749 | for any number of instances with crashes, stale copies and moves by hand, every state of a run is in lockstep iff every one of its commits is in step |
| SettlementLockstep.RunActive | apps/auction-service/src/modules/auctions/workers/settlement.worker.ts:192-194 | every copy a worker holds, in every state of every run, was active when loaded |
| SettlementLockstep.OneInstanceInStep | apps/auction-service/src/modules/auctions/workers/settlement.worker.ts:191-353 | with one live instance every commit is in step |
| SettlementLockstep.LockstepForOneInstance | apps/auction-service/src/modules/auctions/workers/settlement.worker.ts:355-453 | with one live instance, crashing and restarting anywhere, in every state of the run: no manifest before settling, active iff settling, completed iff settled, expired or escalated iff failed; and the copies it still has to serve are live |
| SettlementLockstep.LockstepFailsForTwo | apps/auction-service/src/modules/auctions/workers/settlement.worker.ts:192-243 | a concrete run of two instances with a commit that is not in step: a stale copy marks a settled auction's manifest expired |
| SettledReconciles.SettledPasses | apps/auction-service/src/modules/auctions/controllers/admin-finance.controller.ts:261-394 | when an auction whose deposits were all held by eligible participants has been settled, not by hand, every check passes, except that the winner's capture passes iff the winner has a deposit, and nothing is said about the amount |
| SettledReconciles.ReconciliationVerdict | apps/auction-service/src/modules/auctions/controllers/admin-finance.controller.ts:288-312 | the whole report then passes iff the winner, if any, has a deposit and it is worth at least the final price |
| SettledReconciles.VerdictKnownAtTheEnd | apps/auction-service/src/modules/auctions/controllers/admin-finance.controller.ts:288-312 | the same verdict, told at any earlier moment since the auction was over: however the run goes on to settle it, the report passes iff the winner, if any, then had a deposit worth at least the final price |
| SettledTables.ReportVerdict | apps/auction-service/src/modules/auctions/controllers/admin-finance.controller.ts:235-394 | the exact verdict for every auction settled by the code: the report passes iff the winner, if any, has a deposit worth at least the final price and, when the run started, each deposit was held with an eligible participant or already where the report wants it, and the ledger's captured and refunded rows matched the deposits |
| SettledTables.ReportVerdictKnownAtTheEnd | apps/auction-service/src/modules/auctions/controllers/admin-finance.controller.ts:235-394 | the same, with the winner and the price read at any earlier moment since the auction was over |
| SettledReconciles.DoneVerdict | apps/auction-service/src/modules/auctions/controllers/admin-finance.controller.ts:235-394 | in any state of a run, the report of an auction with a manifest passes iff the winner's deposits are captured and all others refunded, with ledger counts to match, and the winner, if any, has a deposit worth at least the final price |
| SettledReconciles.RunCovers | apps/auction-service/src/modules/auctions/services/settlement.service.ts:112-163 | a fully enrolled auction's manifest has an item for every deposit of the auction, in every state |
| ShortDeposit.SettledButShort | apps/auction-service/src/modules/auctions/controllers/admin-finance.controller.ts:302-310 | a concrete run in which every step of settlement succeeds and the price check fails |
| SettlementTicks.SettlementTerminates | apps/auction-service/src/modules/auctions/workers/settlement.worker.ts:264-314 | any manifest as it is stored, also one a worker left behind with an item out of attempts, is served by at most three ticks for every five items still unacknowledged, or fewer at the end, the last of which completes or escalates it |
| SettlementTicks.BoundIsReached | apps/auction-service/src/modules/auctions/workers/settlement.worker.ts:264-314 | no smaller bound holds: for a new manifest of any size there are ticks that leave it in progress exactly that often |
| SettlementTicks.ApprovedPass | apps/auction-service/src/modules/auctions/workers/settlement.worker.ts:264-314 | a pass in which nothing fails acknowledges exactly the first five unacknowledged items |
| SettlementTicks.ApprovedTicksLeave | apps/auction-service/src/modules/auctions/workers/settlement.worker.ts:264-314 | after t such ticks exactly 5t fewer items are unacknowledged |
| SettlementTicks.InProgressBound | apps/auction-service/src/modules/auctions/workers/settlement.worker.ts:264-314 | at most a fifth of the attempts left, plus two, ticks leave such a manifest in progress |
| SettlementTicks.InProgressBeganAlive | apps/auction-service/src/modules/auctions/services/settlement.service.ts:731-746 | a tick that leaves a manifest in progress began with no item out of attempts |
| SettlementTicks.InProgressLeavesWork | apps/auction-service/src/modules/auctions/services/settlement.service.ts:726-751 | a verdict of `in_progress` always leaves an item the next tick picks up |
| SettlementAttempts.RetryRestoresMeasure | apps/auction-service/src/modules/auctions/controllers/admin-settlement.controller.ts:190-202 | in every run, whatever copy an administrator retries, the retry restores a positive number of attempts and leaves no item without one unless it is acknowledged |
| SettlementAttempts.RunUnspent | apps/auction-service/src/modules/auctions/services/settlement.service.ts:145-156 | in every state of every run, every copy of a manifest, stored or in anybody's memory, has attempts left for whatever it holds as pending |
| SettlementAttempts.StoredServable | apps/auction-service/src/modules/auctions/workers/settlement.worker.ts:267-300 | whatever is stored, freshly planned, saved before a crash or reset by a retry, is a list of items the bound applies to |
| SettlementTicks.PlanAlive | apps/auction-service/src/modules/auctions/services/settlement.service.ts:145-156 | a new manifest is one the bound applies to |
| SettlementWorker.SettlementWorker.RunTicks | apps/auction-service/src/modules/auctions/workers/settlement.worker.ts:76-353 | in a deployment without infrastructure exceptions, with the gateway declining and timing out at will, at most three ticks for every five unacknowledged items, or fewer at the end, serve a stored active manifest, and a schedule that puts its auction among the first three in that many healthy ticks completes or escalates it; if the gateway approves every call and no item was out of attempts, one tick for every five items, or fewer at the end, completes it |
| SettlementWorker.SettlementWorker.SettleEnded | apps/auction-service/src/modules/auctions/workers/settlement.worker.ts:94-98 | from the end of an auction: its planned manifest is created, and completed or escalated once the schedule has given it that many chances; completed, after one chance for every five items, if the gateway approves every call |
| SettlementWorker.SettlementWorker.RunTick | apps/auction-service/src/modules/auctions/workers/settlement.worker.ts:76-112 | one tick refines the machine; it serves an auction iff Redis is healthy and the auction is among the first three manifests loaded, and then makes one pass and one verdict, otherwise nothing |
| SettlementWorker.SettlementWorker.InitiateNewSettlements | apps/auction-service/src/modules/auctions/workers/settlement.worker.ts:114-189 | with every lock granted, each listed auction that was ended without a manifest gets the manifest planned for it, completed at once if it has no items, and no existing manifest is disturbed |
| SettlementWorker.SettlementWorker.ProcessActiveManifests | apps/auction-service/src/modules/auctions/workers/settlement.worker.ts:191-353 | an auction is served iff it is among the first three loaded manifests when every lock is granted |
| SettlementWorker.SettlementWorker.ServeLocked | apps/auction-service/src/modules/auctions/workers/settlement.worker.ts:239-262 | an expired or oversized manifest is closed and its auction fails; any other is passed over once; no other auction's manifest is touched |
| SettlementWorker.SettlementWorker.ServeManifest | apps/auction-service/src/modules/auctions/workers/settlement.worker.ts:264-338 | the copy is passed over once, up to five attempts, and the row becomes the verdict on the result |
| SettlementWorker.SettlementWorker.PassItems | apps/auction-service/src/modules/auctions/workers/settlement.worker.ts:264-300 | the bounded loop: each processable item before the bound is attempted once, and nothing else changes |
| SettlementWorker.SettlementWorker.ServeItem | apps/auction-service/src/modules/auctions/workers/settlement.worker.ts:271-298 | an attempted item is put back and the copy saved before the next one |
| SettlementService.SettlementService.ProcessManifestItem | apps/auction-service/src/modules/auctions/services/settlement.service.ts:218-231 | one attempt at one item refines the machine: the item comes back acknowledged, or failed once more |
| SettlementService.SettlementService.ProcessCaptureItem | apps/auction-service/src/modules/auctions/services/settlement.service.ts:233-268 | the capture code refines the machine from the first read to the save; without infrastructure exceptions the item is acknowledged if its deposit was captured already, or the gateway approves every call |
| SettlementService.SettlementService.ChargeAndRecord | apps/auction-service/src/modules/auctions/services/settlement.service.ts:270-352 | the POS call, the record and the re-read refine the machine |
| SettlementService.SettlementService.ProcessRefundItem | apps/auction-service/src/modules/auctions/services/settlement.service.ts:418-445 | the same for the refund code, whether the deposit was refunded already, its refund under way, or still held |
| SettlementService.SettlementService.InitiateRefund | apps/auction-service/src/modules/auctions/services/settlement.service.ts:446-486 | the durable initiation of a refund and its re-check refine the machine |
| SettlementService.SettlementService.ExecuteRefundPosCall | apps/auction-service/src/modules/auctions/services/settlement.service.ts:560-646 | the refund call, the record and the re-read refine the machine |
| Deployment.Deployment.ExecuteWithRetry | apps/auction-service/src/modules/auctions/utils/db-retry.util.ts:61-106 | attempts, each of which may commit and still raise, go through the machine's retry points: at most four, and it rethrows only the fourth error or one not worth retrying; without infrastructure exceptions it returns |
| Deployment.Deployment.CallGateway | apps/auction-service/src/modules/auctions/services/payment.service.ts:235-275 | a call is rejected by the circuit, or sent and answered or timed out, with or without effect |
| Deployment.Deployment.FindOne | apps/auction-service/src/modules/auctions/services/settlement.service.ts:241-268 | a deposit read happens at one instant, anything may precede it, and it may throw |
| Deployment.Deployment.SaveCopy | apps/auction-service/src/modules/auctions/services/settlement.service.ts:881-890 | the copy overwrites the stored row with a fresh acknowledged count |
| Deployment.Deployment.InitiateSettlement | apps/auction-service/src/modules/auctions/services/settlement.service.ts:77-214 | initiation as one event of the history; with nobody interfering, an ended auction without a manifest gets one with the planned items |
| Deployment.Deployment.FinalizeManifest | apps/auction-service/src/modules/auctions/services/settlement.service.ts:726-751 | finalization as one event of the history |
| Deployment.Deployment.ForceClose | apps/auction-service/src/modules/auctions/workers/settlement.worker.ts:355-466 | expiry and size escalation as one event of the history; without infrastructure exceptions the copy is stored closed and a settling auction fails |
| Database.Database.RecordCapture | apps/auction-service/src/modules/auctions/services/settlement.service.ts:354-416 | the writes of the capture transaction, all or none, equal the specification; a no-op when the deposit is no longer held |
| Database.Database.RecordRefundInitiation | apps/auction-service/src/modules/auctions/services/settlement.service.ts:488-558 | the same for initiating a refund, with the duplicate key raising |
| Database.Database.RecordRefundCompletion | apps/auction-service/src/modules/auctions/services/settlement.service.ts:648-722 | the same for completing a refund |
| Database.Database.BuildItems | apps/auction-service/src/modules/auctions/services/settlement.service.ts:129-163 | the loop over participants computes the plan |
| Database.Database.InitiateSettlement | apps/auction-service/src/modules/auctions/services/settlement.service.ts:77-214 | both rows are written, only for an ended auction without a manifest, and the manifest expires 172800000 ms later |
| Database.Database.FinalizeManifest | apps/auction-service/src/modules/auctions/services/settlement.service.ts:726-751 | complete, escalate or record progress, by the items in memory |
| Database.Database.CloseSettlement | apps/auction-service/src/modules/auctions/services/settlement.service.ts:753-877 | both rows or neither, and only while the auction is settling |
| Database.Database.ForceClose | apps/auction-service/src/modules/auctions/workers/settlement.worker.ts:355-445 | the manifest is saved even when the auction is no longer settling |
| Database.Database.RetrySettlement | apps/auction-service/src/modules/auctions/controllers/admin-settlement.controller.ts:149-224 | accepted iff the retry's conditions hold and the trigger admits the edge, and then both rows are written |
| Database.ResetFailed | apps/auction-service/src/modules/auctions/controllers/admin-settlement.controller.ts:187-208 | the loop resets exactly the failed items, and counts none iff there was none |
| Reconcile.Reconcile | apps/auction-service/src/modules/auctions/controllers/admin-finance.controller.ts:235-394 | nothing for an unknown auction; otherwise the applicable checks in order, each true iff what it stands for holds of the sets of deposits, and their conjunction |
| Reconcile.PassesIffHolds | apps/auction-service/src/modules/auctions/controllers/admin-finance.controller.ts:261-394 | each check by itself against the sets of deposits in each status, the ledger rows about them and what the manifest says is done; the refund balance iff what is neither captured nor refunded totals 0 |
| Reconcile.BalanceIffNoneLeft | apps/auction-service/src/modules/auctions/controllers/admin-finance.controller.ts:335-352 | amounts being positive, the refund balance is true iff every deposit was captured or refunded, whatever the auction's status |
| Reconcile.NamesExactly | apps/auction-service/src/modules/auctions/controllers/admin-finance.controller.ts:261-394 | which checks the report carries |
| Reconcile.UnrefundedFails | apps/auction-service/src/modules/auctions/controllers/admin-finance.controller.ts:335-394 | tables for which the refund balance and the manifest check are false |
| RetryRounds.FailedDoesNotBalance | apps/auction-service/src/modules/auctions/controllers/admin-finance.controller.ts:335-352 | reachable states, of failed auctions with a deposit still held, whose refund balance is false |
| SettledReconciles.ManifestAlwaysConsistent | apps/auction-service/src/modules/auctions/controllers/admin-finance.controller.ts:372-394 | the manifest check is true in every state of every run |
| Reconcile.OpeningChecks | apps/auction-service/src/modules/auctions/controllers/admin-finance.controller.ts:261-286 | checks 1 to 3 against their meaning over the tables |
| Reconcile.WinnerChecks | apps/auction-service/src/modules/auctions/controllers/admin-finance.controller.ts:288-318 | checks 4 and 5, or the no-winner check |
| Reconcile.BalanceChecks | apps/auction-service/src/modules/auctions/controllers/admin-finance.controller.ts:320-370 | checks 6 to 8 |
| Reconcile.ManifestCheck | apps/auction-service/src/modules/auctions/controllers/admin-finance.controller.ts:372-394 | check 9, only with a manifest |
| BiddingTheorems.PriceChain | apps/auction-service/src/modules/auctions/services/bid.service.ts:166-234 | in every state the row counts its bids and holds the last as its price; bids rise by at least the increment after rounding; the price is at least the start plus count times increment |
| Winner.WinnerCorrect | apps/auction-service/src/modules/auctions/workers/auction-ending.worker.ts:167-203 | an auction that ended, and not by hand, was won by its last committed bid at the current price, strictly above all others; no winner iff no bids; what is done to other auctions does not matter |
| Winner.DecidedUnlessByHand | apps/auction-service/src/modules/auctions/workers/auction-ending.worker.ts:185-200 | an ended auction's outcome is its last bid, or nobody without bids, iff it has no bids or was not ended by hand |
| Winner.ManualEndNamesNobody | apps/auction-service/src/modules/auctions/services/auction.service.ts:16-24 | ending by hand names no winner, whatever bids there are |
| FractionalBid.EndedByHandWithABid | apps/auction-service/src/modules/auctions/services/auction.service.ts:104-120 | a concrete run in which an auction with a bid is ended by hand and has no winner |
| BiddingTheorems.NoBidAfterEnding | apps/auction-service/src/modules/auctions/services/bid.service.ts:106-128 | after an auction leaves LIVE for ENDING or CANCELLED no bid for it is ever committed |
| BiddingTheorems.PriceMovesOnce | apps/auction-service/src/modules/auctions/services/bid.service.ts:219-281 | a step appends at most one bid, under a new key, and moves the price and count of that auction only |
| BiddingTheorems.BidIdempotency | database/migrations/005_auctions_tables.sql:84 | however many calls carry a key, at most one row has it, and every accepted reply to any of them names that row |
| BiddingTheorems.FirstReplyAmount | apps/auction-service/src/modules/auctions/services/bid.service.ts:287-297 | the first reply reports the amount its row holds iff the amount offered is a whole number of cents |
| BiddingTheorems.SniperClosedForm | apps/auction-service/src/modules/auctions/services/bid.service.ts:236-258 | the effective end is the scheduled end folded over the bids with max(end, t + window) for t before the end; timely bids leave the window; no prefix ended later |
| BiddingTheorems.PassedEndStays | apps/auction-service/src/modules/auctions/workers/auction-ending.worker.ts:130-136 | the end never moves earlier, and once it has passed, bids decided later do not move it, so the re-check stays true |
| BiddingTheorems.ClosesOnTime | apps/auction-service/src/modules/auctions/workers/auction-ending.worker.ts:112-161 | in any run, LIVE becomes ENDING, other than by hand, only by the ending worker with a clock at or past the scheduled end folded over the bids so far; an attempt before that changes nothing, one after it closes the auction and nothing else |
| BidCalls.AcceptedWhateverTheClock | apps/auction-service/src/modules/auctions/services/bid.service.ts:62-310 | after any run, what a call that nothing comes between answers and writes: under a taken key, that row; under a new one, the first that applies of lock, auction, eligibility, consent, changed price and increment, as its reason, and nothing written; otherwise accepted and placed, with its id, amount, count and extension, whatever the clocks show |
| BidCalls.OvertakenCall | apps/auction-service/src/modules/auctions/services/bid.service.ts:86-285 | what a call is answered that another has overtaken, in any state: the row that has its key by then, AuctionNotLive, AmountAlreadyBid, a fault, or PriceChanged iff the row it loaded has moved on; only a landed commit places a bid |
| FractionalBid.LateFractionalBid | apps/auction-service/src/modules/auctions/services/bid.service.ts:244-258 | a concrete run in which a bid after the end is accepted without extending, and the reply's amount is not the row's |
| BiddingInvariants.RunKeeps | apps/auction-service/src/modules/auctions/services/bid.service.ts:62-310 | the invariant of rows, copies and replies holds at the end of every run |
| BiddingInvariants.SavePlaces | apps/auction-service/src/modules/auctions/services/bid.service.ts:182-262 | a save that passes the version check places a bid at least the increment above the current price |
| BiddingInvariants.RoundsHalfAway | database/migrations/005_auctions_tables.sql:72 | the column holds the nearest cent, and of two equally near ones the one further from zero |
| BiddingInvariants.LastIsBest | apps/auction-service/src/modules/auctions/workers/auction-ending.worker.ts:185-191 | on a rising chain of bids, ordering by amount and then time picks the last one |
| Bidding.Best | apps/auction-service/src/modules/auctions/workers/auction-ending.worker.ts:185-191 | the chosen bid is one that no other beats by amount or, at equal amount, by time; none iff there are no bids |
| Bidding.FindKey | apps/auction-service/src/modules/auctions/services/bid.service.ts:67-104 | a row with the key, iff there is one |
| AuctionHouse.AuctionHouse.PlaceBid | apps/auction-service/src/modules/auctions/services/bid.service.ts:62-310 | the whole call refines the machine; an accepted reply names a row with the request's key whose amount is the reply's, rounded |
| AuctionHouse.AuctionHouse.Validate | apps/auction-service/src/modules/auctions/services/bid.service.ts:130-199 | the reply is the first reason that applies: eligibility, consent, reference price, increment |
| AuctionHouse.AuctionHouse.WriteBid | apps/auction-service/src/modules/auctions/services/bid.service.ts:219-281 | insert, sniper check, version check and update, all or none |
| AuctionHouse.AuctionHouse.TransitionLiveToEnding | apps/auction-service/src/modules/auctions/workers/auction-ending.worker.ts:112-161 | a live auction is closed iff its end, extended or scheduled, is not after the clock under the lock and the commit lands; otherwise nothing changes |
| AuctionHouse.AuctionHouse.TransitionEndingToEnded | apps/auction-service/src/modules/auctions/workers/auction-ending.worker.ts:167-203 | ends an ending auction on its last committed bid, or on nobody |
| AuctionHouse.AuctionHouse.ProcessAuction | apps/auction-service/src/modules/auctions/workers/auction-ending.worker.ts:81-106 | a pass that meets no exception never leaves the auction in ENDING |
| AuctionHouse.AuctionHouse.UpdateStatus | apps/auction-service/src/modules/auctions/services/auction.service.ts:92-137 | a manual move is saved iff the table allows it, the version is the one asked for, the row is still that one and the commit returns; ending and cancelling stamp the time |
| AuctionLifecycle.TablesCompared | apps/auction-service/src/modules/auctions/services/auction.service.ts:16-24 | the ten manual moves are among those the trigger admits, which has five more, and the retry edge if given |
| AuctionLifecycle.OneWay | database/migrations/020_sniper_protection_and_ending_transitions.sql:141-162 | with the trigger as shipped a status changes at most as often as the rank has grown, at most eight times in any run |
| AuctionLifecycle.NoStatusComesBack | database/migrations/020_sniper_protection_and_ending_transitions.sql:141-162 | with the trigger as shipped, a status that is the same at two moments was the same in between |
| AuctionLifecycle.OutcomeFrozen | database/migrations/020_sniper_protection_and_ending_transitions.sql:51-117 | final price, winner, winning bid and end time never change once an auction has ended, with or without the retry edge |
| AuctionLifecycle.TriggerRaisesRank | database/migrations/020_sniper_protection_and_ending_transitions.sql:144-162 | an admitted change of status raises the rank, unless it is the retry edge |
| AuctionLifecycle.TriggerProtectsOutcome | database/migrations/020_sniper_protection_and_ending_transitions.sql:51-117 | every row the trigger admits keeps the outcome iff the auction is settling or settlement_failed |
| AuctionLifecycle.RetriesAreUnbounded | database/migrations/020_sniper_protection_and_ending_transitions.sql:112-116 | the bound of OneWay fails with the edge: for every n the status moves it admits change 4 + 2n times in some run (the endpoint itself is in RetryRounds.RoundsWithoutEnd) |
| AuctionLifecycle.ShippedRetryStops | database/migrations/020_sniper_protection_and_ending_transitions.sql:112-116 | without the edge the retry's write changes nothing |
| RedisLock.Exclusive | apps/auction-service/src/modules/auctions/services/redis-lock.service.ts:64-71 | when a key is acquired again, the first lease has run out or was released with its own token |
| RedisLock.SucceedsIff | apps/auction-service/src/modules/auctions/services/redis-lock.service.ts:64-88 | an acquisition fails iff an earlier one still has its lease, neither run out nor released; a release succeeds iff it has that one's token |
| RedisLock.ReleaseTakesOnlyItsOwn | apps/auction-service/src/modules/auctions/services/redis-lock.service.ts:78-88 | a release leaves every other holder in place, and cannot succeed twice |
| RedisLock.WindowAdmitsFirst | apps/auction-service/src/modules/auctions/services/redis-lock.service.ts:94-113 | each window admits exactly its first maxCount requests |
| RedisLock.IntervalBound | apps/auction-service/src/modules/auctions/services/redis-lock.service.ts:94-113 | any half-open interval as long as the window admits at most 2 * maxCount - 1 |
| RedisLock.BoundIsReached | docs/architecture-audit.md:183-184 | for every limit a trace reaches that bound |
| RedisLock.RedisLockService.Acquire | apps/auction-service/src/modules/auctions/services/redis-lock.service.ts:64-71 | SET NX PX: a lease iff the key is free or expired |
| RedisLock.RedisLockService.Release | apps/auction-service/src/modules/auctions/services/redis-lock.service.ts:78-88 | compare and delete: true iff the token still holds the key |
| RedisLock.RedisLockService.CheckRateLimit | apps/auction-service/src/modules/auctions/services/redis-lock.service.ts:94-113 | INCR, with EXPIRE set by the first request of a window only; other keys keep their counters |
| CircuitBreaker.ClosedMeansFewFailures | apps/auction-service/src/modules/auctions/services/payment.service.ts:141-154 | in every interleaving a closed breaker has counted fewer than five failures |
| CircuitBreaker.DeclinesNeverOpen | apps/auction-service/src/modules/auctions/services/payment.service.ts:112-119 | however many calls the POS declines, without a thrown error the breaker stays closed |
| CircuitBreaker.RecoveryDecides | apps/auction-service/src/modules/auctions/services/payment.service.ts:122-154 | from any open breaker: a call before 60000 ms is refused; a later one decides, any reply closing the breaker, which then takes five failures in a row to open, and an error opening it for another 60000 ms |
| CircuitBreaker.OutageBound | apps/auction-service/src/modules/auctions/services/payment.service.ts:105-159 | from a fresh breaker, if every call made within T milliseconds throws, at most 5 + floor(T / 60000) reach the POS |
| CircuitBreaker.BoundIsMet | apps/auction-service/src/modules/auctions/services/payment.service.ts:122-129 | a caller that retries as soon as it may has every call reach the POS |
| CircuitBreaker.OutageBoundIsExact | apps/auction-service/src/modules/auctions/services/payment.service.ts:105-159 | for every T some calls made within T milliseconds, all of which throw, reach the POS exactly 5 + floor(T / 60000) times |
| CircuitBreaker.CircuitBreaker.Enter | apps/auction-service/src/modules/auctions/services/payment.service.ts:105-110 | a call goes out unless the breaker is open and has not recovered |
| CircuitBreaker.CircuitBreaker.GetState | apps/auction-service/src/modules/auctions/services/payment.service.ts:96-99 | reading the state applies the recovery first |
| CircuitBreaker.CircuitBreaker.OnSuccess | apps/auction-service/src/modules/auctions/services/payment.service.ts:131-139 | any reply resets the failures, and closes a half-open breaker |
| CircuitBreaker.CircuitBreaker.OnFailure | apps/auction-service/src/modules/auctions/services/payment.service.ts:141-154 | one failure reopens a half-open breaker, the fifth opens a closed one |

## Left out

- The monolith, CRM, listings, campaigns, administration and authentication: no logic of this kind.
- WebSocket gateway, HTTP mapping, DTO validation, guards, logging, metrics, health: plumbing.
- The mock POS's chaos and latency: the gateway is nondeterministic instead.
- Redis, PostgreSQL and TypeORM internals: atomic commits, row locks, unique constraints, triggers and compare-and-set stand for them.
- UUIDs, JSON, currencies, POS references, failure reasons, settlement metadata and timestamps other than those that decide something.
- Floating point in the reconciliation: amounts are exact cents, so the tolerance of 0.01 is equality.
- Rejected bids' rows: a rejection is a reply with its reason. Participants and consents are read as nondeterministic answers.
- An amount that is not a decimal number, for which the request fails before any write.
- Items mutated in place: an item is a value put back into the list at its index; no other alias to it exists in the source.
- Changes of participants during a run: eligibility is what it was at the start.
- In the bidding machine the settlement's moves are bare changes of the auction's status; their conditions are in the settlement machine.
- The worker's `processing` flag: a worker starts a tick only when it is idle.
- Which auctions the worker's queries return, and in which order: any list is allowed, and the code re-checks under its lock.
- Creation of auctions during a run: all auctions exist from the start, not yet past LIVE and without bids.
- A POS request carries the item's amount; the source sends the deposit's, read just before, and the plan keeps the two equal.
- The expiry of 48 hours is a duration; the source adds 48 to the local hour, which differs by an hour across a daylight-saving change.
- Liveness under arbitrary faults: the code promises none.
- SettlementWorker.SettlementWorker.RunTicks: assumes one live instance, no infrastructure exceptions, no expiry and at most 500 items, because the code promises nothing without them; whether the schedule gives a manifest its chances is up to the order of the database's answers.
- SettlementLockstep.LockstepForOneInstance: is false for several instances and with manual moves within settlement; SettlementLockstep.LockstepIffInStep says exactly when.
- SettlementOutcome.Conservation: is over the manifest's deposits, because a manifest skips ineligible participants and deposits not held; SettledTables.FullBalance says exactly what is missing over all of them.
- AuctionHouse.AuctionHouse.EndingTick: promises only that the machine's history explains it, because ProcessAuction carries the result for each auction.
