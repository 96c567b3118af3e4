# Verified model of the PnLX money paths

A Dafny 4.11 model of the parts of PnLX in which money moves or is accounted for, and
proofs about them.  `dafny verify dfyconfig.toml` checks everything.

| part | files |
|---|---|
| Settlement of vault-maker principal per position: any number of processes, a crash between any two steps | `PositionReceipts`, `PositionReceiptsProof`, `PositionReceiptsSteps`, `PositionReceiptsRuns`, `PositionReceiptsTheorems`, `PositionReceiptsWitness` |
| The maker manager under its lease: allocation, deposit, registration, settlement | `VaultBacking`, `MakerFunding`, `MakerChain`, `MakerFutures`, `MakerLedger`, `MakerReceipts`, `MakerManager`, `MakerDoubled` |
| Recovery of the output notes of closed maker positions | `CloseOutputs` |
| The liquidity vault: shares, series, caps, and the client's quotes | `ShareMath`, `LiquidityVault`, `LiquidityVaultContract` |
| Private margin notes: planning, reconciliation, repair, balances, submission in fragments | `NotePlanner`, `MarginNotes`, `MarginSafety`, `MarginBalances`, `MarginNoteStore`, `MarginRuns`, `MarginClaims`, `ConditionalStrategies`, `FragmentSaga` |
| The candle store | `Candles`, `CandleReplay`, `TickHistory`, `CandleStore` |
| Perpetuals arithmetic: order size, fill margin, close settlement | `OrderSizing`, `SettlementOpenings`, `CloseSettlement` |
| Codecs, amounts as text, and the conditional-order contract | `Digits`, `VaultUnits`, `CustodyNotes`, `Base32`, `Crc16`, `ConditionalOrders` |

`Common` holds options, results and the division lemmas the rest uses.

## How the parts are modelled

**Position receipts.** Concurrent processes over shared storage are a state machine, not a
class: every `await` of `settle-vault-maker-position.ts` is one step, a scheduler interleaves the
steps of any number of processes, a process may disappear between any two of them.  One relay may
submit any number of transactions, because the relayer runs its command again after a timeout; each
waits in the network until it executes, is rejected, or neither.  The maker's balance, the liquid balances and the notes may change at any moment; allocations may start draining.  The
principal of a series moves only by the `settle` calls of these processes.  The fields `relayed`,
`executed`, `repeated`, `applied`, `verified` and `origin` are history: nothing reads them to decide a step.
`applied` is the set of decrements written to allocations, one entry for each position.

The core of the safety argument is in `PositionReceiptsProof`: the decrements a creator saw are
among those that executed; a balance check that passes pins the executed movements of the series
to what the creator saw plus its own; and two such pinned sets are states of one growing set, so
one contains the other.  Hence the comparison of remaining principal in `applyPrincipalReceipt`
tells exactly whether this receipt was applied.

**Maker manager.** `MakerManager.Manager` is a class whose fields are the network and the stored
documents.  At a call of `Await` other actors move the maker notes, transactions in flight execute
or die, and the process lives on or not.  There is one between the read of a principal and the
relay it guards, between the relay and each read that checks it, and between two writes.  Where
several reads only decide whether a pass goes on (`SeriesAgree`, `ChooseAmount`, the reads of
`Register` and of the recovery loop) they are one snapshot; everything they find is read again
before a relay.  A method that throws and a method whose process dies both return without success
and with what was done so far in place.  Reads that only guard a step (liquid balances, RPC
answers, open positions, the shielded pool) are arbitrary values, and so is what the contract's
guards read beside the principal when a transaction executes.

Ghost fields record the transactions written down, the *doubled* series, every relay with what its
guard read and what the record and the chain said when it was submitted, the deposit relays, and
the funding epochs of the allocation relays.  A relay doubles its series if it submits more than
once, or if a transfer of the series was in flight when its guard read the principal and did not
die before the submission.  What holds in every series is kept apart from what holds only in
series that are not doubled.  `MakerFutures` looks ahead: which transfers can still execute, in
any order, while liquid assets, shares and balances change at will.

**Close outputs.** `CloseOutputs.Recovery` holds the output notes and the spent notes of the
shielded pool; withdrawals may execute at once, late or never.  A *prompt* pass is one in which
every service answers in time and the settlement goes through.

**Other parts.** A ledger or a contract that is rewritten in place is a class (`Store`, `Vault`,
`Contract`, `BookState`); loops are methods proved against functions; expression code is
functions.  JavaScript's and Rust's division is `TruncDiv`.  Prices of candles are reals, which
are only compared and copied.

## Where the code and what is said about it differ

- The manager takes agreement of record and chain for the absence of unfinished transfers.  That
  is right while at most one transfer of a series is unfinished or in flight, and a relay keeps
  this so exactly if it submits once at most and nothing that was in flight when its guard read the
  principal is left (`MakerChain.BoundKeptExactly`).  The recovery loop goes on after a timed-out
  settlement, the relayer runs its command again after a timeout, and a transfer may land between
  the guard's read and the submission; each breaks it (`MakerChain.TwoDrainsUnfinished`,
  `MakerChain.RetriedRelayUnfinished`, `MakerChain.LandsBeforeRelay`).  When two transfers really
  come to be unfinished is `MakerFutures.RelayReachesTwoExactly`.
- In a series where that happened, `applyPrincipalReceipt` may take another receipt's decrement for
  its own and confirm a receipt that was never applied (`MakerDoubled.ConfirmedNotApplied`); it
  does exactly if the allocation already reads as decremented (`MakerManager.Manager.ApplyReceipt`).
  If the first position returns as much as its principal, the other balances it checks read as
  expected, too (`MakerDoubled.BalancesAsExpected`).
- `submitCustodySharedTradeIntent`: storing the conditional strategy comes after the lock of the
  source and throws if the stored list is unreadable or full.  Then that source stays locked though
  every cancellation succeeds; without that, the spendable notes are back
  (`FragmentSaga.SubmitOrder`, `ConditionalStrategies.NeverLockedExactly`).
- A browser storage that takes the tied change note and then refuses the write that locks the source
  leaves both spendable once the order is filled (`MarginRuns.TieWithoutLock`).
- A withdrawal of a close output that executed but was not recorded before the process stopped
  stops every later pass, and with it everything behind that output
  (`CloseOutputs.Recovery.Retry`).
- `finalizePrivateMarginClaim` revives its target whatever its status.  It keeps source and change
  of every intent apart exactly if the counterpart of the target is spent
  (`MarginClaims.ClaimKeepsSafe`); claiming the same residual again after its note was spent is a
  run in which it does not (`MarginRuns.ClaimAgainRevives`).
- What `formatVaultUnits` writes is read by `parseVaultUnits` exactly below a thousand: the commas
  of larger amounts are refused (`VaultUnits.ParseFormatted`).
- A claim quoted by the client is executed by the vault exactly if it is not a payment of nothing
  out of something (`ShareMath.QuotedClaimPays`).
- `allocate` of the vault checks a vault-wide cap that its cap on the series already implies
  (`LiquidityVault.SeriesGuardSuffices`).

## Model

| member | source | states |
|---|---|---|
| PositionReceiptsTheorems.RelayedAtMostOnce | scripts/operations/settle-vault-maker-position.ts:118-158 | in every interleaving and with crashes anywhere, `settle` is relayed at most once for a position |
| PositionReceiptsTheorems.DecrementedOncePerReceipt | scripts/operations/settle-vault-maker-position.ts:185-209 | each allocation lost exactly the sum of the decrements written to it, each of them is a stored receipt's own amount, and no receipt has two |
| PositionReceiptsTheorems.ConfirmedMeansApplied | scripts/operations/settle-vault-maker-position.ts:159-177 | a confirmed receipt executed on the chain and was written to its allocation with its own amount; with the row above, exactly once |
| PositionReceiptsTheorems.RecordLagsChain | scripts/operations/settle-vault-maker-position.ts:99-105 | record minus chain of a series is exactly the executed movements not written yet plus every repeated execution, never negative |
| PositionReceiptsTheorems.SubmittedOnceNeverRepeats | server/src/workers/relayer/relayer.service.ts:400-410 | if every relay submitted at most one transaction, no movement is repeated and each has one transaction |
| PositionReceiptsWitness.TwoSubmissionsRepeat | server/src/workers/relayer/relayer.service.ts:400-410 | from any reachable state with a process about to relay, and a vault and maker that can pay twice, a run submits the relay twice, the contract accepts both, and the amount is off the series twice |
| PositionReceiptsWitness.ReachesRelay | scripts/operations/settle-vault-maker-position.ts:51-148 | from every start state with a recovered close output that the vault can settle, a run reaches the relay of exactly that settlement |
| PositionReceiptsWitness.RetriedSettlementRepeats | server/src/workers/relayer/relayer.service.ts:511-520 | so every start state that can pay a settlement twice has a run that does, and records it as a repetition |
| PositionReceiptsTheorems.ReceiptsAdvance | scripts/operations/settle-vault-maker-position.ts:155-177 | any step from any state: receipts are not removed, keep their terms, and move by at most one status |
| PositionReceiptsTheorems.ReceiptsOnlyMoveForward | scripts/operations/settle-vault-maker-position.ts:132-177 | over any continuation the status never moves back and a stored hash never changes |
| PositionReceiptsTheorems.RunKeeps | scripts/operations/settle-vault-maker-position.ts:48-183 | the invariant behind these results holds in every reachable state |
| PositionReceiptsTheorems.StepOwnership | scripts/operations/settle-vault-maker-position.ts:136-148 | the right to relay arises only by inserting the receipt and is given up by relaying |
| PositionReceiptsProof.PinnedAtCheck | scripts/operations/settle-vault-maker-position.ts:161-166 | a series principal that reads as the receipt expects means nothing else of the series executed beyond what its creator saw, not even a repetition |
| PositionReceiptsProof.SkipMeansApplied | scripts/operations/settle-vault-maker-position.ts:196-197 | reading the decremented amount means this very receipt was applied |
| PositionReceiptsProof.DecrementIsFresh | scripts/operations/settle-vault-maker-position.ts:198-207 | reading the recorded amount means it was not applied yet |
| PositionReceiptsSteps.DecrementKeeps | scripts/operations/settle-vault-maker-position.ts:201-208 | the compare-and-set keeps allocations, record and history in step |
| PositionReceiptsSteps.FinalIsZero | scripts/operations/settle-vault-maker-position.ts:170-175 | an allocation closed after its final receipt has nothing left |
| VaultBacking.RecordedAfterUpdate | server/src/shared/vault-maker-backing.ts:38-45 | rewriting one document changes the recorded principal of a series by that document's own change |
| VaultBacking.RecordedAfterAppend | server/src/shared/vault-maker-backing.ts:38-45 | a new document adds its own contribution |
| MakerManager.Manager.RelayTransfer | server/src/workers/relayer/relayer.service.ts:73-91 | a relay whose guard read, at some earlier moment, that record and chain of the series agree; it may submit any number of transactions, each of which may execute at any later moment, and may lose its hash; the log says what the guard read and what the chain said at the submission |
| MakerManager.Manager.CheckMoved | scripts/operations/settle-vault-maker.ts:116-123 | success means that at one moment after the relay the transaction had executed and the principal read as expected |
| MakerChain.AgreementAtSubmission | scripts/operations/allocate-vault-maker.ts:42-56 | record and chain still agree when the transfer is submitted exactly if what executed since the guard's read sums to nothing, which holds if nothing of the series was in flight then |
| MakerChain.BoundKeptExactly | scripts/operations/settle-vault-maker.ts:95-106 | after a relay whose guard read agreement, at most one transfer of the series is unfinished or in flight exactly if it submitted once at most and nothing that was in flight at that read is left |
| MakerChain.LandsBeforeRelay | scripts/operations/settle-vault-maker.ts:97-106 | an earlier transfer lands between the guard's read and the submission: the guard passed, record and chain differ when it is submitted, nothing is in flight then, it is submitted once, and two transfers end unfinished |
| MakerChain.TwoDrainsUnfinished | scripts/operations/manage-vault-maker-liquidity.ts:114-136 | two draining allocations of a series: the first relay times out, the second still finds record and chain in agreement, and the contract executes both |
| MakerChain.RetriedRelayUnfinished | server/src/workers/relayer/relayer.service.ts:400-410 | one relay run twice lends twice, where the contract has the liquid assets and the cap for twice the amount |
| MakerFutures.TwoUnfinishedExactly | contracts/liquidity-vault/src/lib.rs:310-383 | some continuation leaves two transfers of a series executed and not written down exactly if two pending ones can execute one after the other, whatever executes, dies, is written down or moves the market |
| MakerFutures.RelayReachesTwoExactly | scripts/operations/allocate-vault-maker.ts:43-64 | after a relay whose guard read agreement, exactly if it submitted at least twice what the principal permits twice, or at least once what can execute beside a transfer left over from that read |
| MakerFutures.QuietRelayReachesOne | scripts/operations/allocate-vault-maker.ts:43-64 | so never if nothing of the series was in flight at the read and it submitted once |
| MakerChain.GapIsUnfinished | scripts/operations/manage-vault-maker-liquidity.ts:146-152 | chain less record is the sum of the executed transfers not written down, whatever was in flight or repeated |
| MakerChain.AgreementMeansFinished | scripts/operations/allocate-vault-maker.ts:43-52 | with at most one transfer unfinished, record and chain agree exactly if none is |
| MakerManager.Manager.LendPrincipal | scripts/operations/allocate-vault-maker.ts:43-79 | the guarded transfer of an allocation: a hash comes back only for a transaction of its own that had executed when the principal was read again, and then that read exactly the amount more |
| MakerManager.Manager.Allocate | scripts/operations/allocate-vault-maker.ts:12-92 | at most one allocation is added, open and unregistered, for a transaction of its own that lent exactly its amount |
| MakerManager.Manager.RecordAllocation | server/src/shared/vault-maker-backing.ts:67-104 | recording the executed allocation closes the gap between record and chain |
| MakerManager.Manager.RepayAllocation | scripts/operations/settle-vault-maker.ts:81-124 | whole-allocation settlement or loss succeeds only for a transaction of its own that had executed when the principal was read again, and then that read exactly the remaining principal less |
| MakerManager.Manager.SettleVaultMaker | scripts/operations/settle-vault-maker.ts:33-125 | success closes the draining allocation, writes down its own transaction, and its last read found the remaining principal gone from the series since the guard's read; otherwise the records are untouched |
| MakerManager.Manager.FinishRepaid | server/src/shared/vault-maker-backing.ts:110-128 | closing the settled allocation closes the gap |
| MakerManager.Manager.BeginDrain | server/src/shared/vault-maker-backing.ts:130-149 | only the status of the one open document changes |
| MakerManager.Manager.AddRegistration | server/src/shared/vault-maker-backing.ts:187-206 | registration adds the note once and never exceeds the allocation |
| MakerManager.Manager.Register | scripts/operations/register-vault-maker-note.ts:34-94 | registering the whole note completes the allocation; a stop anywhere leaves it registered in full or not at all |
| MakerManager.Manager.Tag | server/src/shared/vault-maker-backing.ts:208-218 | tagging changes the note's allocation only |
| MakerManager.Manager.InsertPending | server/src/shared/maker-note-store.ts:70-96 | the pending note is on record, linked to its allocation |
| MakerManager.Manager.Finalize | server/src/shared/maker-note-store.ts:118-131 | only a pending note becomes available, with its deposit transaction |
| MakerManager.Manager.DepositNote | scripts/smoke/custody.ts:338-401 | at most one deposit relay, only after the pending note is stored; what comes back is a note of exactly the allocation's amount with its deposit transaction |
| MakerManager.Manager.DepositAllocation | scripts/operations/manage-vault-maker-liquidity.ts:221-244 | deposit and registration of an open allocation complete it and keep one deposit for each allocation |
| MakerManager.Manager.PlanIncomplete | scripts/operations/manage-vault-maker-liquidity.ts:261-279 | a deposit is planned exactly for an open allocation without any note, a registration only for its one finalized note of exactly its amount |
| MakerManager.Manager.ResumeAllocation | scripts/operations/manage-vault-maker-liquidity.ts:155-165 | taking up an unfinished allocation keeps one deposit and one note for each allocation |
| MakerManager.Manager.Recover | scripts/operations/manage-vault-maker-liquidity.ts:112-137 | the recovery loops, errors and crashes included, keep both invariants |
| MakerManager.Manager.SeriesAgree | scripts/operations/manage-vault-maker-liquidity.ts:139-152 | the comparison succeeds exactly if the unfinished transfers of the current series and of the series of every open allocation cancel out, which outside doubled series means there are none |
| MakerManager.Manager.FindIncomplete | scripts/operations/manage-vault-maker-liquidity.ts:153-155 | counts no unregistered allocation exactly if there is none, and finds it if it is the only one |
| MakerManager.ClaimPaces | server/src/shared/vault-maker-lease.ts:44-67 | funding in an epoch claimed just now keeps the funded epochs strictly growing |
| MakerManager.Manager.FundNext | scripts/operations/manage-vault-maker-liquidity.ts:202-206 | at most one allocation relay for a funding epoch |
| MakerManager.Manager.ChooseAmount | scripts/operations/manage-vault-maker-liquidity.ts:167-200 | the amount is the largest that is needed for the target and passes the amount guards of `allocate` |
| MakerManager.Manager.Provision | scripts/operations/manage-vault-maker-liquidity.ts:108-207 | one pass, stopped anywhere, keeps all three invariants |
| MakerManager.Manager.Serve | scripts/operations/manage-vault-maker-liquidity.ts:30-39 | any number of passes: chain less record is what executed and was not written down, the guard of every relay had read that they agree and they still agreed at the submission exactly if what executed in between sums to nothing, outside series with a doubled relay at most one transfer is unfinished or in flight, at most one allocation is unregistered, each has at most one deposit relay, and a registered one is backed by one deposited note of exactly its amount |
| MakerManager.Manager.RecordFollowsChain | scripts/operations/manage-vault-maker-liquidity.ts:139-152 | in every series the record lags the chain by what executed and was not written down; outside doubled series that is one transfer at most, and record and chain agree exactly if it is none |
| MakerManager.Manager.OneTransferForever | scripts/operations/manage-vault-maker-liquidity.ts:139-152 | outside doubled series no continuation leaves two transfers unfinished |
| MakerManager.Manager.CreateReceipt | scripts/operations/settle-vault-maker-position.ts:95-121 | a receipt is created only if the principal it read is what the record says, with what the document still owes |
| MakerManager.Manager.RelayReceipt | scripts/operations/settle-vault-maker-position.ts:136-158 | only the creating call relays, and a stop before the hash is saved leaves the receipt pending |
| MakerManager.Manager.ApplyReceipt | scripts/operations/settle-vault-maker-position.ts:159-168 | success means the allocation owes at most what the receipt left, and outside doubled series that this receipt's decrement is written; in any series it passes without being applied exactly if its allocation already reads as decremented; one that was written before is not written again |
| MakerManager.Manager.FinishSettled | scripts/operations/settle-vault-maker-position.ts:201-208 | the decrement is the receipt's own and closes the gap it opened |
| MakerManager.Manager.CloseFinal | scripts/operations/settle-vault-maker-position.ts:170-175 | an allocation with nothing left is closed, or the call fails and leaves it |
| MakerManager.Manager.SettlePosition | scripts/operations/settle-vault-maker-position.ts:32-183 | success leaves the receipt confirmed and, outside doubled series, applied; a stop anywhere keeps both invariants |
| MakerDoubled.ConfirmedNotApplied | scripts/operations/settle-vault-maker-position.ts:161-197 | in a doubled series not: a slow settlement, a second one of the same amount that is applied, the amount lent again, and the first executes; its check and its comparison pass, and the record exceeds the chain by its amount |
| CloseOutputs.Recovery.ReconcileOne | scripts/operations/reconcile-maker-position.ts:171-213 | a pass acts on the first candidate it does not skip and moves at most its one output, never back; without errors it succeeds exactly if that output is not stuck |
| CloseOutputs.Recovery.Work | scripts/operations/reconcile-maker-position.ts:185-211 | which action comes next, and that the checks of the settlement on the note hold whenever it is called |
| CloseOutputs.Recovery.Withdraw | scripts/operations/withdraw-maker-notes.ts:162-232 | a recovery that stops anywhere leaves the pool's record and the note consistent, and one that was paid but not recorded cannot be taken up again |
| CloseOutputs.Recovery.Serve | scripts/operations/reconcile-maker-position.ts:135-213 | at most three passes for each output end with every closed position settled or skipped, or at a stuck output |
| CloseOutputs.Recovery.Retry | scripts/operations/withdraw-maker-notes.ts:174-186 | a stuck output at the head stops every later pass: no other output moves |
| CloseOutputs.RecoveredWasPaidOnce | scripts/operations/withdraw-maker-notes.ts:214-232 | a recorded recovery is the whole note, and the pool paid it exactly once |
| MakerChain.WriteBalanced | scripts/operations/settle-vault-maker.ts:119-125 | writing down an executed transfer closes the gap it opened, in every series |
| MakerReceipts.NotAppliedOwesAll | scripts/operations/settle-vault-maker-position.ts:194-199 | outside doubled series, while an executed settlement was not applied its allocation still owes the recorded amount |
| MakerReceipts.AppliedOwesLess | scripts/operations/settle-vault-maker-position.ts:196-199 | after its receipt was applied an allocation owes at most what the receipt left, in every series |
| MakerFunding.TopUpIsLargestAccepted | scripts/operations/manage-vault-maker-liquidity.ts:42-57 | a positive amount is at most the top-up exactly if it is needed and passes the amount guards of `allocate` |
| MakerFunding.ReserveTargetWithinCap | scripts/operations/manage-vault-maker-liquidity.ts:59-65 | the target is the larger of the minimum and the pool's cap |
| MakerFunding.EpochsSplitAtBoundaries | scripts/operations/manage-vault-maker-liquidity.ts:67-73 | epochs never run backwards and change exactly at multiples of the interval |
| ShareMath.QuotedDepositMints | client/src/lib/liquidity-vault.ts:150-161 | a quoted deposit mints exactly the estimate, and the minimum is positive and at most the estimate |
| ShareMath.QuotedWithdrawalPays | client/src/lib/liquidity-vault.ts:164-173 | the same for a quoted withdrawal |
| ShareMath.QuotedClaimPays | client/src/lib/liquidity-vault.ts:189-201 | a quoted claim pays the estimate, exactly if that is not nothing out of something |
| ShareMath.RunFunded | contracts/liquidity-vault/src/lib.rs:476-666 | over any run of deposits and redemptions shares are zero exactly when assets are |
| ShareMath.RunKeepsPrice | contracts/liquidity-vault/src/lib.rs:476-666 | over any such run assets per share never fall while shares are outstanding |
| ShareMath.ActingAloneGainsNothing | contracts/liquidity-vault/src/lib.rs:476-666 | an owner who starts with nothing and acts alone gains nothing over any run |
| ShareMath.RoundTripNeverGains | contracts/liquidity-vault/src/lib.rs:496-506 | a deposit redeemed at once returns at most what was put in |
| LiquidityVault.VaultWithinCap | contracts/liquidity-vault/src/lib.rs:310-336 | series within their caps keep the whole vault within its cap |
| LiquidityVault.SeriesGuardSuffices | contracts/liquidity-vault/src/lib.rs:319-336 | the vault-wide guard never rejects what the guard of the series accepts |
| LiquidityVault.SettleKeeps | contracts/liquidity-vault/src/lib.rs:353-383 | whatever comes back, nothing included, the series stays within its cap |
| LiquidityVault.LendingAndPrice | contracts/liquidity-vault/src/lib.rs:310-373 | lending leaves the share price, a settlement lowers it exactly if less comes back than was lent |
| LiquidityVault.SharesKeepPrice | contracts/liquidity-vault/src/lib.rs:496-506 | deposits and payouts of the contract never lower the share price |
| LiquidityVault.BurnKeeps | contracts/liquidity-vault/src/lib.rs:634-651 | a payout is covered by the series, takes all of it with the last share, and leaves the accounts exact |
| LiquidityVaultContract.Vault.TotalsAreSums | contracts/liquidity-vault/src/lib.rs:757-765 | the incrementally kept totals are the sums over all series |
| LiquidityVaultContract.Vault.DeployedWithinCap | contracts/liquidity-vault/src/lib.rs:160-166 | in every reachable state the principal out is at most the cap on total assets |
| LiquidityVaultContract.Vault.Run | contracts/liquidity-vault/src/lib.rs:96-620 | over any sequence of calls the totals stay sums over all series, no series disappears, and the principal out stays within the cap |
| LiquidityVaultContract.FirstDeposit | contracts/liquidity-vault/src/lib.rs:96-154 | a new vault refuses deposits until it is unpaused, and then takes every mintable one that the depositor can pay |
| LiquidityVaultContract.Vault.Deposit | contracts/liquidity-vault/src/lib.rs:476-552 | exactly when a deposit succeeds, the depositor's tokens included, what it mints, and that no other series changes |
| LiquidityVaultContract.Vault.Withdraw | contracts/liquidity-vault/src/lib.rs:554-565 | exactly when a withdrawal succeeds and what it pays |
| LiquidityVaultContract.Vault.RequestWithdraw | contracts/liquidity-vault/src/lib.rs:567-585 | requests never exceed the free shares |
| LiquidityVaultContract.Vault.CancelWithdrawRequest | contracts/liquidity-vault/src/lib.rs:587-603 | cancellations never exceed the request |
| LiquidityVaultContract.Vault.ClaimWithdrawal | contracts/liquidity-vault/src/lib.rs:605-620 | exactly when a claim succeeds, what it pays, and that the request is gone |
| LiquidityVaultContract.Vault.Allocate | contracts/liquidity-vault/src/lib.rs:310-351 | exactly when lending succeeds, in terms of the series alone |
| LiquidityVaultContract.Vault.Settle | contracts/liquidity-vault/src/lib.rs:353-373 | exactly when a settlement succeeds, the maker's tokens included, and its effect on the one series |
| LiquidityVaultContract.Vault.RecordLoss | contracts/liquidity-vault/src/lib.rs:375-383 | exactly when a loss is recorded; the token balance does not change |
| LiquidityVaultContract.Vault.SetAllocationLimit | contracts/liquidity-vault/src/lib.rs:296-308 | a new limit finds nothing deployed |
| LiquidityVaultContract.Vault.RecoverUnowned | contracts/liquidity-vault/src/lib.rs:459-474 | unowned tokens are those of series 0: no other series holds any then |
| NotePlanner.Plan | client/src/lib/private-margin-notes.ts:310-343 | succeeds exactly if one candidate or all together cover a positive amount; parts are positive, of distinct candidates, add up to the amount, only the last leaves change, and no choice of fewer notes would do |
| NotePlanner.TakeLargest | client/src/lib/private-margin-notes.ts:331-342 | the loop ends with nothing remaining, so the throw after it is unreachable |
| NotePlanner.SortPermutes | client/src/lib/private-margin-notes.ts:324 | the candidates are the eligible notes, each as often as it occurs |
| NotePlanner.GreedyIsFewest | client/src/lib/private-margin-notes.ts:331-340 | taking the largest notes first uses as few as possible |
| MarginNotes.ReconcileIdempotent | client/src/lib/private-margin-notes.ts:399-453 | reconciling again with the same orders moves no note |
| MarginNotes.StableVerdict | client/src/lib/private-margin-notes.ts:481-489 | a note that was left locked or pending keeps its verdict, the nullifier fallback included |
| MarginSafety.NeverBothSpendable | client/src/lib/private-margin-notes.ts:405-451 | the source and the change of one intent are never both available |
| MarginSafety.LiveChangeMeansSpentSource | client/src/lib/private-margin-notes.ts:410-428 | a live change implies a spent source |
| MarginSafety.ReleasedSourceMeansSpentChange | client/src/lib/private-margin-notes.ts:430-448 | a released source implies a spent change |
| MarginSafety.ReconcileKeepsSafe | client/src/lib/private-margin-notes.ts:399-490 | any list of orders, by name or by nullifier, keeps this |
| MarginSafety.AcceptKeepsSafe | client/src/lib/trade-submit.ts:443-458 | so does an accepted submission |
| MarginSafety.RepairKeepsSafe | client/src/lib/private-margin-notes.ts:145-182 | so does a repair, which spends the change it found |
| MarginRuns.ExclusiveInEveryRun | client/src/lib/private-margin-notes.ts:399-503 | over every run of first and repeated saves, submissions, reconciliations, repairs, spent marks and claims whose target has no live counterpart: a live change means a spent source, a released source a spent change, and the two are never spendable at once |
| MarginRuns.RunIsSafe | client/src/lib/private-margin-notes.ts:145-182 | the invariant behind this holds after every run |
| MarginClaims.ClaimKeepsSafe | client/src/lib/private-margin-notes.ts:268-296 | finishing a claim keeps this exactly if the counterpart of its target is spent, or ends spent by this claim |
| MarginClaims.WaitingTargetIsSafe | client/src/lib/residual-claim.ts:63-71 | the first claim of a residual, whose target still waits for it, is always safe |
| MarginRuns.ClaimAgainRevives | client/src/lib/residual-claim.ts:66-103 | a run for which it is not: a recovery note is claimed, spent on an order that is filled, and claimed again; then source and change are spendable at once |
| MarginRuns.TieWithoutLock | client/src/lib/trade-submit.ts:443-458 | a tied change whose source was not locked: after the fill both are spendable |
| MarginNoteStore.Store.FinalizeClaim | client/src/lib/private-margin-notes.ts:268-296 | throws exactly if no note carries the claim; the ledger stays safe exactly under the condition above |
| MarginBalances.VerdictsConserve | client/src/lib/private-margin-notes.ts:405-451 | spendable, reserved and pending together fall by exactly source less change for every filled or partially filled intent |
| MarginBalances.CancellationsConserve | client/src/lib/private-margin-notes.ts:430-448 | cancelled verdicts leave the sum as it was |
| MarginBalances.BalanceIsGross | client/src/lib/private-margin-notes.ts:78-111 | with one source for each intent the three balances count every locked note once and its change not at all |
| MarginNoteStore.Store.OrderStatuses | client/src/lib/private-margin-notes.ts:455-490 | the loops compute for every intent the verdict by name, or else by nullifier |
| MarginNoteStore.Store.Reconcile | client/src/lib/private-margin-notes.ts:399-453 | every note follows its verdict, and the ledger is written exactly if some note moves |
| MarginNoteStore.Store.FindRepairCandidate | client/src/lib/private-margin-notes.ts:113-143 | a candidate names the only tied source and the only tied change of the owner, of one intent, with change at most source |
| MarginNoteStore.Store.Repair | client/src/lib/private-margin-notes.ts:145-182 | repairs exactly a locked source and a pending change of the candidate's intent |
| MarginNoteStore.Store.Accept | client/src/lib/trade-submit.ts:443-458 | ties the change to the intent and locks the source |
| MarginNoteStore.Store.Save | client/src/lib/private-margin-notes.ts:249-266 | the saved note replaces any of its commitment |
| MarginNoteStore.Store.MarkSpent | client/src/lib/private-margin-notes.ts:376-388 | marking a stale note spent keeps the ledger safe |
| MarginNoteStore.Store.ReservedBalance | client/src/lib/private-margin-notes.ts:84-105 | the two loops compute locked amounts less the change waiting for each intent |
| MarginNoteStore.ViewFollows | client/src/lib/private-margin-notes.ts:184-190 | following verdicts and selecting one owner's notes commute |
| FragmentSaga.SubmitOrder | client/src/lib/trade-submit.ts:304-327 | when every cancellation succeeds after an error that is not about a stale note, the available notes and the balance are back exactly if no fragment stopped at its strategy; so always if there is no strategy, or the stored list is readable and takes one for every fragment |
| ConditionalStrategies.NeverLockedExactly | client/src/lib/trade-submit.ts:724-756 | no answers of the server can stop an order after a lock exactly if it has no strategy, or the stored list is readable and takes one for every fragment |
| FragmentSaga.GarbledListLocks | client/src/lib/trade-submit.ts:736-738 | a ledger and a stored list for which the source stays locked |
| ConditionalStrategies.StrategyStore.Append | client/src/lib/trade-submit.ts:724-756 | exactly when storing a strategy throws, and what it appends |
| FragmentSaga.SubmitFragment | client/src/lib/trade-submit.ts:339-465 | the outcome and the ledger for each answer: an accepted fragment fails exactly if its strategy cannot be stored |
| FragmentSaga.CancelFragments | client/src/lib/trade-submit.ts:570-590 | each successful cancellation releases its own source and touches no other fragment |
| FragmentSaga.CancelVerdict | client/src/lib/trade-submit.ts:582-584 | a cancellation decides its own intent only, not even another one by nullifier |
| FragmentSaga.ListedCancelled | client/src/lib/trade-submit.ts:576-584 | after it exactly the one source is available again |
| FragmentSaga.SpendableIsWorth | client/src/lib/private-margin-notes.ts:78-82 | the spendable balance is the worth of the available notes |
| Candles.MergeOrdered | client/src/lib/use-market-candles.ts:452-469 | a merge is strictly increasing in time, valid, and no longer than its limit |
| Candles.MergeAssociative | client/src/lib/use-market-candles.ts:452-469 | merging is associative although every step keeps only the newest candles |
| Candles.MergeIsUnion | client/src/lib/use-market-candles.ts:457-468 | a merge is the newest part of the right-biased union |
| CandleReplay.UpsertIdempotent | client/src/lib/use-market-candles.ts:400-440 | the same tick a second time changes nothing, even if its candle was dropped as too old |
| CandleReplay.NextIsValid | client/src/lib/use-market-candles.ts:423-438 | the candle of a tick is never rejected by the normalization |
| TickHistory.ReplayIsHistory | client/src/lib/use-market-candles.ts:388-440 | a time-ordered replay is the newest part of one candle for every bucket, with last close, extreme high and low, and the close before as open where buckets are adjacent |
| TickHistory.ReplayIsNewest | client/src/lib/use-market-candles.ts:388-398 | the bounded replay keeps exactly the newest candles of the unbounded one |
| TickHistory.FullReplayIsHistory | client/src/lib/use-market-candles.ts:410-438 | every candle says what its bucket's ticks say |
| TickHistory.BufferOrdered | client/src/lib/use-market-candles.ts:375-386 | buffers are time-ordered and respect the floor whatever arrives |
| TickHistory.BufferReplays | client/src/lib/use-market-candles.ts:375-398 | so a flushed buffer replays to the history of what it holds |
| CandleStore.MergeCandles | client/src/lib/use-market-candles.ts:452-469 | the loops compute the merge |
| CandleStore.UpsertPrice | client/src/lib/use-market-candles.ts:400-440 | the backward search finds the candle before |
| CandleStore.ReplayPriceUpdates | client/src/lib/use-market-candles.ts:388-398 | the fold of the updates |
| CandleStore.MergeSnapshotCandles | client/src/lib/use-market-candles.ts:471-513 | a fresh snapshot keeps its own candles and the current ones it does not speak for, those before it and the live bucket after it; a stale one gives way to the live candles |
| CandleStore.StaleFillsIn | client/src/lib/use-market-candles.ts:482-488 | with a stale snapshot the result is the newest part of the live candles, with the snapshot's volumes, over the snapshot |
| CandleStore.SnapshotIdempotent | client/src/lib/use-market-candles.ts:471-513 | merging the same snapshot again, fresh or stale, changes nothing |
| OrderSizing.NotionalFits | client/src/lib/trade-submit.ts:706-713 | notional by leverage plus the fee is at most the margin less 32, and one unit more is not, as exact integer inequalities |
| OrderSizing.SizeIsLargest | client/src/lib/trade-submit.ts:714-715 | the size is the largest the notional pays for |
| OrderSizing.OrderFits | client/src/lib/trade-submit.ts:704-716 | the value of the order and its fee stay within the margin less 32 |
| OrderSizing.FragmentsNeverExceed | client/src/lib/trade-submit.ts:297-303 | a margin split in any way never carries more than the unsplit order |
| SettlementOpenings.Reconstruct | scripts/smoke/repair-account-events.ts:90-141 | both legs of a pair have one size and one price; every intent opens at most its size for exactly the rounded-up share of its margin, and every fill lies between floor and ceiling of its own share |
| SettlementOpenings.BookState.AllocateMargin | scripts/smoke/repair-account-events.ts:176-184 | filled and remaining add up to the size, and the allocated margin is the rounded-up cumulative share |
| SettlementOpenings.FillShare | scripts/smoke/repair-account-events.ts:177-179 | a fill's margin lies between floor and ceiling of its share |
| SettlementOpenings.FullyFilledPaysMargin | scripts/smoke/repair-account-events.ts:176-184 | a fully filled intent hands out exactly its margin |
| SettlementOpenings.CeilStep | scripts/smoke/repair-account-events.ts:227-229 | a step of a cumulative ceiling lies between floor and ceiling of the step |
| CloseSettlement.PairConserves | client/src/lib/position-close.ts:345-369 | both legs of a pair together are paid exactly their margins less the fees |
| CloseSettlement.PnlCancels | client/src/lib/position-close.ts:364-365 | what one side gains the other loses |
| CloseSettlement.LegsNearWhole | client/src/lib/position-close.ts:364-366 | n legs closed separately never exceed one close in magnitude and fall short of it by at most n - 1 |
| VaultUnits.ParseFormatted | client/src/lib/liquidity-vault.ts:108-130 | a formatted amount is read again exactly if it is positive and shows something below a thousand, and then as the rounded amount |
| VaultUnits.ParseFormattedExactly | client/src/lib/liquidity-vault.ts:108-130 | with seven digits, reading gives back the very amount, exactly below a thousand |
| VaultUnits.FormatParsed | client/src/lib/liquidity-vault.ts:108-130 | below a thousand, formatting what was read completes what the user wrote |
| VaultUnits.ParseInjective | client/src/lib/liquidity-vault.ts:108-118 | two texts are read alike exactly if they differ in surrounding space and final zeros only |
| VaultUnits.RoundedNearest | client/src/lib/liquidity-vault.ts:124-126 | rounding is to the nearest digit shown, a half away from zero |
| CustodyNotes.SplitNoteAmounts | scripts/smoke/custody.ts:413-428 | exactly when a deposit can be split; the notes add up to it, all but the last of the same size and none larger |
| CustodyNotes.SplitCount | scripts/smoke/custody.ts:420-427 | and they are as few as can carry it |
| Base32.Base32Decode | scripts/smoke/custody.ts:917-934 | with its 32-bit accumulator, decodes exactly the inputs whose ASCII letters lie in the alphabet to their leading whole bytes, as in section 6 of RFC 4648, for every length |
| Base32.ByteOfWrapped | scripts/smoke/custody.ts:925-928 | the bits lost to wrap-around are never read |
| Base32.RoundTrip | scripts/smoke/custody.ts:917-934 | decoding the RFC's encoding gives the bytes back |
| Base32.DecodingUnique | scripts/smoke/custody.ts:917-934 | a text has one decoding |
| Crc16.Crc16Xmodem | scripts/smoke/custody.ts:936-945 | the loops compute the register |
| Crc16.DetectsAdjacentBytes | scripts/smoke/custody.ts:936-945 | messages of one length that differ only within two adjacent bytes have different checksums |
| Crc16.BitStepLinear | scripts/smoke/custody.ts:941 | a bit step is linear |
| Crc16.BitStepInjective | scripts/smoke/custody.ts:941 | a bit step is injective |
| ConditionalOrders.PublicInputsInjective | contracts/conditional-order/src/lib.rs:277-304 | the 96 bytes are equal exactly if the prices are and the other fields are modulo the BN254 scalar modulus |
| ConditionalOrders.Contract.RegisterOrder | contracts/conditional-order/src/lib.rs:87-109 | exactly when registration succeeds, and that it never replaces an order |
| ConditionalOrders.Contract.TriggerFor | contracts/conditional-order/src/lib.rs:111-157 | exactly when a trigger succeeds, and that it never replaces one |
| ConditionalOrders.Contract.TriggeredMeansRegistered | contracts/conditional-order/src/lib.rs:171-187 | what `is_triggered_for` confirms was registered with exactly those terms |
| ConditionalOrders.Contract.Run | contracts/conditional-order/src/lib.rs:53-188 | over any sequence of calls both facts are permanent |

## Left out

- MakerManager.Manager.SettleVaultMaker: the sum of recovered note amounts and the positions behind the notes are arbitrary guards, since they decide only whether the step goes on.
- MakerManager.Manager.AddRegistration: the retry loop runs once, because nobody else writes allocations under the lease.
- MakerManager.Manager.ChooseAmount: which notes count as ready (`eligibleVaultMakerNotes`) is an arbitrary amount.
- MakerManager.Manager.Register: partial registrations by several notes, which only the command line can make, keep the money invariant but not the one-note invariant.
- NotePlanner.Plan: the order of equal amounts is the stable order of the sort but is not stated.
- Candles.MergeAssociative: a negative limit, which no caller passes; a limit of 0 keeps everything, as in the source.
- FragmentSaga.SubmitFragment: change commitments and intent commitments are assumed new, as hashes over fresh randomness; the writes of the note ledger go through; `MarginRuns.TieWithoutLock` says what follows if the second of two is refused.
- PositionReceiptsTheorems.ConfirmedMeansApplied: only these settle calls move the principal; with allocations in between it can fail, as `MakerDoubled.ConfirmedNotApplied` shows, and `MakerManager.Manager.SettlePosition` says where it holds under the lease.
- ConditionalStrategies.StrategyStore.Append: the room left in the browser's storage is a number of strategies; in the source it is a number of bytes, shared with the note ledger.
- Base32.Base32Decode: letters beyond ASCII whose upper case lies in the alphabet, such as the long s and the sharp s, which the source accepts and the model refuses.
- ConditionalOrders.Contract.Run: `upgrade`, which replaces the code, and the expiry of stored entries, which makes them unreadable until they are restored.
- SettlementOpenings.Reconstruct: the final comparison of each opening with its position commitment, which only drops openings.
- LiquidityVaultContract.Vault.Deposit: aborts on 128-bit overflow; the running totals of deposits and withdrawals of an owner; upgrade authority and time to live.
- CloseOutputs.Recovery.ReconcileOne: the fields by which `makerPositionsReadyForReconciliation` matches notes, positions and settlements, and closing an open position at an independent mark, which only an operator asks for.  In `MakerManager` any position may be settled next.
- VaultUnits.ParseFormatted: more than seven digits, for which the source divides by zero and throws; callers ask for 2, 4 or 7.
- `vaultSharePrice`, `chooseLatestTick`: expressions over one or two values.
- Conversion of floating-point prices, leverage and amounts to scaled integers; letter case beyond ASCII; formatting; networks, databases and wallets; cryptographic functions, which are parameters.
