/**
 The maker manager: allocation, note deposit, registration and settlement of vault
 principal by the one process that holds the lease
 (scripts/operations/manage-vault-maker-liquidity.ts and the operations it calls).

 At a call of Await other actors change the maker notes, transactions in flight execute or die,
 and the process itself may die.  There is one between the read of a principal and the relay that
 it guards, between the relay and each read that checks it, and between two writes; reads that
 only decide whether a pass goes on are one snapshot.  A method that throws and a method whose
 process dies both return false with everything done so far in place.  Reads that only guard a
 step (liquid balances, RPC answers, positions, notes of the shielded pool) are arbitrary values.
 */
module MakerManager {
  import opened Common
  import opened VaultBacking
  import opened PositionReceipts
  import opened MakerChain
  import opened MakerFunding
  import MakerFutures
  import opened MakerLedger
  import opened MakerReceipts

  class Manager {
    const vault: nat
    const maker: nat
    const asset: nat
    // The network.
    var chain: Chain
    // The database.
    var allocations: seq<Allocation>
    var notes: map<nat, MakerNote>
    var receipts: map<Position, Receipt>
    var claimedEpoch: Option<nat>
    // History: the transactions written down, and the series with a relay that submitted more
    // than once, or after reading a principal that an earlier transfer might still change.
    ghost var written: set<TxHash>
    ghost var doubled: set<nat>
    ghost var log: seq<Relay>
    ghost var applied: set<Position>
    ghost var deposits: seq<nat>
    ghost var fundedEpochs: seq<nat>

    /**
     Of every series, chain less record is exactly what executed and was not written down, and
     the guard of every relay had read that they agree.  Outside doubled series at most one
     transfer is unfinished or in flight.
     */
    ghost predicate Valid()
      reads this
    {
      && Balanced(allocations, vault, chain, written) && Bounded(chain, written, doubled)
      && RelaysGuarded(log)
      && ReceiptsBound(allocations, vault, chain, written, doubled, receipts, applied)
      && NotesKnown(allocations, notes)
    }

    /** One unregistered allocation at most, one deposit each, and one note behind each registration. */
    ghost predicate Orderly()
      reads this
    {
      Provisioned(allocations, vault, notes, deposits)
    }

    /** At most one funding relay an epoch. */
    ghost predicate Paced()
      reads this
    {
      EpochsPaced(fundedEpochs, claimedEpoch)
    }

    constructor (vault: nat, maker: nat, asset: nat)
      ensures Valid() && Orderly() && Paced()
      ensures log == [] && deposits == [] && allocations == [] && receipts == map[]
    {
      this.vault, this.maker, this.asset := vault, maker, asset;
      chain := Chain(map[], map[], {}, {}, 0);
      allocations, notes, receipts, claimedEpoch := [], map[], map[], None;
      written, doubled, log, applied, deposits, fundedEpochs := {}, {}, [], {}, [], [];
    }

    // ----- The network and the awaits -----

    /** One transaction in flight executes, unless the contract refuses it in the market of that moment, or dies. */
    method Progress(h: TxHash)
      requires Valid() && Flying(chain, h)
      modifies this`chain
      ensures Valid() && Later(old(chain), chain)
    {
      LandBounded(chain, written, doubled, h);
      LandBound(allocations, vault, chain, written, doubled, receipts, applied, h);
      var lands: bool, market: Market := *, *;
      if lands && Executable(chain, market, h) {
        LandBalanced(allocations, vault, chain, written, h);
        chain := Land(chain, h);
      } else {
        DropBalanced(allocations, vault, chain, written, h);
        chain := Drop(chain, h);
      }
    }

    /** Any number of transactions in flight execute or die. */
    method Elapse()
      requires Valid()
      modifies this`chain
      ensures Valid() && Later(old(chain), chain)
    {
      var steps: int := *;
      while steps > 0
        invariant Valid() && Later(old(chain), chain)
      {
        var h: TxHash := *;
        if Flying(chain, h) { Progress(h); }
        steps := steps - 1;
      }
    }

    /** The notes move. */
    method Stir()
      requires Valid()
      modifies this`notes
      ensures Valid() && NotesMove(old(notes), notes)
      ensures old(Orderly()) ==> Orderly()
    {
      var next: map<nat, MakerNote> := *;
      if NotesMove(notes, next) {
        NotesMoveKnown(allocations, notes, next);
        ghost var orderly := Orderly();
        if orderly { NotesMoveProvisioned(allocations, vault, deposits, notes, next); }
        notes := next;
      } else {
        NotesStay(notes);
      }
    }

    /** One await: the notes move, transactions land, and the process lives on or not. */
    method Await() returns (alive: bool)
      requires Valid()
      modifies this`notes, this`chain
      ensures Valid() && NotesMove(old(notes), notes)
      ensures old(Orderly()) ==> Orderly()
      ensures Later(old(chain), chain)
    {
      Stir();
      Elapse();
      alive := *;
    }

    function Principal(series: nat): int
      reads this
    {
      OnChain(chain, series)
    }

    function Recorded(series: nat): Option<int>
      reads this
    {
      RecordedSeriesPrincipal(allocations, vault, series)
    }

    /** The hash belongs to a transaction of this transfer, submitted since. */
    ghost predicate NewlySent(hash: TxHash, t: Transfer, before: map<TxHash, Transfer>)
      reads this
    {
      hash !in before && hash in chain.submitted && chain.submitted[hash] == t
    }

    /** The guard of this transfer read the principal in this earlier state, and found agreement. */
    ghost predicate GuardPassed(t: Transfer, read: Chain)
      reads this
    {
      && Balanced(allocations, vault, read, written) && Bounded(read, written, doubled) && Later(read, chain)
      && Recorded(t.series) == Some(OnChain(read, t.series)) && Delta(t) != 0
    }

    /** What one relay does to the series it doubles. */
    ghost function DoubledAfter(series: nat, copies: nat, read: Chain): set<nat>
      reads this
    {
      doubled + if Doubles(read, chain, series, copies) then {series} else {}
    }

    /** The log entry of a relay made now. */
    ghost function LogEntry(t: Transfer, read: Chain): Relay
      reads this
      requires Later(read, chain) && chain.landed <= chain.submitted.Keys
    {
      RelayOf(t, Recorded(t.series), read, chain)
    }

    /** So many submissions of one transfer. */
    method Send(t: Transfer, copies: nat, ghost read: Chain)
      requires Valid() && GuardPassed(t, read)
      requires SettlementBound(allocations, vault, receipts, applied, t, false)
      requires PendingBound(allocations, vault, receipts, applied, t)
      modifies this`chain, this`log, this`doubled
      ensures Valid() && log == old(log) + [old(LogEntry(t, read))]
      ensures chain == Submit(old(chain), t, copies) && doubled == old(DoubledAfter(t.series, copies, read))
    {
      ghost var more := DoubledAfter(t.series, copies, read);
      ghost var entry := LogEntry(t, read);
      AgreementAtSubmission(allocations, vault, read, chain, written, t.series);
      assert GuardedRelay(entry);
      SubmitBalanced(allocations, vault, chain, written, t, copies);
      SubmitBounded(allocations, vault, read, chain, written, doubled, t, copies);
      SubmitBound(allocations, vault, chain, written, doubled, receipts, applied, t, copies, more);
      log := log + [entry];
      chain := Submit(chain, t, copies);
      doubled := more;
    }

    /**
     `relayAsync`: its command is run again after a timeout, so it may submit any number of
     transactions; they execute when they will, and one of their hashes may come back.
     */
    method RelayTransfer(t: Transfer, ghost read: Chain) returns (hash: Option<TxHash>, ghost copies: nat)
      requires Valid() && GuardPassed(t, read)
      requires SettlementBound(allocations, vault, receipts, applied, t, false)
      requires PendingBound(allocations, vault, receipts, applied, t)
      modifies this`chain, this`log, this`doubled
      ensures Valid() && log == old(log) + [old(LogEntry(t, read))]
      ensures Later(Submit(old(chain), t, copies), chain) && doubled == old(DoubledAfter(t.series, copies, read))
      ensures hash.Some? ==> NewlySent(hash.value, t, old(chain).submitted) && hash.value !in written
    {
      var submissions: nat := *;
      var last := chain.nextHash + submissions - 1;
      copies := submissions;
      Send(t, submissions, read);
      Elapse();
      var answered: bool := *;
      hash := if answered && submissions > 0 then Some(last) else None;
    }

    /** `assertSuccessfulTransaction`: an RPC failure reads like a failed transaction. */
    method CheckTransaction(hash: TxHash) returns (ok: bool)
      ensures ok ==> hash in chain.landed
    {
      var answered: bool := *;
      ok := answered && hash in chain.landed;
    }

    /** In this earlier state the transaction had executed; it is not written down. */
    ghost predicate ExecutedIn(hash: TxHash, seen: Chain)
      reads this
    {
      Later(seen, chain) && hash in seen.landed && hash !in written
    }

    /** What follows a relay: the transaction executed, and the principal is as expected when it is read. */
    method CheckMoved(hash: TxHash, series: nat, expected: int) returns (ok: bool, ghost seen: Chain)
      requires Valid()
      modifies this`chain, this`notes
      ensures Valid() && (old(Orderly()) ==> Orderly()) && Later(old(chain), chain)
      ensures ok ==> Later(old(chain), seen) && Later(seen, chain)
      ensures ok ==> hash in seen.landed && OnChain(seen, series) == expected
    {
      seen := chain;
      var alive := Await();
      if !alive { return false, seen; }
      var executed := CheckTransaction(hash);
      if !executed { return false, seen; }
      alive := Await();
      seen := chain;
      var after := Principal(series);
      if !alive || after != expected { return false, seen; }
      alive := Await();
      var balanced: bool := *;
      ok := alive && balanced;
    }

    /** A relay and its checks: the hash comes back if the transaction executed and the principal reads as expected. */
    method Transact(t: Transfer, expected: int, ghost read: Chain) returns (hash: Option<TxHash>, ghost seen: Chain)
      requires Valid() && GuardPassed(t, read) && !t.Settled?
      modifies this`chain, this`log, this`doubled, this`notes
      ensures Valid() && (old(Orderly()) ==> Orderly()) && log == old(log) + [old(LogEntry(t, read))]
      ensures hash.Some? ==>
        && ExecutedIn(hash.value, seen) && NewlySent(hash.value, t, old(chain).submitted)
        && OnChain(seen, t.series) == expected
    {
      hash, seen := None, chain;
      var sent, copies := RelayTransfer(t, read);
      if sent.None? { return; }
      var ok;
      ok, seen := CheckMoved(sent.value, t.series, expected);
      if ok { hash := sent; }
    }

    /** An update of one document that changes no amount. */
    method Rewrite(k: nat, d: Allocation)
      requires Valid() && k < |allocations|
      requires LowerSameAllocation(allocations[k], d) && RemainingPrincipal(d) == RemainingPrincipal(allocations[k])
      requires forall s: nat :: Contribution(d, vault, s) == Contribution(allocations[k], vault, s)
      modifies this`allocations
      ensures Valid() && allocations == old(allocations)[k := d]
    {
      RewriteBalanced(allocations, vault, chain, written, k, d);
      RewriteBound(allocations, vault, chain, written, doubled, receipts, applied, k, d);
      KnownKept(allocations, notes, k, d);
      allocations := allocations[k := d];
    }

    // ----- Whole-allocation settlement (settle-vault-maker.ts) -----

    /** `beginVaultMakerDrain`: no amount and no registration changes. */
    method BeginDrain(id: nat) returns (done: bool)
      requires Valid()
      modifies this`allocations, this`notes, this`chain
      ensures Valid() && (old(Orderly()) ==> Orderly())
      ensures var found := FindAllocation(old(allocations), id);
        if found.None? || old(allocations)[found.value].status == Closed then !done && allocations == old(allocations)
        else allocations == old(allocations)[found.value := old(allocations)[found.value].(status := Draining)]
    {
      var found := FindAllocation(allocations, id);
      if found.None? || allocations[found.value].status == Closed { return false; }
      var k := found.value;
      var d := allocations[k].(status := Draining);
      ghost var orderly := Orderly();
      if orderly { RewriteProvisioned(allocations, vault, notes, deposits, k, d); }
      Rewrite(k, d);
      done := Await();
    }

    /** `closeVaultMakerAllocation` after the settlement it waited for. */
    method FinishRepaid(k: nat, ghost hash: TxHash)
      requires Valid() && k < |allocations| && allocations[k].vault == vault && allocations[k].status != Closed
      requires RemainingPrincipal(allocations[k]).Some? && hash in chain.landed && hash !in written
      requires hash in chain.submitted && chain.submitted[hash].Repaid?
      requires chain.submitted[hash].series == allocations[k].series
      requires chain.submitted[hash].principal == RemainingPrincipal(allocations[k]).value
      modifies this`allocations, this`written
      ensures Valid() && allocations == old(allocations)[k := ClosedDocument(old(allocations)[k])]
      ensures written == old(written) + {hash}
    {
      var d := ClosedDocument(allocations[k]);
      WriteBalanced(allocations, vault, chain, written, k, d, hash);
      RepaidBound(allocations, vault, chain, written, doubled, receipts, applied, k, d, hash);
      WriteBounded(chain, written, doubled, hash);
      KnownKept(allocations, notes, k, d);
      written := written + {hash};
      allocations := allocations[k := d];
    }

    /**
     The transfer of a whole-allocation settlement: `settle`, or `record_loss` when nothing came
     back.  The principal that the last check reads is the one before, less what was owed.
     */
    method RepayAllocation(k: nat, returned: nat) returns (hash: Option<TxHash>, ghost seen: Chain)
      requires Valid() && k < |allocations| && allocations[k].vault == vault && allocations[k].status != Closed
      modifies this`chain, this`log, this`doubled, this`notes
      ensures Valid() && (old(Orderly()) ==> Orderly())
      ensures hash.Some? ==>
        && RemainingPrincipal(allocations[k]).Some? && ExecutedIn(hash.value, seen)
        && NewlySent(hash.value, RepaymentOf(allocations[k], returned), old(chain).submitted)
        && OnChain(seen, allocations[k].series)
           == old(Principal(allocations[k].series)) - RemainingPrincipal(allocations[k]).value
      ensures log == old(log) || (|log| == |old(log)| + 1 && old(log) <= log && log[|log| - 1].transfer.Repaid?)
    {
      hash, seen := None, chain;
      var a := allocations[k];
      var owed := RemainingPrincipal(a);
      if owed.None? || owed.value <= 0 { return; }
      ghost var read := chain;
      var before := Principal(a.series);
      if Recorded(a.series) != Some(before) || before < owed.value { return; }
      var alive := Await();
      if !alive { return; }
      hash, seen := Transact(RepaymentOf(a, returned), before - owed.value, read);
    }

    /** `closeVaultMakerAllocation`, which first counts the notes that still belong to the allocation. */
    method CloseRepaid(k: nat, ghost hash: TxHash, ghost seen: Chain) returns (done: bool)
      requires Valid() && k < |allocations| && allocations[k].vault == vault && allocations[k].status != Closed
      requires RemainingPrincipal(allocations[k]).Some? && ExecutedIn(hash, seen) && hash in chain.submitted
      requires chain.submitted[hash].Repaid? && chain.submitted[hash].series == allocations[k].series
      requires chain.submitted[hash].principal == RemainingPrincipal(allocations[k]).value
      modifies this`allocations, this`written, this`notes, this`chain
      ensures Valid() && (old(Orderly()) ==> Orderly()) && Later(old(chain), chain)
      ensures allocations == if done then old(allocations)[k := ClosedDocument(old(allocations)[k])] else old(allocations)
      ensures written == if done then old(written) + {hash} else old(written)
    {
      var a := allocations[k];
      if exists c | c in notes :: ActiveNote(notes[c], a.id) { return false; }
      done := Await();
      if !done { return; }
      ghost var orderly := Orderly();
      if orderly { RewriteProvisioned(allocations, vault, notes, deposits, k, ClosedDocument(a)); }
      FinishRepaid(k, hash);
    }

    /** `settleVaultMaker` for a draining allocation. */
    method SettleVaultMaker(id: nat, returned: nat) returns (done: bool, ghost read: Chain, ghost seen: Chain)
      requires Valid()
      modifies this`chain, this`log, this`doubled, this`notes, this`allocations, this`written
      ensures Valid() && (old(Orderly()) ==> Orderly())
      ensures !done ==> allocations == old(allocations)
      ensures done ==>
        var k := FindAllocation(old(allocations), id);
        && k.Some? && old(allocations)[k.value].status == Draining
        && allocations == old(allocations)[k.value := ClosedDocument(old(allocations)[k.value])]
        && var a := old(allocations)[k.value];
           RemainingPrincipal(a).Some? && Later(old(chain), read) && Later(seen, chain)
           && OnChain(seen, a.series) == OnChain(read, a.series) - RemainingPrincipal(a).value
           && exists h :: written == old(written) + {h} && h in seen.landed
                          && NewlySent(h, RepaymentOf(a, returned), old(chain).submitted)
    {
      done, read, seen := false, chain, chain;
      var found := FindAllocation(allocations, id);
      if found.None? { return; }
      var k := found.value;
      var a := allocations[k];
      if a.vault != vault || a.status != Draining || a.asset != asset || a.maker != maker { return; }
      var alive := Await();
      var recovered: bool := *;
      if !alive || !recovered || exists c | c in notes :: ActiveNote(notes[c], id) { return; }
      alive := Await();
      if !alive { return; }
      read := chain;
      var hash;
      hash, seen := RepayAllocation(k, returned);
      if hash.Some? { done := CloseRepaid(k, hash.value, seen); }
    }

    // ----- Allocation (allocate-vault-maker.ts) -----

    /** `recordVaultMakerAllocation` under the hash of its transaction. */
    method RecordAllocation(a: Allocation)
      requires Valid() && FindAllocation(allocations, a.id).None? && a.vault == vault && a.status == Outstanding
      requires a.id in chain.landed && a.id in chain.submitted && a.id !in written
      requires chain.submitted[a.id].Lent? && chain.submitted[a.id].series == a.series
      requires RemainingPrincipal(a) == Some(chain.submitted[a.id].amount)
      modifies this`allocations, this`written
      ensures Valid() && allocations == old(allocations) + [a] && written == old(written) + {a.id}
    {
      RecordBalanced(allocations, vault, chain, written, a, a.id);
      AppendBound(allocations, vault, chain, written, doubled, receipts, applied, a, a.id);
      WriteBounded(chain, written, doubled, a.id);
      KnownExtended(allocations, notes, a);
      written := written + {a.id};
      allocations := allocations + [a];
    }

    /**
     The guarded transfer of `allocate`: the hash of a confirmed allocation, or None.  The
     principal that the last check reads is the one before, and the amount.
     */
    method LendPrincipal(amount: int, series: nat, ghost epoch: nat) returns (hash: Option<TxHash>, ghost seen: Chain)
      requires Valid() && amount > 0
      modifies this`chain, this`log, this`doubled, this`notes, this`fundedEpochs
      ensures Valid() && (old(Orderly()) ==> Orderly())
      ensures fundedEpochs == old(fundedEpochs) || fundedEpochs == old(fundedEpochs) + [epoch]
      ensures hash.Some? ==>
        && ExecutedIn(hash.value, seen) && NewlySent(hash.value, Lent(series, amount), old(chain).submitted)
        && OnChain(seen, series) == old(Principal(series)) + amount
    {
      hash, seen := None, chain;
      ghost var read := chain;
      var before := Principal(series);
      var alive := Await();
      var vaultReads: VaultReads := *;
      var recorded := Recorded(series);
      if !alive || recorded != Some(before) || !AllocateGuards(vaultReads.(seriesPrincipal := before), amount) { return; }
      alive := Await();
      if !alive { return; }
      fundedEpochs := fundedEpochs + [epoch];
      hash, seen := Transact(Lent(series, amount), before + amount, read);
    }

    /** `allocate`: the document recorded is that of a transaction of its own which lent exactly the amount. */
    method Allocate(amount: int, series: nat, ghost epoch: nat) returns (made: bool)
      requires Valid()
      modifies this`chain, this`log, this`doubled, this`notes, this`allocations, this`written, this`fundedEpochs
      ensures Valid()
      ensures old(Orderly() && AllComplete()) ==> Orderly()
      ensures fundedEpochs == old(fundedEpochs) || fundedEpochs == old(fundedEpochs) + [epoch]
      ensures old(allocations) <= allocations && |allocations| <= |old(allocations)| + 1
      ensures made ==> |allocations| == |old(allocations)| + 1 && Unfunded(|allocations| - 1)
      ensures made ==>
        var a := allocations[|allocations| - 1];
        && a.amount == amount && a.series == series && a.remainingPrincipal == Some(amount)
        && a.id in chain.landed && written == old(written) + {a.id}
        && NewlySent(a.id, Lent(series, amount), old(chain).submitted)
    {
      made := false;
      if amount <= 0 { return; }
      var hash, seen := LendPrincipal(amount, series, epoch);
      if hash.None? || FindAllocation(allocations, hash.value).Some? { return; }
      var a := Allocation(hash.value, vault, maker, asset, series, amount, 0, {}, Some(amount), Outstanding);
      ghost var orderly := Orderly() && AllComplete();
      if orderly { AppendProvisioned(allocations, vault, notes, deposits, a); }
      RecordAllocation(a);
      UnknownUnlinked(old(allocations), notes, a.id);
      ghost var stored := notes;
      made := Await();
      NotesMoveUnlinked(stored, notes, a.id);
    }

    /** No allocation waits for its note. */
    ghost predicate AllComplete()
      reads this
    {
      forall i | 0 <= i < |allocations| :: !Incomplete(allocations[i], vault)
    }

    /** An open allocation without registration or note: ready for its one deposit. */
    ghost predicate Unfunded(k: nat)
      reads this
      requires k < |allocations|
    {
      var a := allocations[k];
      a.amount > 0 && a.noteCommitments == {} && a.registeredAmount == 0 && !Linked(notes, a.id)
    }

    // ----- Note deposit and registration -----

    /** A finalized deposit note of the whole allocation. */
    ghost predicate WholeNote(k: nat, c: nat)
      reads this
      requires k < |allocations|
    {
      var a := allocations[k];
      && a.noteCommitments == {} && a.registeredAmount == 0
      && c in notes && notes[c].amount == a.amount && notes[c].allocationId == Some(a.id) && notes[c].closePosition.None?
      && notes[c].depositTxHash.Some?
    }

    predicate Registrable(c: nat)
      reads this
    {
      && c in notes && notes[c].status == NoteAvailable && notes[c].wallet == maker && notes[c].asset == asset
      && notes[c].depositTxHash.Some?
    }

    /** The allocation's half of `registerVaultMakerNote`: None where it throws. */
    method AddRegistration(k: nat, c: nat) returns (done: bool)
      requires Valid() && k < |allocations| && c in notes && notes[c].depositTxHash.Some?
      modifies this`allocations
      ensures Valid() && (old(Orderly() && WholeNote(k, c)) ==> Orderly())
      ensures !done ==> allocations == old(allocations)
      ensures done ==>
        var a := old(allocations)[k];
        if c in a.noteCommitments then allocations == old(allocations)
        else a.registeredAmount + notes[c].amount <= a.amount &&
             allocations == old(allocations)[k := a.(registeredAmount := a.registeredAmount + notes[c].amount,
                                                     noteCommitments := a.noteCommitments + {c})]
    {
      var a := allocations[k];
      if a.vault != vault || a.asset != asset || a.maker != maker || a.status != Outstanding { return false; }
      if c in a.noteCommitments { return true; }
      var next := a.registeredAmount + notes[c].amount;
      if next > a.amount { return false; }
      var d := a.(registeredAmount := next, noteCommitments := a.noteCommitments + {c});
      ghost var whole := Orderly() && WholeNote(k, c);
      if whole {
        assert {} + {c} == {c};
        RegisterProvisioned(allocations, vault, notes, deposits, k, c);
      }
      assert RemainingPrincipal(a).Some?;
      Rewrite(k, d);
      return true;
    }

    /** `register` of a note for an allocation. */
    method Register(k: nat, c: nat) returns (done: bool)
      requires Valid() && k < |allocations|
      modifies this`allocations, this`notes, this`chain
      ensures Valid() && (old(Orderly() && WholeNote(k, c)) ==> Orderly())
      ensures done ==> |allocations| == |old(allocations)| && c in allocations[k].noteCommitments
      ensures done && old(WholeNote(k, c)) ==> allocations[k].registeredAmount == allocations[k].amount
    {
      done := false;
      var a := allocations[k];
      if a.status != Outstanding || a.asset != asset || a.maker != maker || !Registrable(c) { return; }
      var deposited: bool := *;
      if !deposited || Recorded(a.series) != Some(Principal(a.series)) { return; }
      ghost var before := notes;
      var alive := Await();
      assert before[c].closePosition.None? ==> Lasting(before[c], notes[c]);
      if !alive || !Registrable(c) || notes[c].parent.Some? { return; }
      if notes[c].allocationId.Some? && notes[c].allocationId != Some(a.id) { return; }
      var added := AddRegistration(k, c);
      if !added { return; }
      ghost var stored := notes;
      alive := Await();
      assert stored[c].closePosition.None? ==> Lasting(stored[c], notes[c]);
      if !alive || !Registrable(c) { return; }
      if notes[c].allocationId.Some? && notes[c].allocationId != Some(a.id) { return; }
      Tag(k, c);
      done := true;
    }

    /** Tagging the note with its allocation. */
    method Tag(k: nat, c: nat)
      requires Valid() && k < |allocations| && c in notes && notes[c].depositTxHash.Some?
      modifies this`notes
      ensures Valid() && notes == old(notes)[c := old(notes)[c].(allocationId := Some(allocations[k].id))]
      ensures old(Orderly() && notes[c].allocationId == Some(allocations[k].id)) ==> Orderly()
    {
      var n := notes[c].(allocationId := Some(allocations[k].id));
      ghost var orderly := Orderly() && notes[c].allocationId == n.allocationId;
      if orderly { FinalizeProvisioned(allocations, vault, notes, deposits, c, n); }
      assert KnownId(allocations, allocations[k].id);
      notes := notes[c := n];
    }

    /** `insertPendingMakerNote`: the note is on record before anything is relayed. */
    method InsertPending(a: Allocation, c: nat)
      requires Valid() && c !in notes && KnownId(allocations, a.id)
      modifies this`notes
      ensures Valid() && (old(Orderly()) ==> Orderly())
      ensures notes == old(notes)[c := PendingNote(a)] && Deposited(notes, a.id)
    {
      ghost var orderly := Orderly();
      if orderly { InsertProvisioned(allocations, vault, notes, deposits, c, PendingNote(a)); }
      notes := notes[c := PendingNote(a)];
      assert notes[c].allocationId == Some(a.id);
    }

    /** `finalizePendingMakerNote`. */
    method Finalize(c: nat, depositTx: TxHash) returns (done: bool)
      requires Valid() && (c in notes ==> notes[c].closePosition.None?)
      modifies this`notes
      ensures Valid() && (old(Orderly()) ==> Orderly())
      ensures done <==> c in old(notes) && old(notes)[c].status == NotePending
      ensures notes == if done
        then old(notes)[c := old(notes)[c].(depositTxHash := Some(depositTx), status := NoteAvailable)]
        else old(notes)
    {
      if c !in notes || notes[c].status != NotePending { return false; }
      var n := notes[c].(depositTxHash := Some(depositTx), status := NoteAvailable);
      ghost var orderly := Orderly();
      if orderly { FinalizeProvisioned(allocations, vault, notes, deposits, c, n); }
      notes := notes[c := n];
      return true;
    }

    /** `runCustodySmoke` of one note: prepare, store it as pending, relay the deposit, finalize. */
    method DepositNote(k: nat) returns (commitment: Option<nat>)
      requires Valid() && k < |allocations|
      modifies this`notes, this`deposits, this`chain
      ensures Valid() && (old(Orderly() && Unfunded(k)) ==> Orderly())
      ensures deposits == old(deposits) || deposits == old(deposits) + [allocations[k].id]
      ensures commitment.Some? && old(Unfunded(k)) ==> WholeNote(k, commitment.value)
    {
      commitment := None;
      var a := allocations[k];
      ghost var before := notes;
      var alive := Await();
      if !Linked(before, a.id) { NotesMoveUnlinked(before, notes, a.id); }
      var c: nat := *;
      if !alive || c in notes { return; }
      ghost var orderly := Orderly() && !Linked(notes, a.id);
      if orderly { UnlinkedNotDeposited(notes, deposits, a.id); }
      assert KnownId(allocations, a.id);
      InsertPending(a, c);
      ghost var stored := notes;
      alive := Await();
      NotesMoveDeposited(stored, notes, a.id);
      assert Lasting(stored[c], notes[c]);
      if !alive { return; }
      if orderly { DepositProvisioned(allocations, vault, notes, deposits, a.id); }
      deposits := deposits + [a.id];
      commitment := AwaitDeposit(c);
    }

    /** What follows the relay: the deposit must show on the chain before the note is finalized. */
    method AwaitDeposit(c: nat) returns (commitment: Option<nat>)
      requires Valid() && c in notes && notes[c].closePosition.None?
      modifies this`notes, this`chain
      ensures Valid() && (old(Orderly()) ==> Orderly())
      ensures commitment.Some? ==> commitment.value == c
      ensures c in notes && notes[c].closePosition.None?
      ensures notes[c].amount == old(notes[c].amount) && notes[c].allocationId == old(notes[c].allocationId)
      ensures commitment.Some? ==> notes[c].depositTxHash.Some?
    {
      commitment := None;
      ghost var before := notes;
      var alive := Await();
      assert Lasting(before[c], notes[c]);
      var executed: bool := *;
      if !alive || !executed { return; }
      var depositTx: nat := *;
      var done := Finalize(c, depositTx);
      if !done { return; }
      ghost var stored := notes;
      alive := Await();
      assert Lasting(stored[c], notes[c]);
      if alive { commitment := Some(c); }
    }

    /** `depositAllocation`. */
    method DepositAllocation(k: nat) returns (done: bool)
      requires Valid() && k < |allocations|
      modifies this`notes, this`deposits, this`allocations, this`chain
      ensures Valid() && (old(Orderly() && Unfunded(k)) ==> Orderly())
      ensures done && old(Unfunded(k)) ==>
        |allocations| == |old(allocations)| && allocations[k].registeredAmount == allocations[k].amount
    {
      var balance: int := *;
      if balance < allocations[k].amount { return false; }
      var commitment := DepositNote(k);
      if commitment.None? { return false; }
      done := Register(k, commitment.value);
    }

    // ----- An allocation left unfinished -----

    /** `planIncompleteAllocation`. */
    method PlanIncomplete(a: Allocation) returns (plan: Result<Plan>)
      ensures plan.Ok? && plan.value.DepositIt? <==> Open(a) && !Linked(notes, a.id)
      ensures plan.Ok? && plan.value.RegisterIt? ==>
        var c := plan.value.commitment;
        && Open(a) && c in notes && notes[c].allocationId == Some(a.id) && notes[c].status == NoteAvailable
        && notes[c].depositTxHash.Some? && notes[c].amount == a.amount
        && forall e | e in notes && notes[e].allocationId == Some(a.id) :: e == c
      ensures plan.Err? ==> !Open(a) || Linked(notes, a.id)
    {
      if !Open(a) { return Err("unfinished vault allocation requires manual reconciliation"); }
      var linked := set c | c in notes && notes[c].allocationId == Some(a.id);
      assert forall c | c in notes && notes[c].allocationId == Some(a.id) :: c in linked;
      if linked == {} { return Ok(DepositIt); }
      var c :| c in linked;
      if linked == {c} && notes[c].status == NoteAvailable && notes[c].depositTxHash.Some? && notes[c].amount == a.amount {
        return Ok(RegisterIt(c));
      }
      return Err("unfinished maker note deposit requires manual reconciliation");
    }

    /** Taking up the allocation that an earlier pass left unfinished. */
    method ResumeAllocation(k: nat) returns (done: bool)
      requires Valid() && k < |allocations|
      modifies this`notes, this`deposits, this`allocations, this`chain
      ensures Valid() && (old(Orderly()) ==> Orderly())
    {
      done := false;
      var plan := PlanIncomplete(allocations[k]);
      match plan
      case Err(_) =>
      case Ok(DepositIt) => done := DepositAllocation(k);
      case Ok(RegisterIt(c)) => done := Register(k, c);
    }

    // ----- Settlement of one position (settle-vault-maker-position.ts) -----

    /** What a stored receipt of this input says about allocation k. */
    ghost predicate ReceiptOf(input: Input, k: nat)
      reads this
    {
      && k < |allocations| && allocations[k].vault == vault && allocations[k].id == input.allocationId
      && input.position in receipts && receipts[input.position].allocationId == input.allocationId
      && receipts[input.position].principal == input.principal > 0
    }

    /** The receipt was created from what the documents still say. */
    ghost predicate JustCreated(input: Input, k: nat)
      reads this
    {
      && ReceiptOf(input, k) && input.position !in applied && receipts[input.position].status == Pending
      && RemainingPrincipal(allocations[k]) == Some(receipts[input.position].allocationPrincipalBefore)
      && Recorded(allocations[k].series) == Some(receipts[input.position].seriesPrincipalBefore)
    }

    method CreateReceipt(input: Input, k: nat, returned: int) returns (created: bool)
      requires Valid() && k < |allocations| && allocations[k].vault == vault && allocations[k].id == input.allocationId
      requires input.position !in receipts && input.principal > 0
      modifies this`receipts, this`chain, this`notes
      ensures Valid() && (old(Orderly()) ==> Orderly())
      ensures created ==> JustCreated(input, k) && receipts.Keys == old(receipts).Keys + {input.position}
      ensures !created ==> receipts == old(receipts)
    {
      var a := allocations[k];
      var owed := RemainingPrincipal(a);
      if a.status != Outstanding || owed.None? || input.principal > owed.value { return false; }
      var liquid: int, makerBalance: int := *, *;
      var recorded, before := Recorded(a.series), Principal(a.series);
      var alive := Await();
      if !alive || recorded != Some(before) || before < input.principal || makerBalance < returned { return false; }
      var proposed := Receipt(a.id, owed.value, input.closeTxHash, makerBalance, input.noteCommitment,
                              input.principal, returned, liquid, before, Pending, None);
      InsertBound(allocations, vault, chain, written, doubled, receipts, applied, input.position, proposed);
      receipts := receipts[input.position := proposed];
      return true;
    }

    /** Only the creator relays, and only what its receipt recorded. */
    method RelayReceipt(input: Input, k: nat) returns (sent: bool)
      requires Valid() && JustCreated(input, k)
      modifies this`chain, this`doubled, this`log, this`notes, this`receipts
      ensures Valid() && (old(Orderly()) ==> Orderly())
      ensures sent ==> ReceiptOf(input, k) && receipts[input.position].status == Submitted
    {
      var r, a := receipts[input.position], allocations[k];
      ghost var read := chain;
      var current := Principal(a.series);
      var alive := Await();
      var sameBalances: bool := *;
      if !alive || !sameBalances || current != r.seriesPrincipalBefore { return false; }
      assert LiesIn(allocations, vault, a.id, a.series) && Owes(allocations, vault, a.id, r.allocationPrincipalBefore);
      var hash, copies := RelayTransfer(Settled(input.position, a.id, a.series, r.principal, r.returned), read);
      if hash.None? { return false; }
      sent := Await();
      if sent { StoreHash(input.position, hash.value); }
    }

    /** The receipt takes the hash of its own settlement. */
    method StoreHash(position: Position, hash: TxHash)
      requires Valid() && position in receipts && receipts[position].status == Pending
      requires SentFor(chain, hash, position, receipts[position])
      modifies this`receipts
      ensures Valid()
      ensures receipts == old(receipts)[position := old(receipts)[position].(status := Submitted, txHash := Some(hash))]
    {
      var next := receipts[position].(status := Submitted, txHash := Some(hash));
      RestatedBound(allocations, vault, chain, written, doubled, receipts, applied, position, next);
      receipts := receipts[position := next];
    }

    /** The decrement of `applyPrincipalReceipt`. */
    method FinishSettled(k: nat, position: Position)
      requires Valid() && k < |allocations| && allocations[k].vault == vault && allocations[k].status == Outstanding
      requires position in receipts && position !in applied && receipts[position].allocationId == allocations[k].id
      requires receipts[position].txHash.Some? && receipts[position].txHash.value in chain.landed
      requires RemainingPrincipal(allocations[k]) == Some(receipts[position].allocationPrincipalBefore)
      modifies this`allocations, this`written, this`applied
      ensures Valid() && applied == old(applied) + {position}
      ensures written == old(written) + {receipts[position].txHash.value}
      ensures allocations == old(allocations)[k := old(allocations)[k].(remainingPrincipal :=
                Some(receipts[position].allocationPrincipalBefore - receipts[position].principal))]
    {
      var a, r := allocations[k], receipts[position];
      var d := a.(remainingPrincipal := Some(r.allocationPrincipalBefore - r.principal));
      ghost var h := r.txHash.value;
      SettlementSeries(allocations, vault, chain, written, doubled, receipts, applied, position, k);
      assert r.principal > 0;
      WriteBalanced(allocations, vault, chain, written, k, d, h);
      SettledBound(allocations, vault, chain, written, doubled, receipts, applied, k, d, position, h);
      WriteBounded(chain, written, doubled, h);
      KnownKept(allocations, notes, k, d);
      written := written + {h};
      applied := applied + {position};
      allocations := allocations[k := d];
    }

    /** The allocation owes at most what the receipt left. */
    ghost predicate PaidDown(input: Input, k: nat)
      reads this
      requires ReceiptOf(input, k)
    {
      var remaining := RemainingPrincipal(allocations[k]);
      remaining.Some? && remaining.value <= receipts[input.position].allocationPrincipalBefore - input.principal
    }

    /** Outside doubled series, the decrement of the receipt was written. */
    ghost predicate AppliedUnlessDoubled(input: Input, k: nat)
      reads this
    {
      && k < |allocations| && allocations[k].id == input.allocationId
      && (input.position in applied || allocations[k].series in doubled)
    }

    /** The post-checks of the transfer, and what the remaining principal they leave tells. */
    method CheckSettled(input: Input, k: nat) returns (ok: bool, ghost seen: Chain)
      requires Valid() && ReceiptOf(input, k) && receipts[input.position].status != Pending
      modifies this`chain, this`notes
      ensures Valid() && (old(Orderly()) ==> Orderly())
      ensures ok ==>
        var r, left := receipts[input.position], RemainingPrincipal(allocations[k]);
        && r.txHash.Some? && r.txHash.value in seen.landed && Later(seen, chain)
        && OnChain(seen, allocations[k].series) == r.seriesPrincipalBefore - input.principal
        && (input.position in applied ==> left.Some? && left.value <= r.allocationPrincipalBefore - r.principal)
        && (input.position !in applied && allocations[k].series !in doubled ==> left == Some(r.allocationPrincipalBefore))
    {
      var r, a := receipts[input.position], allocations[k];
      ok, seen := CheckMoved(r.txHash.value, a.series, r.seriesPrincipalBefore - input.principal);
      if ok {
        ReadingTells(allocations, vault, chain, written, doubled, receipts, applied, input.position, k);
      }
    }

    /**
     `applyPrincipalReceipt`: the decrement is written at most once.  The receipt passes without
     ever being applied exactly if its allocation already reads as it would after it.
     */
    method ApplyReceipt(input: Input, k: nat) returns (ok: bool)
      requires Valid() && ReceiptOf(input, k) && receipts[input.position].status != Pending
      modifies this`allocations, this`written, this`applied, this`chain, this`notes
      ensures Valid() && (old(Orderly()) ==> Orderly())
      ensures ok ==> ReceiptOf(input, k) && PaidDown(input, k) && AppliedUnlessDoubled(input, k)
      ensures !ok ==> allocations == old(allocations) && applied == old(applied)
      ensures ok && input.position in old(applied) ==> allocations == old(allocations)
      ensures ok ==> (input.position in applied <==>
        || input.position in old(applied)
        || RemainingPrincipal(old(allocations)[k])
           != Some(receipts[input.position].allocationPrincipalBefore - input.principal))
    {
      var settled, seen := CheckSettled(input, k);
      if !settled { return false; }
      var r, actual := receipts[input.position], RemainingPrincipal(allocations[k]);
      var after := r.allocationPrincipalBefore - input.principal;
      if actual.None? { return false; }
      if actual.value == after { return true; }
      if actual.value != r.allocationPrincipalBefore || allocations[k].status != Outstanding { return false; }
      var alive := Await();
      if !alive { return false; }
      Decrement(input, k);
      return true;
    }

    /** The write of `applyPrincipalReceipt`. */
    method Decrement(input: Input, k: nat)
      requires Valid() && ReceiptOf(input, k) && input.position !in applied && allocations[k].status == Outstanding
      requires var r := receipts[input.position];
        && r.txHash.Some? && r.txHash.value in chain.landed
        && RemainingPrincipal(allocations[k]) == Some(r.allocationPrincipalBefore)
      modifies this`allocations, this`written, this`applied
      ensures Valid() && (old(Orderly()) ==> Orderly())
      ensures ReceiptOf(input, k) && PaidDown(input, k) && AppliedUnlessDoubled(input, k) && input.position in applied
    {
      ghost var orderly, before := Orderly(), allocations;
      FinishSettled(k, input.position);
      if orderly { RewriteProvisioned(before, vault, notes, deposits, k, allocations[k]); }
    }

    /** `markMakerCloseOutputSettled`. */
    method MarkOutput(commitment: nat, hash: Option<TxHash>) returns (done: bool)
      requires Valid()
      modifies this`notes
      ensures Valid() && (old(Orderly()) ==> Orderly())
      ensures done <==> MarkSettled(old(notes), commitment, hash).Some?
      ensures notes == if done then MarkSettled(old(notes), commitment, hash).value else old(notes)
    {
      var marked := MarkSettled(notes, commitment, hash);
      if marked.None? { return false; }
      var n := notes[commitment].(settlementTxHash := hash);
      ghost var orderly := Orderly();
      if orderly { FinalizeProvisioned(allocations, vault, notes, deposits, commitment, n); }
      notes := marked.value;
      return true;
    }

    /** The allocation is closed after the receipt that takes its last principal. */
    method CloseFinal(k: nat) returns (done: bool)
      requires Valid() && k < |allocations| && RemainingPrincipal(allocations[k]) == Some(0)
      modifies this`allocations
      ensures Valid() && (old(Orderly()) ==> Orderly())
      ensures done ==> allocations == old(allocations)[k := ClosedDocument(old(allocations)[k])]
                       || (allocations == old(allocations) && allocations[k].status == Closed)
      ensures !done ==> allocations == old(allocations)
    {
      var a := allocations[k];
      if a.status == Closed { return true; }
      if a.status != Outstanding || exists c | c in notes :: ActiveNote(notes[c], a.id) { return false; }
      ghost var orderly := Orderly();
      if orderly { RewriteProvisioned(allocations, vault, notes, deposits, k, ClosedDocument(a)); }
      Rewrite(k, ClosedDocument(a));
      return true;
    }

    method ConfirmReceipt(input: Input, k: nat)
      requires Valid() && ReceiptOf(input, k) && receipts[input.position].status != Pending
      requires AppliedUnlessDoubled(input, k)
      modifies this`receipts
      ensures Valid()
      ensures receipts == old(receipts)[input.position := old(receipts)[input.position].(status := Confirmed)]
    {
      var next := receipts[input.position].(status := Confirmed);
      assert allocations[k].series in doubled ==> LiesInDoubled(allocations, vault, input.allocationId, doubled);
      RestatedBound(allocations, vault, chain, written, doubled, receipts, applied, input.position, next);
      receipts := receipts[input.position := next];
    }

    /** Marking the output, and closing the allocation after its last principal. */
    method CloseIfFinal(input: Input, k: nat) returns (ok: bool)
      requires Valid() && ReceiptOf(input, k) && PaidDown(input, k)
      modifies this`allocations, this`notes, this`chain
      ensures Valid() && (old(Orderly()) ==> Orderly()) && Later(old(chain), chain)
      ensures |allocations| == |old(allocations)| && allocations[k].id == old(allocations)[k].id
      ensures allocations[k].series == old(allocations)[k].series && allocations[k].vault == old(allocations)[k].vault
    {
      var r := receipts[input.position];
      ok := MarkOutput(input.noteCommitment, r.txHash);
      if !ok { return; }
      ok := Await();
      if ok && r.allocationPrincipalBefore == input.principal { ok := CloseFinal(k); }
    }

    /** What follows the decrement; `applyPrincipalReceipt` finds it done when this is taken up again. */
    method CompleteReceipt(input: Input, k: nat) returns (done: bool)
      requires Valid() && ReceiptOf(input, k) && receipts[input.position].status != Pending
      requires PaidDown(input, k) && AppliedUnlessDoubled(input, k)
      modifies this`allocations, this`notes, this`receipts, this`chain
      ensures Valid() && (old(Orderly()) ==> Orderly())
      ensures done ==> input.position in receipts && receipts[input.position].status == Confirmed
      ensures done ==> AppliedUnlessDoubled(input, k)
    {
      var closed := CloseIfFinal(input, k);
      if !closed { return false; }
      var alive := Await();
      if !alive { return false; }
      ConfirmReceipt(input, k);
      return true;
    }

    /** From a submitted receipt to a confirmed one; it may stop anywhere and be taken up again. */
    method FinishReceipt(input: Input, k: nat) returns (done: bool)
      requires Valid() && ReceiptOf(input, k) && receipts[input.position].status == Submitted
      modifies this`allocations, this`written, this`applied, this`notes, this`receipts, this`chain
      ensures Valid() && (old(Orderly()) ==> Orderly())
      ensures done ==> input.position in receipts && receipts[input.position].status == Confirmed
      ensures done ==> AppliedUnlessDoubled(input, k)
    {
      var ok := ApplyReceipt(input, k);
      if !ok { return false; }
      var alive := Await();
      if !alive { return false; }
      done := CompleteReceipt(input, k);
    }

    /** The recovered close output that backs a settlement. */
    predicate RecoveredOutput(input: Input)
      reads this
    {
      input.noteCommitment in notes &&
      var n := notes[input.noteCommitment];
      && n.allocationId == Some(input.allocationId) && n.closePosition == Some(input.position)
      && n.status == NoteSpent && n.recoveredAmount.Some? && n.recoveredAmount.value > 0
      && n.closeTxHash == Some(input.closeTxHash) && n.wallet == maker
    }

    predicate Conflicts(r: Receipt, input: Input, returned: int) {
      || r.allocationId != input.allocationId || r.closeTxHash != input.closeTxHash
      || r.noteCommitment != input.noteCommitment || r.principal != input.principal || r.returned != returned
    }

    /** The checks before the receipt is looked up: the allocation, and the recovered amount. */
    method CheckInput(input: Input) returns (k: Option<nat>, returned: int)
      ensures k.Some? ==> input.principal > 0 && k.value < |allocations|
      ensures k.Some? ==> allocations[k.value].vault == vault && allocations[k.value].id == input.allocationId
    {
      k, returned := None, 0;
      var found := FindAllocation(allocations, input.allocationId);
      if input.principal <= 0 || found.None? || !RecoveredOutput(input) { return; }
      var a := allocations[found.value];
      if a.vault != vault || a.maker != maker || a.asset != asset { return; }
      k, returned := found, notes[input.noteCommitment].recoveredAmount.value;
    }

    /** Work on the receipt in the store, whoever wrote it; only one created now may still be relayed. */
    method WorkReceipt(input: Input, k: nat, returned: int, createdNow: bool) returns (done: bool)
      requires Valid() && input.position in receipts && input.principal > 0
      requires k < |allocations| && allocations[k].vault == vault && allocations[k].id == input.allocationId
      requires createdNow ==> JustCreated(input, k)
      modifies this`chain, this`written, this`doubled, this`log, this`notes, this`receipts, this`allocations, this`applied
      ensures Valid() && (old(Orderly()) ==> Orderly())
      ensures done ==> input.position in receipts && receipts[input.position].status == Confirmed
      ensures done ==> AppliedUnlessDoubled(input, k)
    {
      var r := receipts[input.position];
      if Conflicts(r, input, returned) { return false; }
      if r.status == Confirmed {
        done := MarkOutput(input.noteCommitment, r.txHash);
        return;
      }
      if r.status == Pending {
        if !createdNow { return false; }
        var sent := RelayReceipt(input, k);
        if !sent { return false; }
      }
      done := FinishReceipt(input, k);
    }

    /** `settleVaultMakerPosition` under the lease. */
    method SettlePosition(input: Input) returns (done: bool)
      requires Valid()
      modifies this`chain, this`written, this`doubled, this`log, this`notes, this`receipts, this`allocations, this`applied
      ensures Valid() && (old(Orderly()) ==> Orderly())
      ensures done ==> input.position in receipts && receipts[input.position].status == Confirmed
      ensures done ==> exists k :: AppliedUnlessDoubled(input, k)
    {
      var k, returned := CheckInput(input);
      if k.None? { return false; }
      var createdNow := input.position !in receipts;
      if createdNow {
        var created := CreateReceipt(input, k.value, returned);
        if !created { return false; }
      }
      var alive := Await();
      if !alive { return false; }
      done := WorkReceipt(input, k.value, returned, createdNow);
    }

    /**
     What every reachable state says about a series: the record lags the chain by what executed
     and was not written down, which is one transfer at most unless a relay was doubled.
     */
    lemma RecordFollowsChain(series: nat)
      requires Valid()
      ensures Recorded(series) == Some(Principal(series) - Gap(chain, written, series))
      ensures series !in doubled ==> AtMostOne(Unfinished(chain, written, series))
      ensures series !in doubled ==>
        (Recorded(series) == Some(Principal(series)) <==> Unfinished(chain, written, series) == {})
    {
      GapIsUnfinished(allocations, vault, chain, written, series);
      if series !in doubled {
        assert Unfinished(chain, written, series) <= Pendings(chain, written, series);
        AgreementMeansFinished(allocations, vault, chain, written, series);
      }
    }

    /** Nor can it become two there, whatever executes, dies, is written down or moves the market from now on. */
    lemma OneTransferForever(series: nat, market: Market)
      requires Valid() && series !in doubled
      ensures !MakerFutures.CanReachTwo(MakerFutures.Future(chain, market, written), series)
    {
      MakerFutures.TwoUnfinishedExactly(MakerFutures.Future(chain, market, written), series);
      assert AtMostOne(Pendings(chain, written, series));
    }

    // ----- One pass of the manager (provisionOnce) -----

    predicate Active(a: Allocation) {
      a.vault == vault && a.status != Closed
    }

    /** Drain one allocation and settle it once its notes are recovered; an error leaves it for the next pass. */
    method RecoverOne(id: nat) returns (goOn: bool)
      requires Valid()
      modifies this`chain, this`written, this`doubled, this`log, this`notes, this`allocations
      ensures Valid() && (old(Orderly()) ==> Orderly())
    {
      var leased: bool := *;
      if !leased { return false; }
      var drained := BeginDrain(id);
      if !drained { return false; }
      var alive := Await();
      if !alive { return false; }
      if exists c | c in notes :: ActiveNote(notes[c], id) { return true; }
      var returned: nat := *;
      var settled, read, seen := SettleVaultMaker(id, returned);
      goOn := *;
    }

    /** The recovery loops: every open allocation of a series with requested withdrawals, and every draining one. */
    method Recover(currentSeries: nat) returns (goOn: bool)
      requires Valid()
      modifies this`chain, this`written, this`doubled, this`log, this`notes, this`allocations
      ensures Valid() && (old(Orderly()) ==> Orderly())
    {
      var before := allocations;
      for series := 0 to currentSeries + 1
        invariant Valid() && (old(Orderly()) ==> Orderly())
      {
        var pending: bool := *;
        for i := 0 to |before|
          invariant Valid() && (old(Orderly()) ==> Orderly())
        {
          var a := before[i];
          if Active(a) && a.series == series && (pending || a.status == Draining) {
            goOn := RecoverOne(a.id);
            if !goOn { return; }
          }
        }
      }
      goOn := true;
    }

    /** Nothing executed in this series is missing from the record, on balance. */
    ghost predicate Level(series: nat)
      reads this
      requires ChainOk(chain, written)
    {
      Gap(chain, written, series) == 0
    }

    ghost predicate AllLevel(n: nat)
      reads this
      requires n <= |allocations| && ChainOk(chain, written)
    {
      forall i | 0 <= i < n && Active(allocations[i]) :: Level(allocations[i].series)
    }

    /** The comparison of record and chain before anything new is started. */
    method SeriesAgree(currentSeries: nat) returns (agree: bool)
      requires Valid()
      ensures agree <==> Level(currentSeries) && AllLevel(|allocations|)
      ensures agree && currentSeries !in doubled ==> Unfinished(chain, written, currentSeries) == {}
    {
      agree := Recorded(currentSeries) == Some(Principal(currentSeries));
      RecordFollowsChain(currentSeries);
      for i := 0 to |allocations|
        invariant agree <==> Level(currentSeries) && AllLevel(i)
        invariant agree && currentSeries !in doubled ==> Unfinished(chain, written, currentSeries) == {}
      {
        var a := allocations[i];
        GapIsUnfinished(allocations, vault, chain, written, a.series);
        if Active(a) && Recorded(a.series) != Some(Principal(a.series)) { agree := false; }
      }
    }

    /** The allocations whose registration is not complete. */
    method FindIncomplete() returns (count: nat, first: nat)
      ensures count == 0 <==> AllComplete()
      ensures count > 0 ==> first < |allocations| && Incomplete(allocations[first], vault)
      ensures count <= 1 ==> forall i | 0 <= i < |allocations| && Incomplete(allocations[i], vault) :: i == first
    {
      count, first := 0, 0;
      for i := 0 to |allocations|
        invariant count == 0 <==> forall j | 0 <= j < i :: !Incomplete(allocations[j], vault)
        invariant count > 0 ==> first < i && Incomplete(allocations[first], vault)
        invariant count <= 1 ==> forall j | 0 <= j < i && Incomplete(allocations[j], vault) :: j == first
      {
        if Incomplete(allocations[i], vault) {
          if count == 0 { first := i; }
          count := count + 1;
        }
      }
    }

    /** `claimVaultMakerFundingEpoch`. */
    method ClaimEpoch(epoch: nat) returns (claimed: bool)
      modifies this`claimedEpoch
      ensures claimed <==> old(claimedEpoch).None? || old(claimedEpoch).value < epoch
      ensures claimedEpoch == if claimed then Some(epoch) else old(claimedEpoch)
    {
      claimed := claimedEpoch.None? || claimedEpoch.value < epoch;
      if claimed { claimedEpoch := Some(epoch); }
    }

    /** The last part of a pass: lend once an epoch, deposit the note, register it. */
    method FundNext(amount: int, series: nat, epoch: nat) returns (done: bool)
      requires Valid()
      modifies this
      ensures Valid() && (old(Orderly() && AllComplete()) ==> Orderly()) && (old(Paced()) ==> Paced())
    {
      done := false;
      ghost var paced, funded, last := Paced(), fundedEpochs, claimedEpoch;
      var claimed := ClaimEpoch(epoch);
      if !claimed { return; }
      if paced { ClaimPaces(funded, last, epoch); }
      var made := Allocate(amount, series, epoch);
      if !made { return; }
      done := DepositAllocation(|allocations| - 1);
    }

    /**
     How much to lend now; None where the pass ends without lending.  The amount passes the
     amount guards of `allocate` and fills the ready notes up to the target at most, and no
     larger amount would.
     */
    method ChooseAmount(currentSeries: nat, minimumReady: int)
      returns (amount: Option<int>, vaultReads: VaultReads, ready: int)
      ensures amount.Some? ==>
        && amount.value > 0 && vaultReads.seriesPrincipal == Principal(currentSeries) && vaultReads.seriesPending == 0
        && ReserveTarget(vaultReads.totalAssets, vaultReads.limitBps, minimumReady).Ok?
        && var needed := ReserveTarget(vaultReads.totalAssets, vaultReads.limitBps, minimumReady).value - ready;
           forall more | more > 0 :: more <= amount.value <==> more <= needed && AmountGuards(vaultReads, more)
    {
      amount := None;
      var reads0: VaultReads, ready0: int := *, *;
      var current := reads0.(seriesPrincipal := Principal(currentSeries));
      vaultReads, ready := current, ready0;
      if exists c | c in notes :: notes[c].status == NotePending && LinkedToActive(notes[c]) { return; }
      if exists i | 0 <= i < |allocations| :: Active(allocations[i]) && allocations[i].series == currentSeries
                                              && allocations[i].status == Draining { return; }
      var target := ReserveTarget(current.totalAssets, current.limitBps, minimumReady);
      if current.seriesPending != 0 || target.Err? || ready0 >= target.value { return; }
      var topUp := TopUpAmount(current, current.seriesPrincipal + current.seriesLiquid, ready0, target.value);
      forall more | more > 0 ensures more <= topUp <==> more <= target.value - ready0 && AmountGuards(current, more) {
        TopUpIsLargestAccepted(current, ready0, target.value, more);
      }
      if topUp > 0 { amount := Some(topUp); }
    }

    predicate LinkedToActive(n: MakerNote)
      reads this
    {
      n.allocationId.Some? &&
      exists i :: 0 <= i < |allocations| && Active(allocations[i]) && allocations[i].id == n.allocationId.value
    }

    /** `provisionOnce` inside its lease. */
    method Provision(minimumReady: int, now: int, later: int, interval: int) returns (done: bool)
      requires Valid()
      modifies this
      ensures Valid() && (old(Orderly()) ==> Orderly()) && (old(Paced()) ==> Paced())
    {
      done := false;
      var epoch := FundingEpoch(now, interval);
      if epoch.Err? { return; }
      var positionReady: bool := *;
      if positionReady {
        var input: Input := *;
        done := SettlePosition(input);
        return;
      }
      var lastSeries: nat := *;
      var goOn := Recover(lastSeries);
      if !goOn { return; }
      var currentSeries: nat := *;
      var agree := SeriesAgree(currentSeries);
      if !agree { return; }
      var count, first := FindIncomplete();
      if count > 1 { return; }
      if count == 1 {
        done := ResumeAllocation(first);
        return;
      }
      var amount, vaultReads, ready := ChooseAmount(currentSeries, minimumReady);
      if amount.None? || FundingEpoch(later, interval) != epoch { return; }
      done := FundNext(amount.value, currentSeries, epoch.value);
    }

    /** Any number of passes, each of which may die anywhere. */
    method Serve(passes: nat)
      requires Valid() && Orderly() && Paced()
      modifies this
      ensures Valid() && Orderly() && Paced()
    {
      for pass := 0 to passes
        invariant Valid() && Orderly() && Paced()
      {
        var minimumReady: int, now: int, later: int, interval: int := *, *, *, *;
        var done := Provision(minimumReady, now, later, interval);
        var alive := Await();
      }
    }
  }

  /** The funded epochs strictly grow and never pass the epoch that was claimed last. */
  predicate EpochsPaced(funded: seq<nat>, claimed: Option<nat>) {
    && (forall i, j | 0 <= i < j < |funded| :: funded[i] < funded[j])
    && (forall i | 0 <= i < |funded| :: claimed.Some? && funded[i] <= claimed.value)
  }

  /** Funding in an epoch that was claimed just now. */
  lemma ClaimPaces(funded: seq<nat>, claimed: Option<nat>, epoch: nat)
    requires EpochsPaced(funded, claimed) && (claimed.None? || claimed.value < epoch)
    ensures EpochsPaced(funded, Some(epoch)) && EpochsPaced(funded + [epoch], Some(epoch))
  {
  }

  datatype Plan = DepositIt | RegisterIt(commitment: nat)

  predicate Open(a: Allocation) {
    a.status == Outstanding && a.registeredAmount == 0 && a.amount > 0 && a.noteCommitments == {}
  }

  function PendingNote(a: Allocation): MakerNote {
    MakerNote(Some(a.id), a.amount, a.asset, None, None, None, None, None, None, NotePending, a.maker)
  }

  function ClosedDocument(a: Allocation): Allocation {
    a.(status := Closed, remainingPrincipal := Some(0))
  }

  lemma NotesStay(notes: map<nat, MakerNote>)
    requires CloseOutputsHeld(notes)
    ensures NotesMove(notes, notes)
  {
  }
}
