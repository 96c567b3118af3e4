/** The invariant holds in every run, and what it means for the settlement of a position. */
module PositionReceiptsTheorems {
  import opened Common
  import opened VaultBacking
  import opened PositionReceipts
  import opened PositionReceiptsProof
  import opened PositionReceiptsSteps
  import opened PositionReceiptsRuns

  // ----- Who may relay -----

  /** How one step moves the right to relay. */
  ghost predicate OwnershipMoves(b: Books, v: Books, p: Proc, q: Proc) {
    && b.receipts.Keys <= v.receipts.Keys
    && (v.relayed == b.relayed
        || (Owned(p).Some? && Owned(q).None? && v.relayed == b.relayed + [Owned(p).value]))
    && (Owned(q).Some? ==>
          && v.relayed == b.relayed
          && (Owned(q) == Owned(p) || (Owned(q).value in v.receipts && Owned(q).value !in b.receipts)))
  }

  lemma PreparationOwnership(w: World, l: Locals, next: Preparation, c: Choice)
    ensures OwnershipMoves(w.books, NextBooks(w, Preparing(l, next), c), Preparing(l, next),
                           AfterPreparation(w, l, next, c))
  {
  }

  lemma SettlementOwnership(w: World, l: Locals, r: Receipt, at: Settlement, c: Choice)
    ensures OwnershipMoves(w.books, SettlementBooks(w, l, r, at, c), Settling(l, r, at),
                           AfterSettlement(w, l, r, at, c))
  {
  }

  lemma {:induction false} StepOwnership(w: World, p: Proc, c: Choice)
    ensures OwnershipMoves(w.books, NextBooks(w, p, c), p, NextProc(w, p, c))
  {
    match p
    case Preparing(l, next) => PreparationOwnership(w, l, next, c);
    case Settling(l, r, at) => SettlementOwnership(w, l, r, at, c);
    case _ =>
  }

  lemma OwnerAfter(b: Books, v: Books, procs: map<Pid, Proc>, pid: Pid, q: Proc)
    requires OwnerInv(b, procs) && RelayInv(b) && pid in procs && OwnershipMoves(b, v, procs[pid], q)
    ensures OwnerInv(v, procs[pid := q])
  {
  }

  // ----- Each action keeps the invariant -----

  lemma ProcessKeeps(w: World, p: Proc, c: Choice)
    requires BooksInv(w.books) && ProcOk(w.books, p) && (Owned(p).Some? ==> Owned(p).value !in w.books.relayed)
    ensures var v := NextBooks(w, p, c);
            BooksInv(v) && Grows(w.books, v) && ProcOk(v, NextProc(w, p, c))
  {
    match p
    case ReadingAllocations(input) =>
      GrowsReflexive(w.books);
      AfterReadAllocations(w, input);
    case Preparing(l, next) =>
      if next.Inserting? {
        InsertionAfter(w, l, next.proposed, c);
      } else {
        GrowsReflexive(w.books);
        PlainPreparationAfter(w, l, next, c);
      }
    case Settling(l, r, at) =>
      SettlementBooksAfter(w, l, r, at, c);
      SettlementAfter(w, l, r, at, c);
    case _ => GrowsReflexive(w.books);
  }

  lemma StepKeeps(w: World, pid: Pid, c: Choice)
    requires Inv(w) && pid in w.procs
    ensures Inv(StepProc(w, pid, w.procs[pid], c))
  {
    var p := w.procs[pid];
    var v, q := NextBooks(w, p, c), NextProc(w, p, c);
    ProcessKeeps(w, p, c);
    StepOwnership(w, p, c);
    OwnerAfter(w.books, v, w.procs, pid, q);
    OthersStable(w.books, v, w.procs, pid, q);
  }

  lemma AllStable(w: Books, v: Books, procs: map<Pid, Proc>)
    requires Grows(w, v) && ProcInv(w, procs)
    ensures ProcInv(v, procs)
  {
    forall pid | pid in procs ensures ProcOk(v, procs[pid]) {
      ProcStable(w, v, procs[pid]);
    }
  }

  lemma ExecutedBooks(b: Books, hash: TxHash, accepted: bool)
    requires BooksInv(b) && hash in b.txs && b.txs[hash].state == InFlight
    requires accepted ==> b.txs[hash].entry.series in b.principal
    ensures var v := WithOutcome(b, hash, accepted); BooksInv(v) && Grows(b, v)
  {
    ExecuteMoney(b, WithOutcome(b, hash, accepted), hash, accepted);
    ExecuteGrows(b, WithOutcome(b, hash, accepted), hash, accepted);
  }

  lemma ExecutionWrites(w: World, hash: TxHash)
    ensures StepExecute(w, hash).procs == w.procs
    ensures StepExecute(w, hash).books
         == if hash !in w.books.txs || w.books.txs[hash].state != InFlight then w.books
            else WithOutcome(w.books, hash, Accepts(w, w.books.txs[hash]))
  {
  }

  lemma ExecuteKeeps(w: World, hash: TxHash)
    requires Inv(w)
    ensures Inv(StepExecute(w, hash))
  {
    ExecutionWrites(w, hash);
    if hash in w.books.txs && w.books.txs[hash].state == InFlight {
      var accepted := Accepts(w, w.books.txs[hash]);
      ExecutedBooks(w.books, hash, accepted);
      AllStable(w.books, WithOutcome(w.books, hash, accepted), w.procs);
    }
  }

  lemma DrainingKeeps(w: World, id: nat)
    requires Inv(w)
    ensures Inv(StepDrain(w, id))
  {
    var v := StepDrain(w, id);
    if v != w {
      DrainKeeps(w.books, v.books, FindAllocation(w.books.allocations, id).value);
      AllStable(w.books, v.books, w.procs);
    }
  }

  lemma SpawnKeeps(b: Books, procs: map<Pid, Proc>, pid: Pid, input: Input)
    requires OwnerInv(b, procs) && ProcInv(b, procs) && pid !in procs
    ensures OwnerInv(b, procs[pid := ReadingAllocations(input)]) && ProcInv(b, procs[pid := ReadingAllocations(input)])
  {
  }

  lemma CrashKeeps(b: Books, procs: map<Pid, Proc>, pid: Pid)
    requires OwnerInv(b, procs) && ProcInv(b, procs)
    ensures OwnerInv(b, procs - {pid}) && ProcInv(b, procs - {pid})
  {
  }

  lemma NextKeeps(w: World, a: Action)
    requires Inv(w)
    ensures Inv(Next(w, a))
  {
    match a
    case Spawn(pid, input) => if pid !in w.procs { SpawnKeeps(w.books, w.procs, pid, input); }
    case Crash(pid) => CrashKeeps(w.books, w.procs, pid);
    case Step(pid, c) => if pid in w.procs { StepKeeps(w, pid, c); }
    case Execute(hash) => ExecuteKeeps(w, hash);
    case Drain(id) => DrainingKeeps(w, id);
    case _ =>
  }

  lemma InitKeeps(w: World)
    requires Init(w)
    ensures Inv(w)
  {
    assert forall s :: InSeries({}, s) == {};
    assert forall id :: OnAllocation({}, id) == {};
  }

  lemma {:induction false} RunKeeps(w: World, actions: seq<Action>)
    requires Init(w)
    ensures Inv(Run(w, actions))
  {
    if actions == [] {
      InitKeeps(w);
    } else {
      var last := |actions| - 1;
      RunKeeps(w, actions[..last]);
      NextKeeps(Run(w, actions[..last]), actions[last]);
    }
  }

  // ----- What the invariant means -----

  /** Every interleaving relays `settle` at most once for a position. */
  lemma RelayedAtMostOnce(w: World, actions: seq<Action>)
    requires Init(w)
    ensures var relayed := Run(w, actions).books.relayed;
            forall i, j | 0 <= i < j < |relayed| :: relayed[i] != relayed[j]
  {
    RunKeeps(w, actions);
  }

  /** Each document lost exactly the amounts of the decrements written to it. */
  ghost predicate DecrementsExplain(b: Books, initial: map<nat, int>) {
    forall i | 0 <= i < |b.allocations| ::
      && b.allocations[i].id in initial
      && RemainingPrincipal(b.allocations[i])
         == Some(initial[b.allocations[i].id] - Total(OnAllocation(b.applied, b.allocations[i].id)))
  }

  /** Each written decrement is the one of a stored receipt, and no receipt has two. */
  ghost predicate OnePerReceipt(b: Books) {
    && (forall e, f | e in b.applied && f in b.applied && e.position == f.position :: e == f)
    && (forall e | e in b.applied ::
          && e.position in b.receipts && e.principal > 0
          && b.receipts[e.position].allocationId == e.allocationId
          && b.receipts[e.position].principal == e.principal)
  }

  lemma AppliedOnePerReceipt(b: Books)
    requires HistoryInv(b) && ReceiptInv(b)
    ensures OnePerReceipt(b)
  {
    ExecutedPositive(b);
  }

  /** The principal a run took off an allocation: one amount per position whose decrement was written. */
  lemma {:induction false} DecrementedOncePerReceipt(w: World, actions: seq<Action>)
    requires Init(w)
    ensures DecrementsExplain(Run(w, actions).books, w.books.initialRemaining)
    ensures OnePerReceipt(Run(w, actions).books)
  {
    var b := Run(w, actions).books;
    RunKeeps(w, actions);
    RunFixed(w, actions);
    AppliedOnePerReceipt(b);
  }

  /** A confirmed receipt was executed on the chain and written to its allocation, with its own amount. */
  lemma ConfirmedMeansApplied(w: World, actions: seq<Action>, p: Position)
    requires Init(w) && p in Run(w, actions).books.receipts
    requires Run(w, actions).books.receipts[p].status == Confirmed
    ensures var b := Run(w, actions).books;
      exists e :: e in b.applied && e in b.executed && e.position == p
                  && e.allocationId == b.receipts[p].allocationId && e.principal == b.receipts[p].principal
  {
    var b := Run(w, actions).books;
    RunKeeps(w, actions);
    assert b.origin[p].entry in b.applied;
  }

  lemma Lag(b: Books, s: nat)
    requires ChainInv(b) && RecordInv(b) && HistoryInv(b) && s in b.principal
    ensures RecordedSeriesPrincipal(b.allocations, b.vault, s).Some?
    ensures RecordedSeriesPrincipal(b.allocations, b.vault, s).value - b.principal[s]
         == Total(InSeries(b.executed - b.applied, s)) + Repeats(b.repeated, s) >= 0
  {
    ExecutedPositive(b);
    RepeatsPositive(b.repeated, b.executed, s);
    TotalSplit(InSeries(b.applied, s), InSeries(b.executed, s));
    assert InSeries(b.executed, s) - InSeries(b.applied, s) == InSeries(b.executed - b.applied, s);
    TotalPositive(InSeries(b.executed - b.applied, s));
  }

  /** Of every series, the record exceeds the chain by exactly the executed movements not yet written, and the repeated ones. */
  lemma RecordLagsChain(w: World, actions: seq<Action>, s: nat)
    requires Init(w) && s in w.books.principal
    ensures var b := Run(w, actions).books;
      && s in b.principal && RecordedSeriesPrincipal(b.allocations, b.vault, s).Some?
      && RecordedSeriesPrincipal(b.allocations, b.vault, s).value - b.principal[s]
         == Total(InSeries(b.executed - b.applied, s)) + Repeats(b.repeated, s) >= 0
  {
    RunKeeps(w, actions);
    RunFixed(w, actions);
    Lag(Run(w, actions).books, s);
  }

  // ----- When nothing is repeated -----

  /** Every relay of the run submitted at most one transaction. */
  predicate SubmitsOnce(a: Action) {
    a.Step? ==> forall h, k | h in Sent(a.choice) && k in Sent(a.choice) :: h == k
  }

  /** One transaction for each movement, executed exactly if it succeeded. */
  ghost predicate OneTxEach(b: Books) {
    && b.repeated == [] && (forall h | h in b.txs :: b.txs[h].entry.position in b.relayed)
    && (forall h, k | h in b.txs && k in b.txs && h != k :: b.txs[h].entry.position != b.txs[k].entry.position)
    && (forall h | h in b.txs && b.txs[h].entry in b.executed :: b.txs[h].state == Succeeded)
    && (forall e | e in b.executed :: e.position in b.relayed)
  }

  lemma RelayOneTx(b: Books, l: Locals, r: Receipt, c: Choice)
    requires OneTxEach(b) && AllNew(b, c) && l.input.position !in b.relayed
    requires forall h, k | h in Sent(c) && k in Sent(c) :: h == k
    ensures OneTxEach(WithRelay(b, l, r, c))
  {
    var v := WithRelay(b, l, r, c);
    assert v.relayed[|b.relayed|] == l.input.position;
    forall p | p in b.relayed ensures p in v.relayed {
      var i :| 0 <= i < |b.relayed| && b.relayed[i] == p;
      assert v.relayed[i] == p;
    }
  }

  lemma OutcomeOneTx(b: Books, hash: TxHash, accepted: bool)
    requires OneTxEach(b) && hash in b.txs && b.txs[hash].state == InFlight
    requires accepted ==> b.txs[hash].entry.series in b.principal
    ensures OneTxEach(WithOutcome(b, hash, accepted))
  {
  }

  lemma SameTxs(b: Books, v: Books)
    requires OneTxEach(b) && v.txs == b.txs && v.executed == b.executed && v.repeated == b.repeated && v.relayed == b.relayed
    ensures OneTxEach(v)
  {
  }

  lemma SettlementOneTx(w: World, l: Locals, r: Receipt, at: Settlement, c: Choice)
    requires OneTxEach(w.books) && SubmitsOnce(Step(0, c))
    requires at.Relaying? ==> l.input.position !in w.books.relayed
    ensures OneTxEach(SettlementBooks(w, l, r, at, c))
  {
    if at.Relaying? {
      RelayingWrites(w, l, r, c);
      if AllNew(w.books, c) { RelayOneTx(w.books, l, r, c); }
    } else {
      SettlementSameTxs(w, l, r, at, c);
      SameTxs(w.books, SettlementBooks(w, l, r, at, c));
    }
  }

  lemma SettlementSameTxs(w: World, l: Locals, r: Receipt, at: Settlement, c: Choice)
    requires !at.Relaying?
    ensures var b, v := w.books, SettlementBooks(w, l, r, at, c);
      v.txs == b.txs && v.executed == b.executed && v.repeated == b.repeated && v.relayed == b.relayed
  {
    match at
    case SavingHash(hash) => SavingWrites(w, l, r, hash, c);
    case ReadingAfter(got) => ReadingWrites(w, l, r, got, c);
    case Decrementing(current) => DecrementingWrites(w, l, r, current, c);
    case ClosingAllocation => ClosingWrites(w, l, r, c);
    case Confirming => ConfirmingWrites(w, l, r, c);
    case _ => OtherWrites(w, l, r, at, c);
  }

  lemma ProcessOneTx(w: World, p: Proc, c: Choice)
    requires OneTxEach(w.books) && SubmitsOnce(Step(0, c)) && (Owned(p).Some? ==> Owned(p).value !in w.books.relayed)
    ensures OneTxEach(NextBooks(w, p, c))
  {
    if p.Settling? {
      SettlementOneTx(w, p.l, p.receipt, p.at, c);
    } else {
      SameTxs(w.books, NextBooks(w, p, c));
    }
  }

  lemma ExecuteOneTx(w: World, hash: TxHash)
    requires OneTxEach(w.books)
    ensures OneTxEach(StepExecute(w, hash).books)
  {
    ExecutionWrites(w, hash);
    if hash in w.books.txs && w.books.txs[hash].state == InFlight {
      OutcomeOneTx(w.books, hash, Accepts(w, w.books.txs[hash]));
    }
  }

  lemma DrainOneTx(w: World, id: nat)
    requires OneTxEach(w.books)
    ensures OneTxEach(StepDrain(w, id).books)
  {
    SameTxs(w.books, StepDrain(w, id).books);
  }

  lemma NextOneTx(w: World, a: Action)
    requires OwnerInv(w.books, w.procs) && OneTxEach(w.books) && SubmitsOnce(a)
    ensures OneTxEach(Next(w, a).books)
  {
    match a
    case Step(pid, c) => if pid in w.procs { ProcessOneTx(w, w.procs[pid], c); }
    case Execute(hash) => ExecuteOneTx(w, hash);
    case Drain(id) => DrainOneTx(w, id);
    case _ => assert Next(w, a).books == w.books;
  }

  /** If every relay submitted at most one transaction, no movement was repeated. */
  lemma {:induction false} SubmittedOnceNeverRepeats(w: World, actions: seq<Action>)
    requires Init(w) && forall i | 0 <= i < |actions| :: SubmitsOnce(actions[i])
    ensures Run(w, actions).books.repeated == [] && OneTxEach(Run(w, actions).books)
  {
    if actions != [] {
      var last := |actions| - 1;
      SubmittedOnceNeverRepeats(w, actions[..last]);
      RunKeeps(w, actions[..last]);
      NextOneTx(Run(w, actions[..last]), actions[last]);
    }
  }

  predicate SameBase(b: Books, v: Books) {
    v.initialRemaining == b.initialRemaining && v.initialPrincipal == b.initialPrincipal && v.vault == b.vault
  }

  lemma SettlementFixed(w: World, l: Locals, r: Receipt, at: Settlement, c: Choice)
    ensures SameBase(w.books, SettlementBooks(w, l, r, at, c))
  {
  }

  lemma ProcessFixed(w: World, p: Proc, c: Choice)
    ensures SameBase(w.books, NextBooks(w, p, c))
  {
    if p.Settling? { SettlementFixed(w, p.l, p.receipt, p.at, c); }
  }

  lemma NextFixed(w: World, a: Action)
    ensures SameBase(w.books, Next(w, a).books)
  {
    match a
    case Step(pid, c) => if pid in w.procs { ProcessFixed(w, w.procs[pid], c); }
    case Execute(hash) => ExecutionWrites(w, hash);
    case _ =>
  }

  /** No step changes what the history is measured against. */
  lemma {:induction false} RunFixed(w: World, actions: seq<Action>)
    ensures SameBase(w.books, Run(w, actions).books)
  {
    if actions != [] {
      RunFixed(w, actions[..|actions| - 1]);
      NextFixed(Run(w, actions[..|actions| - 1]), actions[|actions| - 1]);
    }
  }

  // ----- Receipts only move forward -----

  function Rank(s: ReceiptStatus): nat {
    match s
    case Pending => 0
    case Submitted => 1
    case Confirmed => 2
  }

  /** A receipt keeps its terms, its status moves by at most one, and its hash is set with the first move only. */
  predicate AdvancesOneStep(a: Receipt, b: Receipt) {
    && a.(status := b.status, txHash := b.txHash) == b
    && (a == b
        || (a.status == Pending && b.status == Submitted && a.txHash.None? && b.txHash.Some?)
        || (a.status == Submitted && b.status == Confirmed && a.txHash == b.txHash))
  }

  /** Only the hash and the confirmation rewrite a receipt. */
  lemma OtherSettlement(w: World, l: Locals, r: Receipt, at: Settlement, c: Choice)
    requires !at.SavingHash? && !at.Confirming?
    ensures SettlementBooks(w, l, r, at, c).receipts == w.books.receipts
  {
  }

  lemma HashAdvances(b: Books, position: Position, hash: TxHash, p: Position)
    requires p in b.receipts
    ensures p in WithHash(b, position, hash).receipts
    ensures AdvancesOneStep(b.receipts[p], WithHash(b, position, hash).receipts[p])
  {
  }

  lemma ConfirmationAdvances(b: Books, position: Position, hash: Option<TxHash>, p: Position)
    requires p in b.receipts
    ensures p in WithConfirmed(b, position, hash).receipts
    ensures AdvancesOneStep(b.receipts[p], WithConfirmed(b, position, hash).receipts[p])
  {
  }

  lemma SettlementAdvances(w: World, l: Locals, r: Receipt, at: Settlement, c: Choice, p: Position)
    requires p in w.books.receipts
    ensures var v := SettlementBooks(w, l, r, at, c);
            p in v.receipts && AdvancesOneStep(w.books.receipts[p], v.receipts[p])
  {
    if at.SavingHash? {
      HashAdvances(w.books, l.input.position, at.hash, p);
    } else if at.Confirming? {
      ConfirmationAdvances(w.books, l.input.position, r.txHash, p);
    } else {
      OtherSettlement(w, l, r, at, c);
    }
  }

  lemma ProcessAdvances(w: World, q: Proc, c: Choice, p: Position)
    requires p in w.books.receipts
    ensures var v := NextBooks(w, q, c);
            p in v.receipts && AdvancesOneStep(w.books.receipts[p], v.receipts[p])
  {
    if q.Settling? { SettlementAdvances(w, q.l, q.receipt, q.at, c, p); }
  }

  lemma DrainedReceipts(w: World, id: nat)
    ensures StepDrain(w, id).books.receipts == w.books.receipts
  {
  }

  /** Any step from any state: receipts are never removed and advance by at most one status. */
  lemma {:induction false} ReceiptsAdvance(w: World, a: Action, p: Position)
    requires p in w.books.receipts
    ensures p in Next(w, a).books.receipts && AdvancesOneStep(w.books.receipts[p], Next(w, a).books.receipts[p])
  {
    match a
    case Step(pid, c) => if pid in w.procs { ProcessAdvances(w, w.procs[pid], c, p); }
    case Execute(hash) => ExecutionWrites(w, hash);
    case Drain(id) => DrainedReceipts(w, id);
    case _ =>
  }

  /** Over any continuation: terms fixed, rank never lower, a hash once stored never changed. */
  lemma {:induction false} ReceiptsOnlyMoveForward(w: World, actions: seq<Action>, p: Position)
    requires p in w.books.receipts
    ensures p in Run(w, actions).books.receipts
    ensures var a, b := w.books.receipts[p], Run(w, actions).books.receipts[p];
      && a.(status := b.status, txHash := b.txHash) == b
      && Rank(a.status) <= Rank(b.status)
      && (a.status == b.status ==> a == b)
      && (a.status != Pending ==> a.txHash == b.txHash)
  {
    if actions != [] {
      var last := |actions| - 1;
      ReceiptsOnlyMoveForward(w, actions[..last], p);
      ReceiptsAdvance(Run(w, actions[..last]), actions[last], p);
    }
  }
}
