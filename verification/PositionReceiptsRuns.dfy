/** What the books are, and what a process knows, after each step of a process. */
module PositionReceiptsRuns {
  import opened Common
  import opened VaultBacking
  import opened PositionReceipts
  import opened PositionReceiptsProof
  import opened PositionReceiptsSteps

  // ----- What a process without a receipt knows after its step -----

  lemma AfterReadAllocations(w: World, input: Input)
    requires AllocationInv(w.books) && RecordInv(w.books)
    ensures ProcOk(w.books, ReadAllocations(w, input))
  {
    var b := w.books;
    var found := FindAllocation(b.allocations, input.allocationId);
    if found.Some? {
      assert SameIdentity(b.allocations[found.value], b.allocations[found.value]);
    }
  }

  lemma AfterReadNote(w: World, l: Locals)
    requires LocalsOk(w.books, l)
    ensures ProcOk(w.books, ReadNote(w, l))
  {
  }

  /** Two documented copies of one allocation describe the same movement. */
  lemma EntryAgrees(b: Books, l: Locals, r: Receipt)
    requires DistinctIds(b.allocations) && HistoryInv(b) && ReceiptInv(b) && LocalsOk(b, l)
    requires l.input.position in b.receipts && b.receipts[l.input.position] == r
    requires r.allocationId == l.allocation.id && r.principal == l.input.principal
    ensures Holds(b, l, r)
  {
    var o := b.origin[l.input.position];
    assert OriginOk(b.allocations, b.vault, b.applied, l.input.position, o);
    var i :| 0 <= i < |b.allocations| && SameIdentity(b.allocations[i], l.allocation);
    assert b.allocations[i].id == EntryOf(l).allocationId;
    SameSeries(b.allocations, b.vault, EntryOf(l), o.entry);
  }

  /** A receipt found in the store never entitles its finder to relay. */
  lemma AfterFound(w: World, l: Locals)
    requires DistinctIds(w.books.allocations) && HistoryInv(w.books) && ReceiptInv(w.books) && LocalsOk(w.books, l)
    ensures ProcOk(w.books, Decide(l, LookUp(w, l.input.position), false))
  {
    var b, p := w.books, Decide(l, LookUp(w, l.input.position), false);
    if p.Settling? {
      EntryAgrees(b, l, b.receipts[l.input.position]);
      assert ReceiptOk(b.receipts[l.input.position], b.origin[l.input.position],
                       b.initialRemaining, b.initialPrincipal, b.txs, b.applied);
    }
  }

  /** Without a receipt in the store, no decrement of this position was ever seen. */
  lemma AbsentIsUnseen(b: Books, l: Locals)
    requires HistoryInv(b) && b.origin.Keys == b.receipts.Keys && l.seen <= b.applied && l.input.position !in b.receipts
    ensures Unseen(l)
  {
    assert EntriesOk(b.executed, b.origin);
  }

  lemma AfterAbsent(w: World, l: Locals)
    requires LocalsOk(w.books, l) && l.input.position !in w.books.receipts && Unseen(l)
    ensures ProcOk(w.books, FindReceipt(w, l))
  {
  }

  lemma AfterPropose(w: World, l: Locals, got: seq<int>)
    requires LocalsOk(w.books, l) && Unseen(l) && Fits(l)
    requires |got| == 3 && l.allocation.series in w.books.initialPrincipal
    ensures ProcOk(w.books, Propose(w, l, got))
  {
  }

  lemma AfterBalance(w: World, l: Locals, got: seq<int>)
    requires LocalsOk(w.books, l) && Unseen(l) && Fits(l)
    requires w.books.principal.Keys == w.books.initialPrincipal.Keys
    ensures ProcOk(w.books, AfterReadBefore(w, l, got))
  {
    var value := ReadBalance(w, l.allocation.series, |got|);
    if value.Some? && |got| == 2 {
      AfterPropose(w, l, got + [value.value]);
    }
  }

  lemma InsertedBooks(b: Books, l: Locals, r: Receipt)
    requires BooksInv(b) && LocalsOk(b, l) && PreparingOk(b, l, Inserting(r)) && l.input.position !in b.receipts
    ensures var v := WithReceipt(b, l, r); BooksInv(v) && Grows(b, v) && Holds(v, l, r)
  {
    InsertKeeps(b, WithReceipt(b, l, r), l, r);
    InsertGrows(b, WithReceipt(b, l, r), l, r);
  }

  lemma PlainPreparationAfter(w: World, l: Locals, next: Preparation, c: Choice)
    requires DistinctIds(w.books.allocations) && HistoryInv(w.books) && ReceiptInv(w.books)
    requires w.books.principal.Keys == w.books.initialPrincipal.Keys
    requires LocalsOk(w.books, l) && PreparingOk(w.books, l, next) && !next.Inserting?
    ensures ProcOk(w.books, AfterPreparation(w, l, next, c))
  {
    match next
    case ReadingNote => AfterReadNote(w, l);
    case VerifyingClose =>
    case FindingReceipt =>
      if l.input.position in w.books.receipts { AfterFound(w, l); }
      else { AbsentIsUnseen(w.books, l); AfterAbsent(w, l); }
    case ReadingBefore(got) => AfterBalance(w, l, got);
    case FindingDuplicate => AfterFound(w, l);
  }

  /** The creator of a receipt works on it; a process that was not the first looks again. */
  lemma AfterInsertOk(b: Books, v: Books, l: Locals, r: Receipt)
    requires r.status == Pending && LocalsOk(v, l)
    requires l.input.position !in b.receipts ==> Holds(v, l, r)
    ensures ProcOk(v, AfterInsert(b, l, r))
  {
  }

  /** Creating the receipt, or meeting the one another process created first. */
  lemma InsertionAfter(w: World, l: Locals, r: Receipt, c: Choice)
    requires BooksInv(w.books) && LocalsOk(w.books, l) && PreparingOk(w.books, l, Inserting(r))
    ensures var v := NextBooks(w, Preparing(l, Inserting(r)), c);
            BooksInv(v) && Grows(w.books, v) && ProcOk(v, AfterInsert(w.books, l, r))
  {
    var v := NextBooks(w, Preparing(l, Inserting(r)), c);
    if l.input.position !in w.books.receipts {
      InsertedBooks(w.books, l, r);
    } else {
      GrowsReflexive(w.books);
    }
    AfterInsertOk(w.books, v, l, r);
  }

  // ----- What the books are after a step on a receipt -----

  /** A successful compare-and-set finds the remaining principal that was read. */
  lemma MatchedRemaining(b: Books, l: Locals, current: Allocation, before: int)
    requires DistinctIds(b.allocations) && Documented(b.allocations, l.allocation)
    requires SameIdentity(l.allocation, current) && RemainingPrincipal(current) == Some(before)
    requires Matched(b, current).Some?
    ensures var d := b.allocations[Matched(b, current).value];
            d.id == l.allocation.id && d.status == Outstanding && RemainingPrincipal(d) == Some(before)
  {
    StoredIdentity(b, l, Matched(b, current).value);
  }

  lemma DecrementReady(b: Books, l: Locals, r: Receipt, current: Allocation)
    requires AllocationInv(b) && HistoryInv(b) && ReceiptInv(b) && Holds(b, l, r)
    requires SettlingOk(b, l, r, Decrementing(current)) && Matched(b, current).Some?
    ensures EntryOf(l) !in b.applied && 0 <= r.allocationPrincipalBefore - l.input.principal
  {
    MatchedRemaining(b, l, current, r.allocationPrincipalBefore);
    EntryTerms(b, l, r);
    DecrementIsFresh(b, l, r, Matched(b, current).value);
  }

  lemma DecrementBooks(b: Books, l: Locals, r: Receipt, current: Allocation)
    requires MoneyInv(b) && PaperInv(b) && Holds(b, l, r)
    requires SettlingOk(b, l, r, Decrementing(current)) && Matched(b, current).Some?
    ensures var v := WithDecrement(b, l, Matched(b, current).value, r.allocationPrincipalBefore - l.input.principal);
            MoneyInv(v) && PaperInv(v) && Grows(b, v)
  {
    var k, after := Matched(b, current).value, r.allocationPrincipalBefore - l.input.principal;
    MatchedRemaining(b, l, current, r.allocationPrincipalBefore);
    DecrementReady(b, l, r, current);
    DecrementKeeps(b, WithDecrement(b, l, k, after), l, k, after);
    DecrementGrows(b, WithDecrement(b, l, k, after), l, k, after);
  }

  lemma RelayBooks(b: Books, l: Locals, r: Receipt, c: Choice)
    requires BooksInv(b) && Holds(b, l, r) && l.input.position !in b.relayed && AllNew(b, c)
    ensures var v := WithRelay(b, l, r, c); BooksInv(v) && Grows(b, v)
  {
    RelayKeeps(b, WithRelay(b, l, r, c), l, r, c);
    RelayGrows(b, WithRelay(b, l, r, c), l, r, c);
  }

  lemma HashBooks(b: Books, l: Locals, r: Receipt, hash: TxHash)
    requires BooksInv(b) && Holds(b, l, r) && SettlingOk(b, l, r, SavingHash(hash))
    ensures var v := WithHash(b, l.input.position, hash); BooksInv(v) && Grows(b, v)
  {
    SaveHashKeeps(b, WithHash(b, l.input.position, hash), l, r, hash);
    ReceiptsApart(b, WithHash(b, l.input.position, hash));
  }

  lemma VerifiedBooks(w: World, l: Locals, r: Receipt)
    requires BooksInv(w.books) && Holds(w.books, l, r) && EntryOf(l) in w.books.executed && ReadsAsExpected(w, l, r)
    ensures var v := WithVerified(w.books, l); BooksInv(v) && Grows(w.books, v)
  {
    VerifyKeeps(w.books, WithVerified(w.books, l), l, r);
    VerifiedApart(w.books, WithVerified(w.books, l));
  }

  lemma ConfirmedBooks(b: Books, l: Locals, r: Receipt)
    requires BooksInv(b) && Holds(b, l, r) && EntryOf(l) in b.applied
    ensures var v := WithConfirmed(b, l.input.position, r.txHash); BooksInv(v) && Grows(b, v)
  {
    ConfirmKeeps(b, WithConfirmed(b, l.input.position, r.txHash), l, r);
    ReceiptsApart(b, WithConfirmed(b, l.input.position, r.txHash));
  }

  lemma ClosedBooks(b: Books, l: Locals, r: Receipt)
    requires BooksInv(b) && Holds(b, l, r) && Final(b, l, r) && Closable(b, l.allocation.id).Some?
    ensures var v := WithClosed(b, Closable(b, l.allocation.id).value); BooksInv(v) && Grows(b, v)
  {
    var k := Closable(b, l.allocation.id).value;
    CloseKeeps(b, WithClosed(b, k), l, r, k);
  }

  // The one function by which each step on a receipt writes: what the dispatch comes to in
  // one case, so that the lemmas below need not unfold all of it.

  lemma RelayingWrites(w: World, l: Locals, r: Receipt, c: Choice)
    ensures SettlementBooks(w, l, r, Relaying, c)
         == if AllNew(w.books, c) then WithRelay(w.books, l, r, c) else w.books
  {
  }

  lemma SavingWrites(w: World, l: Locals, r: Receipt, hash: TxHash, c: Choice)
    ensures SettlementBooks(w, l, r, SavingHash(hash), c) == WithHash(w.books, l.input.position, hash)
  {
  }

  lemma ReadingWrites(w: World, l: Locals, r: Receipt, got: seq<int>, c: Choice)
    ensures SettlementBooks(w, l, r, ReadingAfter(got), c)
         == if got == [] && ReadsAsExpected(w, l, r) then WithVerified(w.books, l) else w.books
  {
  }

  lemma DecrementingWrites(w: World, l: Locals, r: Receipt, current: Allocation, c: Choice)
    ensures SettlementBooks(w, l, r, Decrementing(current), c)
         == if Matched(w.books, current).None? then w.books
            else WithDecrement(w.books, l, Matched(w.books, current).value, r.allocationPrincipalBefore - l.input.principal)
  {
  }

  lemma ClosingWrites(w: World, l: Locals, r: Receipt, c: Choice)
    ensures SettlementBooks(w, l, r, ClosingAllocation, c)
         == if Closable(w.books, l.allocation.id).None? then w.books
            else WithClosed(w.books, Closable(w.books, l.allocation.id).value)
  {
  }

  lemma ConfirmingWrites(w: World, l: Locals, r: Receipt, c: Choice)
    ensures SettlementBooks(w, l, r, Confirming, c) == WithConfirmed(w.books, l.input.position, r.txHash)
  {
  }

  lemma RelayAfter(w: World, l: Locals, r: Receipt, c: Choice)
    requires BooksInv(w.books) && Holds(w.books, l, r) && l.input.position !in w.books.relayed
    ensures var v := SettlementBooks(w, l, r, Relaying, c); BooksInv(v) && Grows(w.books, v)
  {
    RelayingWrites(w, l, r, c);
    if AllNew(w.books, c) { RelayBooks(w.books, l, r, c); } else { GrowsReflexive(w.books); }
  }

  lemma SavingAfter(w: World, l: Locals, r: Receipt, hash: TxHash, c: Choice)
    requires BooksInv(w.books) && Holds(w.books, l, r) && SettlingOk(w.books, l, r, SavingHash(hash))
    ensures var v := SettlementBooks(w, l, r, SavingHash(hash), c); BooksInv(v) && Grows(w.books, v)
  {
    SavingWrites(w, l, r, hash, c);
    HashBooks(w.books, l, r, hash);
  }

  lemma ReadingAfterwards(w: World, l: Locals, r: Receipt, got: seq<int>, c: Choice)
    requires BooksInv(w.books) && Holds(w.books, l, r) && EntryOf(l) in w.books.executed
    ensures var v := SettlementBooks(w, l, r, ReadingAfter(got), c); BooksInv(v) && Grows(w.books, v)
  {
    ReadingWrites(w, l, r, got, c);
    if got == [] && ReadsAsExpected(w, l, r) { VerifiedBooks(w, l, r); } else { GrowsReflexive(w.books); }
  }

  lemma DecrementAfter(w: World, l: Locals, r: Receipt, current: Allocation, c: Choice)
    requires BooksInv(w.books) && Holds(w.books, l, r) && SettlingOk(w.books, l, r, Decrementing(current))
    ensures var v := SettlementBooks(w, l, r, Decrementing(current), c); BooksInv(v) && Grows(w.books, v)
  {
    DecrementingWrites(w, l, r, current, c);
    if Matched(w.books, current).None? { GrowsReflexive(w.books); } else { DecrementBooks(w.books, l, r, current); }
  }

  lemma CloseAfter(w: World, l: Locals, r: Receipt, c: Choice)
    requires BooksInv(w.books) && Holds(w.books, l, r) && Final(w.books, l, r)
    ensures var v := SettlementBooks(w, l, r, ClosingAllocation, c); BooksInv(v) && Grows(w.books, v)
  {
    ClosingWrites(w, l, r, c);
    if Closable(w.books, l.allocation.id).None? { GrowsReflexive(w.books); } else { ClosedBooks(w.books, l, r); }
  }

  lemma ConfirmAfter(w: World, l: Locals, r: Receipt, c: Choice)
    requires BooksInv(w.books) && Holds(w.books, l, r) && EntryOf(l) in w.books.applied
    ensures var v := SettlementBooks(w, l, r, Confirming, c); BooksInv(v) && Grows(w.books, v)
  {
    ConfirmingWrites(w, l, r, c);
    ConfirmedBooks(w.books, l, r);
  }

  /** Every other step on a receipt only reads. */
  lemma OtherWrites(w: World, l: Locals, r: Receipt, at: Settlement, c: Choice)
    requires !at.Relaying? && !at.SavingHash? && !at.ReadingAfter?
    requires !at.Decrementing? && !at.ClosingAllocation? && !at.Confirming?
    ensures SettlementBooks(w, l, r, at, c) == w.books
  {
  }

  lemma SettlementBooksAfter(w: World, l: Locals, r: Receipt, at: Settlement, c: Choice)
    requires BooksInv(w.books) && Holds(w.books, l, r) && SettlingOk(w.books, l, r, at)
    requires at.Relaying? ==> l.input.position !in w.books.relayed
    ensures var v := SettlementBooks(w, l, r, at, c); BooksInv(v) && Grows(w.books, v)
  {
    match at
    case Relaying => RelayAfter(w, l, r, c);
    case SavingHash(hash) => SavingAfter(w, l, r, hash, c);
    case ReadingAfter(got) => ReadingAfterwards(w, l, r, got, c);
    case Decrementing(current) => DecrementAfter(w, l, r, current, c);
    case ClosingAllocation => CloseAfter(w, l, r, c);
    case Confirming => ConfirmAfter(w, l, r, c);
    case _ =>
      OtherWrites(w, l, r, at, c);
      GrowsReflexive(w.books);
  }

  // ----- What a process that works on a receipt knows after its step -----

  /** The decrement is skipped only where the document shows it done. */
  lemma FoundLess(b: Books, l: Locals, r: Receipt)
    requires AfterFindPrincipal(b, l, r) == Settling(l, r, MarkingSettled)
    ensures FindAllocation(b.allocations, l.allocation.id).Some?
    ensures var k := FindAllocation(b.allocations, l.allocation.id).value;
            RemainingPrincipal(b.allocations[k]) == Some(r.allocationPrincipalBefore - l.input.principal)
  {
  }

  /** Skipping the decrement is right: the receipt was applied already. */
  lemma FoundApplied(b: Books, l: Locals, r: Receipt)
    requires AllocationInv(b) && HistoryInv(b) && OrderInv(b) && ReceiptInv(b) && Holds(b, l, r) && EntryOf(l) in b.verified
    requires AfterFindPrincipal(b, l, r) == Settling(l, r, MarkingSettled)
    ensures EntryOf(l) in b.applied
  {
    FoundLess(b, l, r);
    SkipMeansApplied(b, l, r, FindAllocation(b.allocations, l.allocation.id).value);
  }

  lemma FoundDocument(b: Books, l: Locals, r: Receipt)
    requires DistinctIds(b.allocations) && Documented(b.allocations, l.allocation)
    ensures var q := AfterFindPrincipal(b, l, r);
            || q.Failed? || q == Settling(l, r, MarkingSettled)
            || (q.Settling? && q == Settling(l, r, Decrementing(q.at.current)) && SameIdentity(l.allocation, q.at.current)
                && RemainingPrincipal(q.at.current) == Some(r.allocationPrincipalBefore))
  {
    var found := FindAllocation(b.allocations, l.allocation.id);
    if found.Some? {
      StoredIdentity(b, l, found.value);
    }
  }

  lemma AfterFind(b: Books, l: Locals, r: Receipt)
    requires AllocationInv(b) && HistoryInv(b) && OrderInv(b) && ReceiptInv(b)
    requires Holds(b, l, r) && Hashed(b, l, r) && EntryOf(l) in b.verified
    ensures ProcOk(b, AfterFindPrincipal(b, l, r))
  {
    FoundDocument(b, l, r);
    if AfterFindPrincipal(b, l, r) == Settling(l, r, MarkingSettled) {
      FoundApplied(b, l, r);
    }
  }

  /** Every other step on a receipt, over the books it leaves. */
  lemma AfterPlainSettlement(w: World, v: Books, l: Locals, r: Receipt, at: Settlement, c: Choice)
    requires Holds(v, l, r) && SettlingOk(v, l, r, at) && !at.FindingPrincipal?
    requires v == SettlementBooks(w, l, r, at, c)
    requires at.CheckingTx? ==>
      forall h | h in w.books.txs && w.books.txs[h].state == Succeeded :: w.books.txs[h].entry in v.executed
    ensures ProcOk(v, AfterSettlement(w, l, r, at, c))
  {
  }

  lemma SettlementAfter(w: World, l: Locals, r: Receipt, at: Settlement, c: Choice)
    requires BooksInv(w.books) && Holds(w.books, l, r) && SettlingOk(w.books, l, r, at)
    requires Grows(w.books, SettlementBooks(w, l, r, at, c))
    ensures ProcOk(SettlementBooks(w, l, r, at, c), AfterSettlement(w, l, r, at, c))
  {
    var v := SettlementBooks(w, l, r, at, c);
    if at.FindingPrincipal? {
      AfterFind(w.books, l, r);
    } else {
      HoldsStable(w.books, v, l, r);
      SettlingStable(w.books, v, l, r, at);
      AfterPlainSettlement(w, v, l, r, at, c);
    }
  }
}
