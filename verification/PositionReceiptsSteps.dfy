/** Each change of the books keeps the invariant and only lets them grow. */
module PositionReceiptsSteps {
  import opened Common
  import opened VaultBacking
  import opened PositionReceipts
  import opened PositionReceiptsProof

  lemma InsertReceiptsOk(w: Books, v: Books, l: Locals, r: Receipt)
    requires ReceiptInv(w) && v == WithReceipt(w, l, r)
    requires LocalsOk(w, l) && ProposalOk(w, l, r)
    ensures ReceiptInv(v)
  {
    var position := l.input.position;
    forall p | p in v.receipts
      ensures ReceiptOk(v.receipts[p], v.origin[p], v.initialRemaining, v.initialPrincipal, v.txs, v.applied)
    {
      if p != position {
        assert ReceiptOk(w.receipts[p], w.origin[p], w.initialRemaining, w.initialPrincipal, w.txs, w.applied);
      }
    }
  }

  lemma InsertHistory(w: Books, v: Books, l: Locals, r: Receipt)
    requires HistoryInv(w) && OrderInv(w) && v == WithReceipt(w, l, r) && l.input.position !in w.origin
    requires LocalsOk(w, l) && Unseen(l)
    ensures HistoryInv(v) && OrderInv(v)
  {
    forall p | p in v.origin ensures OriginOk(v.allocations, v.vault, v.applied, p, v.origin[p]) {
      if p == l.input.position {
        var i :| 0 <= i < |w.allocations| && SameIdentity(w.allocations[i], l.allocation);
        assert w.allocations[i].id == EntryOf(l).allocationId;
      } else {
        assert OriginOk(w.allocations, w.vault, w.applied, p, w.origin[p]);
      }
    }
    forall e, f | e in v.verified && f in v.verified && e.series == f.series
      ensures Pinned(v.origin, e) <= Pinned(v.origin, f) || Pinned(v.origin, f) <= Pinned(v.origin, e)
    {
      assert Pinned(v.origin, e) == Pinned(w.origin, e) && Pinned(v.origin, f) == Pinned(w.origin, f);
    }
  }

  lemma InsertGrows(w: Books, v: Books, l: Locals, r: Receipt)
    requires l.input.position !in w.receipts && l.input.position !in w.origin && v == WithReceipt(w, l, r)
    requires LocalsOk(w, l)
    ensures Grows(w, v) && Holds(v, l, r)
  {
    assert Grows(w, v);
    LocalsStable(w, v, l);
  }

  lemma InsertKeeps(w: Books, v: Books, l: Locals, r: Receipt)
    requires BooksInv(w) && l.input.position !in w.receipts && v == WithReceipt(w, l, r)
    requires LocalsOk(w, l) && Unseen(l) && ProposalOk(w, l, r)
    ensures BooksInv(v)
  {
    InsertReceiptsOk(w, v, l, r);
    InsertHistory(w, v, l, r);
    InsertTxs(w, v, l, r);
  }

  lemma InsertTxs(w: Books, v: Books, l: Locals, r: Receipt)
    requires TxInv(w) && RelayInv(w) && l.input.position !in w.origin && v == WithReceipt(w, l, r)
    ensures TxInv(v) && RelayInv(v)
  {
  }

  lemma RelayedOnce(w: Books, position: Position)
    requires RelayInv(w) && position in w.receipts && position !in w.relayed
    ensures RelayedOk(w.relayed + [position], w.receipts.Keys)
  {
  }

  lemma RelayTxs(w: Books, v: Books, l: Locals, r: Receipt, c: Choice)
    requires TxInv(w) && AllNew(w, c) && v == WithRelay(w, l, r, c)
    requires l.input.position !in w.relayed && l.input.position in w.origin && w.origin[l.input.position].entry == EntryOf(l)
    ensures TxInv(v)
  {
    assert v.relayed[|w.relayed|] == l.input.position;
    forall p | p in w.relayed ensures p in v.relayed {
      var i :| 0 <= i < |w.relayed| && w.relayed[i] == p;
      assert v.relayed[i] == p;
    }
  }

  lemma RelayGrows(w: Books, v: Books, l: Locals, r: Receipt, c: Choice)
    requires AllNew(w, c) && v == WithRelay(w, l, r, c)
    ensures Grows(w, v)
    ensures c.succeeds ==> c.hash in v.txs && v.txs[c.hash].entry == EntryOf(l)
  {
  }

  /** A relay moves no money by itself. */
  lemma RelayMoney(w: Books, v: Books)
    requires MoneyInv(w) && v == w.(txs := v.txs, relayed := v.relayed)
    ensures MoneyInv(v)
  {
  }

  lemma RelayReceipts(w: Books, v: Books)
    requires ReceiptInv(w) && v == w.(txs := v.txs, relayed := v.relayed)
    requires forall h | h in w.txs :: h in v.txs && v.txs[h] == w.txs[h]
    ensures ReceiptInv(v)
  {
    ReceiptsStable(w, v);
  }

  lemma RelayPaper(w: Books, v: Books, l: Locals, r: Receipt, c: Choice)
    requires PaperInv(w) && Holds(w, l, r) && AllNew(w, c) && v == WithRelay(w, l, r, c)
    requires l.input.position !in w.relayed
    ensures PaperInv(v)
  {
    RelayReceipts(w, v);
    RelayTxs(w, v, l, r, c);
    RelayedOnce(w, l.input.position);
  }

  lemma RelayKeeps(w: Books, v: Books, l: Locals, r: Receipt, c: Choice)
    requires BooksInv(w) && Holds(w, l, r) && AllNew(w, c) && v == WithRelay(w, l, r, c)
    requires l.input.position !in w.relayed
    ensures BooksInv(v)
  {
    RelayMoney(w, v);
    RelayPaper(w, v, l, r, c);
  }

  /** A receipt that keeps its terms and reaches a status it is entitled to. */
  lemma RestatedReceipt(w: Books, v: Books, position: Position, r: Receipt)
    requires PaperInv(w) && position in w.receipts && v == w.(receipts := w.receipts[position := r])
    requires SameTerms(w.receipts[position], r)
    requires r.txHash.Some? && r.txHash.value in w.txs && w.txs[r.txHash.value].entry == w.origin[position].entry
    requires r.status != Pending && (r.status == Confirmed ==> w.origin[position].entry in w.applied)
    ensures PaperInv(v)
  {
    assert ReceiptOk(w.receipts[position], w.origin[position], w.initialRemaining, w.initialPrincipal, w.txs, w.applied);
  }

  lemma RestatedGrows(w: Books, v: Books, position: Position, r: Receipt)
    requires position in w.receipts && v == w.(receipts := w.receipts[position := r])
    requires SameTerms(w.receipts[position], r)
    ensures Grows(w, v)
  {
  }

  lemma SaveHashKeeps(w: Books, v: Books, l: Locals, r: Receipt, hash: TxHash)
    requires PaperInv(w) && Holds(w, l, r) && hash in w.txs && w.txs[hash].entry == EntryOf(l)
    requires v == WithHash(w, l.input.position, hash)
    ensures PaperInv(v) && Grows(w, v) && v == w.(receipts := v.receipts)
  {
    var stored := w.receipts[l.input.position];
    if stored.status == Pending && stored.txHash.None? {
      RestatedReceipt(w, v, l.input.position, stored.(status := Submitted, txHash := Some(hash)));
      RestatedGrows(w, v, l.input.position, stored.(status := Submitted, txHash := Some(hash)));
    } else {
      GrowsReflexive(w);
    }
  }

  lemma ConfirmKeeps(w: Books, v: Books, l: Locals, r: Receipt)
    requires PaperInv(w) && Holds(w, l, r) && EntryOf(l) in w.applied
    requires v == WithConfirmed(w, l.input.position, r.txHash)
    ensures PaperInv(v) && Grows(w, v) && v == w.(receipts := v.receipts)
  {
    var stored := w.receipts[l.input.position];
    if stored.status == Submitted && stored.txHash == r.txHash {
      assert ReceiptOk(stored, w.origin[l.input.position], w.initialRemaining, w.initialPrincipal, w.txs, w.applied);
      RestatedReceipt(w, v, l.input.position, stored.(status := Confirmed));
      RestatedGrows(w, v, l.input.position, stored.(status := Confirmed));
    } else {
      GrowsReflexive(w);
    }
  }

  lemma ReceiptsApart(w: Books, v: Books)
    requires MoneyInv(w) && PaperInv(v) && v == w.(receipts := v.receipts)
    ensures BooksInv(v)
  {
  }

  lemma PinnedExecuted(w: Books, e: Entry)
    requires HistoryInv(w) && e in w.executed
    ensures Pinned(w.origin, e) <= InSeries(w.executed, e.series)
  {
    assert OriginOk(w.allocations, w.vault, w.applied, e.position, w.origin[e.position]);
  }

  /** The newest verified snapshot contains every earlier one of its series. */
  lemma VerifiedOrder(w: Books, e: Entry)
    requires HistoryInv(w) && OrderInv(w) && e in w.executed
    requires InSeries(w.executed, e.series) == Pinned(w.origin, e)
    ensures OrderOk(w.verified + {e}, w.origin)
  {
    forall f, g | f in w.verified + {e} && g in w.verified + {e} && f.series == g.series
      ensures Pinned(w.origin, f) <= Pinned(w.origin, g) || Pinned(w.origin, g) <= Pinned(w.origin, f)
    {
      PinnedExecuted(w, f);
      PinnedExecuted(w, g);
    }
  }

  lemma VerifiedMoney(w: Books, v: Books, e: Entry)
    requires MoneyInv(w) && e in w.executed && OrderOk(w.verified + {e}, w.origin)
    requires v == w.(verified := w.verified + {e})
    ensures MoneyInv(v)
  {
  }

  lemma VerifyKeeps(w: Books, v: Books, l: Locals, r: Receipt)
    requires MoneyInv(w) && ReceiptInv(w) && Holds(w, l, r) && EntryOf(l) in w.executed
    requires l.allocation.series in w.principal
    requires w.principal[l.allocation.series] == r.seriesPrincipalBefore - l.input.principal
    requires v == WithVerified(w, l)
    ensures MoneyInv(v)
  {
    PinnedAtCheck(w, l, r);
    VerifiedOrder(w, EntryOf(l));
    VerifiedMoney(w, v, EntryOf(l));
  }

  lemma VerifiedApart(w: Books, v: Books)
    requires PaperInv(w) && v == w.(verified := v.verified) && w.verified <= v.verified
    ensures PaperInv(v) && Grows(w, v)
  {
  }

  /** Rewriting one document without touching its identity. */
  lemma StaticsKept(a: seq<Allocation>, k: nat, d: Allocation)
    requires k < |a| && DistinctIds(a) && a[k].(status := d.status, remainingPrincipal := d.remainingPrincipal) == d
    ensures SameStatics(a, a[k := d]) && DistinctIds(a[k := d])
  {
  }

  /** A rewritten document with the same remaining principal and weight leaves every sum alone. */
  lemma SameRemaining(w: Books, k: nat, d: Allocation)
    requires k < |w.allocations| && AllocationInv(w) && RecordInv(w)
    requires w.allocations[k].(status := d.status, remainingPrincipal := d.remainingPrincipal) == d
    requires RemainingPrincipal(d) == RemainingPrincipal(w.allocations[k])
    requires forall s :: Contribution(d, w.vault, s) == Contribution(w.allocations[k], w.vault, s)
    ensures AllocationsOk(w.allocations[k := d], w.initialRemaining, w.applied)
    ensures RecordOk(w.allocations[k := d], w.vault, w.initialPrincipal, w.applied)
  {
    StaticsKept(w.allocations, k, d);
    forall s | s in w.initialPrincipal
      ensures RecordedSeriesPrincipal(w.allocations[k := d], w.vault, s)
           == Some(w.initialPrincipal[s] - Total(InSeries(w.applied, s)))
    {
      RecordedAfterUpdate(w.allocations, k, d, w.vault, s);
    }
  }

  lemma RewriteKeeps(w: Books, v: Books, k: nat, d: Allocation)
    requires MoneyInv(w) && k < |w.allocations| && v == w.(allocations := w.allocations[k := d])
    requires w.allocations[k].(status := d.status, remainingPrincipal := d.remainingPrincipal) == d
    requires RemainingPrincipal(d) == RemainingPrincipal(w.allocations[k])
    requires forall s :: Contribution(d, w.vault, s) == Contribution(w.allocations[k], w.vault, s)
    ensures MoneyInv(v)
  {
    StaticsKept(w.allocations, k, d);
    SameRemaining(w, k, d);
    OriginsStable(w, v);
  }

  lemma RewriteGrows(w: Books, v: Books, k: nat, d: Allocation)
    requires AllocationInv(w) && PaperInv(w) && k < |w.allocations| && v == w.(allocations := w.allocations[k := d])
    requires w.allocations[k].(status := d.status, remainingPrincipal := d.remainingPrincipal) == d
    ensures Grows(w, v) && PaperInv(v)
  {
    StaticsKept(w.allocations, k, d);
  }

  lemma DrainKeeps(w: Books, v: Books, k: nat)
    requires BooksInv(w) && k < |w.allocations| && w.allocations[k].status == Outstanding && v == WithDraining(w, k)
    ensures BooksInv(v) && Grows(w, v)
  {
    RewriteKeeps(w, v, k, v.allocations[k]);
    RewriteGrows(w, v, k, v.allocations[k]);
  }

  lemma AtLeast(applied: set<Entry>, seen: set<Entry>, e: Entry)
    requires Positive(applied) && seen <= applied && e in applied && e !in seen
    ensures Total(OnAllocation(applied, e.allocationId)) >= Total(OnAllocation(seen, e.allocationId)) + e.principal
  {
    var known := OnAllocation(seen, e.allocationId);
    TotalWith(known, e);
    TotalSplit(known + {e}, OnAllocation(applied, e.allocationId));
    TotalPositive(OnAllocation(applied, e.allocationId) - (known + {e}));
  }

  /** An allocation whose applied receipts include the last one has nothing left. */
  lemma NothingLeft(allocations: seq<Allocation>, initial: map<nat, int>, applied: set<Entry>, seen: set<Entry>,
                    e: Entry, k: nat)
    requires AllocationsOk(allocations, initial, applied) && Positive(applied) && seen <= applied
    requires e in applied && e !in seen
    requires k < |allocations| && allocations[k].id == e.allocationId
    requires initial[e.allocationId] - Total(OnAllocation(seen, e.allocationId)) == e.principal
    ensures RemainingPrincipal(allocations[k]) == Some(0)
  {
    AtLeast(applied, seen, e);
  }

  /** After its receipt was applied, an allocation settled in full has nothing left. */
  lemma {:induction false} FinalIsZero(w: Books, l: Locals, r: Receipt, k: nat)
    requires AllocationInv(w) && HistoryInv(w) && ReceiptInv(w) && Holds(w, l, r) && Final(w, l, r)
    requires k < |w.allocations| && w.allocations[k].id == l.allocation.id
    ensures RemainingPrincipal(w.allocations[k]) == Some(0)
  {
    EntryTerms(w, l, r);
    assert Positive(w.applied) by { ExecutedPositive(w); }
    NothingLeft(w.allocations, w.initialRemaining, w.applied, w.origin[l.input.position].seen, EntryOf(l), k);
  }

  /** Closing a document that owes nothing, whoever does it. */
  lemma CloseSettled(w: Books, v: Books, k: nat)
    requires MoneyInv(w) && k < |w.allocations| && v == WithClosed(w, k)
    requires RemainingPrincipal(w.allocations[k]) == Some(0)
    ensures MoneyInv(v)
  {
    RewriteKeeps(w, v, k, v.allocations[k]);
  }

  lemma CloseKeeps(w: Books, v: Books, l: Locals, r: Receipt, k: nat)
    requires BooksInv(w) && Holds(w, l, r) && Final(w, l, r)
    requires k < |w.allocations| && w.allocations[k].id == l.allocation.id && v == WithClosed(w, k)
    ensures BooksInv(v) && Grows(w, v)
  {
    FinalIsZero(w, l, r, k);
    CloseSettled(w, v, k);
    RewriteGrows(w, v, k, v.allocations[k]);
  }

  lemma DecrementAllocations(w: Books, v: Books, l: Locals, k: nat, after: int)
    requires AllocationInv(w) && EntryOf(l) !in w.applied
    requires k < |w.allocations| && w.allocations[k].id == l.allocation.id
    requires RemainingPrincipal(w.allocations[k]) == Some(after + l.input.principal)
    requires 0 < l.input.principal && 0 <= after && v == WithDecrement(w, l, k, after)
    ensures AllocationInv(v)
  {
    var e := EntryOf(l);
    StaticsKept(w.allocations, k, v.allocations[k]);
    forall i | 0 <= i < |v.allocations|
      ensures RemainingPrincipal(v.allocations[i]).Some? && v.allocations[i].id in v.initialRemaining
      ensures RemainingPrincipal(v.allocations[i]).value
           == v.initialRemaining[v.allocations[i].id] - Total(OnAllocation(v.applied, v.allocations[i].id))
    {
      var id := w.allocations[i].id;
      if i == k {
        assert OnAllocation(v.applied, id) == OnAllocation(w.applied, id) + {e};
        TotalWith(OnAllocation(w.applied, id), e);
      } else {
        assert id != l.allocation.id;
        assert OnAllocation(v.applied, id) == OnAllocation(w.applied, id);
      }
    }
  }

  lemma DecrementRecord(w: Books, v: Books, l: Locals, k: nat, after: int)
    requires AllValid(w.allocations) && RecordInv(w) && EntryOf(l) !in w.applied
    requires k < |w.allocations| && w.allocations[k].status == Outstanding
    requires w.allocations[k].vault == w.vault && w.allocations[k].series == l.allocation.series
    requires RemainingPrincipal(w.allocations[k]) == Some(after + l.input.principal)
    requires 0 < l.input.principal && 0 <= after && v == WithDecrement(w, l, k, after)
    ensures RecordInv(v)
  {
    var e := EntryOf(l);
    forall s | s in v.initialPrincipal
      ensures RecordedSeriesPrincipal(v.allocations, v.vault, s)
           == Some(v.initialPrincipal[s] - Total(InSeries(v.applied, s)))
    {
      RecordedAfterUpdate(w.allocations, k, v.allocations[k], w.vault, s);
      if s == e.series {
        assert InSeries(v.applied, s) == InSeries(w.applied, s) + {e};
        TotalWith(InSeries(w.applied, s), e);
      } else {
        assert InSeries(v.applied, s) == InSeries(w.applied, s);
      }
    }
  }

  lemma DecrementHistory(w: Books, v: Books, l: Locals, k: nat, after: int)
    requires HistoryInv(w) && OrderInv(w) && EntryOf(l) in w.verified && k < |w.allocations| && DistinctIds(w.allocations)
    requires v == WithDecrement(w, l, k, after)
    ensures HistoryInv(v) && OrderInv(v)
  {
    StaticsKept(w.allocations, k, v.allocations[k]);
    OriginsStable(w, v);
  }

  /** The stored document of the allocation a process works on has the identity it read. */
  lemma StoredIdentity(w: Books, l: Locals, k: nat)
    requires DistinctIds(w.allocations) && Documented(w.allocations, l.allocation)
    requires k < |w.allocations| && w.allocations[k].id == l.allocation.id
    ensures SameIdentity(w.allocations[k], l.allocation)
  {
    var i :| 0 <= i < |w.allocations| && SameIdentity(w.allocations[i], l.allocation);
    assert i == k;
  }

  lemma DecrementKeeps(w: Books, v: Books, l: Locals, k: nat, after: int)
    requires MoneyInv(w) && LocalsOk(w, l) && EntryOf(l) in w.verified && EntryOf(l) !in w.applied
    requires k < |w.allocations| && w.allocations[k].id == l.allocation.id && w.allocations[k].status == Outstanding
    requires RemainingPrincipal(w.allocations[k]) == Some(after + l.input.principal) && 0 <= after
    requires v == WithDecrement(w, l, k, after)
    ensures MoneyInv(v)
  {
    StoredIdentity(w, l, k);
    DecrementAllocations(w, v, l, k, after);
    DecrementRecord(w, v, l, k, after);
    DecrementHistory(w, v, l, k, after);
  }

  lemma DecrementGrows(w: Books, v: Books, l: Locals, k: nat, after: int)
    requires AllocationInv(w) && PaperInv(w) && k < |w.allocations| && v == WithDecrement(w, l, k, after)
    ensures Grows(w, v) && PaperInv(v)
  {
    StaticsKept(w.allocations, k, v.allocations[k]);
    ReceiptsStable(w, v);
  }

  lemma ExecuteChain(w: Books, v: Books, hash: TxHash)
    requires ChainInv(w) && hash in w.txs && w.txs[hash].entry.series in w.principal
    requires v == WithOutcome(w, hash, true)
    ensures ChainInv(v)
  {
    var e := w.txs[hash].entry;
    forall s | s in v.principal
      ensures v.principal[s] == v.initialPrincipal[s] - Total(InSeries(v.executed, s)) - Repeats(v.repeated, s)
    {
      if e in w.executed {
        assert v.executed == w.executed;
        RepeatsAfter(w.repeated, e, s);
      } else if s == e.series {
        assert InSeries(v.executed, s) == InSeries(w.executed, s) + {e};
        TotalWith(InSeries(w.executed, s), e);
      } else {
        assert InSeries(v.executed, s) == InSeries(w.executed, s);
      }
    }
  }

  lemma ExecuteTxs(w: Books, v: Books, hash: TxHash, accepted: bool)
    requires TxInv(w) && hash in w.txs && w.txs[hash].state == InFlight
    requires accepted ==> w.txs[hash].entry.series in w.principal
    requires v == WithOutcome(w, hash, accepted)
    ensures TxInv(v)
  {
  }

  /** A movement that was relayed has its origin on record. */
  lemma ExecuteHistory(w: Books, v: Books, hash: TxHash)
    requires HistoryInv(w) && OrderInv(w) && TxInv(w) && hash in w.txs && w.txs[hash].entry.series in w.principal
    requires v == WithOutcome(w, hash, true)
    ensures HistoryInv(v) && OrderInv(v)
  {
    var e := w.txs[hash].entry;
    assert e.position in w.origin && w.origin[e.position].entry == e;
  }

  /** What a refused call leaves: only its own state moved. */
  lemma RejectMoney(w: Books, v: Books)
    requires MoneyInv(w) && v == w.(txs := v.txs)
    ensures MoneyInv(v)
  {
  }

  lemma ExecuteMoney(w: Books, v: Books, hash: TxHash, accepted: bool)
    requires MoneyInv(w) && TxInv(w) && hash in w.txs && w.txs[hash].state == InFlight
    requires accepted ==> w.txs[hash].entry.series in w.principal
    requires v == WithOutcome(w, hash, accepted)
    ensures MoneyInv(v)
  {
    if accepted {
      ExecuteChain(w, v, hash);
      ExecuteHistory(w, v, hash);
    } else {
      RejectMoney(w, v);
    }
  }

  lemma ExecuteGrows(w: Books, v: Books, hash: TxHash, accepted: bool)
    requires PaperInv(w) && hash in w.txs && w.txs[hash].state == InFlight
    requires accepted ==> w.txs[hash].entry.series in w.principal
    requires v == WithOutcome(w, hash, accepted)
    ensures PaperInv(v) && Grows(w, v)
  {
    ExecuteTxs(w, v, hash, accepted);
    ReceiptsStable(w, v);
  }
}
