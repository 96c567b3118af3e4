/** How the manager's writes keep what its position receipts are worth. */
module MakerReceipts {
  import opened Common
  import opened VaultBacking
  import opened PositionReceipts
  import opened MakerChain
  import opened MakerLedger

  /** A rewritten document of the same allocation that owes no more. */
  predicate LowerSameAllocation(a: Allocation, d: Allocation) {
    && d.id == a.id && d.vault == a.vault && d.series == a.series
    && RemainingPrincipal(a).Some? && RemainingPrincipal(d).Some?
    && RemainingPrincipal(d).value <= RemainingPrincipal(a).value
  }

  lemma OwesAtMostStable(allocations: seq<Allocation>, vault: nat, k: nat, d: Allocation, id: nat, most: int)
    requires k < |allocations| && LowerSameAllocation(allocations[k], d) && OwesAtMost(allocations, vault, id, most)
    ensures OwesAtMost(allocations[k := d], vault, id, most)
  {
    var i :| && 0 <= i < |allocations| && allocations[i].id == id && allocations[i].vault == vault
             && RemainingPrincipal(allocations[i]).Some? && RemainingPrincipal(allocations[i]).value <= most;
    assert allocations[k := d][i].id == id;
  }

  lemma LiesInStable(allocations: seq<Allocation>, vault: nat, k: nat, d: Allocation, id: nat, series: nat)
    requires k < |allocations| && LowerSameAllocation(allocations[k], d) && LiesIn(allocations, vault, id, series)
    ensures LiesIn(allocations[k := d], vault, id, series)
  {
    var i :| 0 <= i < |allocations| && allocations[i].id == id && allocations[i].vault == vault
             && allocations[i].series == series;
    assert allocations[k := d][i].id == id;
  }

  /** The document of another allocation, or of the same one with the same amount left. */
  lemma OwesStable(allocations: seq<Allocation>, vault: nat, k: nat, d: Allocation, id: nat, remaining: int)
    requires k < |allocations| && LowerSameAllocation(allocations[k], d) && Owes(allocations, vault, id, remaining)
    requires id != allocations[k].id || RemainingPrincipal(d) == RemainingPrincipal(allocations[k])
    ensures Owes(allocations[k := d], vault, id, remaining)
  {
    var i :| 0 <= i < |allocations| && allocations[i].id == id && allocations[i].vault == vault
             && RemainingPrincipal(allocations[i]) == Some(remaining);
    assert allocations[k := d][i].id == id;
  }

  /** One allocation lies in one series. */
  lemma OneSeries(allocations: seq<Allocation>, vault: nat, k: nat, id: nat, series: nat)
    requires DistinctIds(allocations) && k < |allocations| && allocations[k].id == id
    requires LiesIn(allocations, vault, id, series)
    ensures allocations[k].series == series
  {
    var i :| 0 <= i < |allocations| && allocations[i].id == id && allocations[i].vault == vault
             && allocations[i].series == series;
    assert i == k;
  }

  lemma ExtendedOwes(allocations: seq<Allocation>, a: Allocation, vault: nat, id: nat, series: nat, remaining: int)
    ensures Owes(allocations, vault, id, remaining) ==> Owes(allocations + [a], vault, id, remaining)
    ensures OwesAtMost(allocations, vault, id, remaining) ==> OwesAtMost(allocations + [a], vault, id, remaining)
    ensures LiesIn(allocations, vault, id, series) ==> LiesIn(allocations + [a], vault, id, series)
  {
    var longer := allocations + [a];
    assert forall i | 0 <= i < |allocations| :: longer[i] == allocations[i];
  }

  lemma ExtendedDoubled(allocations: seq<Allocation>, a: Allocation, vault: nat, id: nat, doubled: set<nat>)
    requires LiesInDoubled(allocations, vault, id, doubled)
    ensures LiesInDoubled(allocations + [a], vault, id, doubled)
  {
    var longer := allocations + [a];
    assert forall i | 0 <= i < |allocations| :: longer[i] == allocations[i];
  }

  lemma DoubledStable(allocations: seq<Allocation>, vault: nat, k: nat, d: Allocation, id: nat, doubled: set<nat>)
    requires k < |allocations| && LowerSameAllocation(allocations[k], d) && LiesInDoubled(allocations, vault, id, doubled)
    ensures LiesInDoubled(allocations[k := d], vault, id, doubled)
  {
    var i :| 0 <= i < |allocations| && allocations[i].id == id && allocations[i].vault == vault
             && allocations[i].series in doubled;
    assert allocations[k := d][i].id == id;
  }

  lemma MoreDoubled(allocations: seq<Allocation>, vault: nat, id: nat, doubled: set<nat>, more: set<nat>)
    requires LiesInDoubled(allocations, vault, id, doubled) && doubled <= more
    ensures LiesInDoubled(allocations, vault, id, more)
  {
    var i :| 0 <= i < |allocations| && allocations[i].id == id && allocations[i].vault == vault
             && allocations[i].series in doubled;
    assert allocations[i].series in more;
  }

  // ----- What the network does -----

  lemma SubmitBound(allocations: seq<Allocation>, vault: nat, c: Chain, written: set<TxHash>, doubled: set<nat>,
                    receipts: map<Position, Receipt>, applied: set<Position>, t: Transfer, copies: nat, more: set<nat>)
    requires ChainOk(c, written) && ReceiptsBound(allocations, vault, c, written, doubled, receipts, applied)
    requires SettlementBound(allocations, vault, receipts, applied, t, false)
    requires PendingBound(allocations, vault, receipts, applied, t) && doubled <= more
    ensures ReceiptsBound(allocations, vault, Submit(c, t, copies), written, more, receipts, applied)
  {
    var next := Submit(c, t, copies);
    forall p | p in receipts ensures ReceiptBound(allocations, vault, next, more, applied, p, receipts[p]) {
      var r := receipts[p];
      if LiesInDoubled(allocations, vault, r.allocationId, doubled) {
        MoreDoubled(allocations, vault, r.allocationId, doubled, more);
      }
    }
    forall h | h in next.submitted
      ensures SettlementBound(allocations, vault, receipts, applied, next.submitted[h], h in written)
    {
      assert h !in c.submitted ==> h !in written;
    }
  }

  lemma LandBound(allocations: seq<Allocation>, vault: nat, c: Chain, written: set<TxHash>, doubled: set<nat>,
                  receipts: map<Position, Receipt>, applied: set<Position>, h: TxHash)
    requires ReceiptsBound(allocations, vault, c, written, doubled, receipts, applied) && Flying(c, h)
    ensures ReceiptsBound(allocations, vault, Land(c, h), written, doubled, receipts, applied)
    ensures ReceiptsBound(allocations, vault, Drop(c, h), written, doubled, receipts, applied)
  {
  }

  // ----- Writing to the documents -----

  lemma AppendBound(allocations: seq<Allocation>, vault: nat, c: Chain, written: set<TxHash>, doubled: set<nat>,
                    receipts: map<Position, Receipt>, applied: set<Position>, a: Allocation, h: TxHash)
    requires ReceiptsBound(allocations, vault, c, written, doubled, receipts, applied)
    requires h in c.submitted && c.submitted[h].Lent?
    ensures ReceiptsBound(allocations + [a], vault, c, written + {h}, doubled, receipts, applied)
  {
    forall p | p in receipts ensures ReceiptBound(allocations + [a], vault, c, doubled, applied, p, receipts[p]) {
      var r := receipts[p];
      ExtendedOwes(allocations, a, vault, r.allocationId, 0, r.allocationPrincipalBefore - r.principal);
      if LiesInDoubled(allocations, vault, r.allocationId, doubled) {
        ExtendedDoubled(allocations, a, vault, r.allocationId, doubled);
      }
    }
    forall g | g in c.submitted
      ensures SettlementBound(allocations + [a], vault, receipts, applied, c.submitted[g], g in written + {h})
      ensures PendingBound(allocations, vault, receipts, applied, c.submitted[g]) ==>
                PendingBound(allocations + [a], vault, receipts, applied, c.submitted[g])
    {
      var t := c.submitted[g];
      assert SettlementBound(allocations, vault, receipts, applied, t, g in written);
      if t.Settled? {
        ExtendedOwes(allocations, a, vault, t.id, t.series, receipts[t.position].allocationPrincipalBefore);
      }
    }
  }

  /** A rewritten document still bounds every receipt and every submitted settlement. */
  lemma LowerBound(allocations: seq<Allocation>, vault: nat, c: Chain, written: set<TxHash>, doubled: set<nat>,
                   receipts: map<Position, Receipt>, applied: set<Position>, k: nat, d: Allocation)
    requires ReceiptsBound(allocations, vault, c, written, doubled, receipts, applied)
    requires k < |allocations| && LowerSameAllocation(allocations[k], d)
    ensures forall p | p in receipts :: ReceiptBound(allocations[k := d], vault, c, doubled, applied, p, receipts[p])
    ensures forall h | h in c.submitted ::
      SettlementBound(allocations[k := d], vault, receipts, applied, c.submitted[h], h in written)
  {
    forall p | p in receipts ensures ReceiptBound(allocations[k := d], vault, c, doubled, applied, p, receipts[p]) {
      var r := receipts[p];
      if p in applied {
        OwesAtMostStable(allocations, vault, k, d, r.allocationId, r.allocationPrincipalBefore - r.principal);
      }
      if LiesInDoubled(allocations, vault, r.allocationId, doubled) {
        DoubledStable(allocations, vault, k, d, r.allocationId, doubled);
      }
    }
    forall h | h in c.submitted
      ensures SettlementBound(allocations[k := d], vault, receipts, applied, c.submitted[h], h in written)
    {
      var t := c.submitted[h];
      assert SettlementBound(allocations, vault, receipts, applied, t, h in written);
      if t.Settled? { LiesInStable(allocations, vault, k, d, t.id, t.series); }
    }
  }

  /** Rewriting a document that keeps owing the same. */
  lemma RewriteBound(allocations: seq<Allocation>, vault: nat, c: Chain, written: set<TxHash>, doubled: set<nat>,
                     receipts: map<Position, Receipt>, applied: set<Position>, k: nat, d: Allocation)
    requires ReceiptsBound(allocations, vault, c, written, doubled, receipts, applied)
    requires k < |allocations| && LowerSameAllocation(allocations[k], d)
    requires RemainingPrincipal(d) == RemainingPrincipal(allocations[k])
    ensures ReceiptsBound(allocations[k := d], vault, c, written, doubled, receipts, applied)
  {
    LowerBound(allocations, vault, c, written, doubled, receipts, applied, k, d);
    forall h | h in c.submitted && IsPending(c, written, h) && c.submitted[h].series !in doubled
      ensures PendingBound(allocations[k := d], vault, receipts, applied, c.submitted[h])
    {
      var t := c.submitted[h];
      assert PendingBound(allocations, vault, receipts, applied, t);
      if t.Settled? && t.position in receipts {
        OwesStable(allocations, vault, k, d, t.id, receipts[t.position].allocationPrincipalBefore);
      }
    }
  }

  /** The pending settlements of other series do not see a write to this one. */
  lemma OtherSeriesPending(allocations: seq<Allocation>, vault: nat, receipts: map<Position, Receipt>,
                           applied: set<Position>, done: set<Position>, k: nat, d: Allocation, t: Transfer)
    requires DistinctIds(allocations) && k < |allocations| && LowerSameAllocation(allocations[k], d)
    requires t.series != d.series && SettlementBound(allocations, vault, receipts, applied, t, false)
    requires PendingBound(allocations, vault, receipts, applied, t)
    requires forall p | p in done :: p in receipts && receipts[p].allocationId == d.id
    ensures PendingBound(allocations[k := d], vault, receipts, applied + done, t)
  {
    if t.Settled? {
      if t.id == d.id { OneSeries(allocations, vault, k, t.id, t.series); }
      OwesStable(allocations, vault, k, d, t.id, receipts[t.position].allocationPrincipalBefore);
    }
  }

  /** Writing down a transaction of a series without a doubled relay leaves none pending there. */
  lemma NonePending(c: Chain, written: set<TxHash>, doubled: set<nat>, h: TxHash, g: TxHash)
    requires Bounded(c, written, doubled) && h in c.submitted && IsPending(c, written, h)
    requires g in c.submitted && IsPending(c, written + {h}, g) && c.submitted[g].series == c.submitted[h].series
    ensures c.submitted[g].series in doubled
  {
    var s := c.submitted[h].series;
    assert h in Pendings(c, written, s) && g in Pendings(c, written, s) && g != h;
  }

  lemma WriteBounded(c: Chain, written: set<TxHash>, doubled: set<nat>, h: TxHash)
    requires Bounded(c, written, doubled)
    ensures Bounded(c, written + {h}, doubled)
  {
    forall s: nat | s !in doubled ensures AtMostOne(Pendings(c, written + {h}, s)) {
      assert Pendings(c, written + {h}, s) <= Pendings(c, written, s);
      assert AtMostOne(Pendings(c, written, s));
    }
  }

  /** Finishing a whole-allocation settlement. */
  lemma RepaidBound(allocations: seq<Allocation>, vault: nat, c: Chain, written: set<TxHash>, doubled: set<nat>,
                    receipts: map<Position, Receipt>, applied: set<Position>, k: nat, d: Allocation, h: TxHash)
    requires ReceiptsBound(allocations, vault, c, written, doubled, receipts, applied) && DistinctIds(allocations)
    requires Bounded(c, written, doubled) && h in c.submitted && IsPending(c, written, h)
    requires k < |allocations| && LowerSameAllocation(allocations[k], d)
    requires c.submitted[h].Repaid? && c.submitted[h].series == d.series
    ensures ReceiptsBound(allocations[k := d], vault, c, written + {h}, doubled, receipts, applied)
  {
    LowerBound(allocations, vault, c, written, doubled, receipts, applied, k, d);
    forall g | g in c.submitted && IsPending(c, written + {h}, g) && c.submitted[g].series !in doubled
      ensures PendingBound(allocations[k := d], vault, receipts, applied, c.submitted[g])
    {
      if c.submitted[g].series == d.series {
        NonePending(c, written, doubled, h, g);
      } else {
        assert SettlementBound(allocations, vault, receipts, applied, c.submitted[g], g in written);
        OtherSeriesPending(allocations, vault, receipts, applied, {}, k, d, c.submitted[g]);
        assert applied + {} == applied;
      }
    }
  }

  /** Finishing a position settlement: its receipt is applied now. */
  lemma SettledBound(allocations: seq<Allocation>, vault: nat, c: Chain, written: set<TxHash>, doubled: set<nat>,
                     receipts: map<Position, Receipt>, applied: set<Position>, k: nat, d: Allocation, p: Position,
                     h: TxHash)
    requires ReceiptsBound(allocations, vault, c, written, doubled, receipts, applied) && DistinctIds(allocations)
    requires Bounded(c, written, doubled) && h in c.submitted && IsPending(c, written, h)
    requires k < |allocations| && LowerSameAllocation(allocations[k], d) && d.vault == vault
    requires p in receipts && receipts[p].allocationId == d.id && receipts[p].txHash == Some(h)
    requires c.submitted[h].series == d.series
    requires RemainingPrincipal(d) == Some(receipts[p].allocationPrincipalBefore - receipts[p].principal)
    ensures ReceiptsBound(allocations[k := d], vault, c, written + {h}, doubled, receipts, applied + {p})
  {
    LowerBound(allocations, vault, c, written, doubled, receipts, applied, k, d);
    forall q | q in receipts
      ensures ReceiptBound(allocations[k := d], vault, c, doubled, applied + {p}, q, receipts[q])
    {
      if q == p { assert allocations[k := d][k].id == receipts[p].allocationId; }
    }
    forall g | g in c.submitted && IsPending(c, written + {h}, g) && c.submitted[g].series !in doubled
      ensures PendingBound(allocations[k := d], vault, receipts, applied + {p}, c.submitted[g])
    {
      if c.submitted[g].series == d.series {
        NonePending(c, written, doubled, h, g);
      } else {
        assert SettlementBound(allocations, vault, receipts, applied, c.submitted[g], g in written);
        OtherSeriesPending(allocations, vault, receipts, applied, {p}, k, d, c.submitted[g]);
      }
    }
  }

  // ----- Writing to the receipts -----

  lemma InsertBound(allocations: seq<Allocation>, vault: nat, c: Chain, written: set<TxHash>, doubled: set<nat>,
                    receipts: map<Position, Receipt>, applied: set<Position>, p: Position, r: Receipt)
    requires ReceiptsBound(allocations, vault, c, written, doubled, receipts, applied)
    requires p !in receipts && 0 < r.principal <= r.allocationPrincipalBefore && r.status == Pending && r.txHash.None?
    ensures ReceiptsBound(allocations, vault, c, written, doubled, receipts[p := r], applied)
  {
    forall h | h in c.submitted
      ensures SettlementBound(allocations, vault, receipts[p := r], applied, c.submitted[h], h in written)
    {
      assert SettlementBound(allocations, vault, receipts, applied, c.submitted[h], h in written);
    }
  }

  /** Storing a hash or a confirmation. */
  lemma RestatedBound(allocations: seq<Allocation>, vault: nat, c: Chain, written: set<TxHash>, doubled: set<nat>,
                      receipts: map<Position, Receipt>, applied: set<Position>, p: Position, r: Receipt)
    requires ReceiptsBound(allocations, vault, c, written, doubled, receipts, applied) && p in receipts
    requires r == receipts[p].(status := r.status, txHash := r.txHash) && r.status != Pending
    requires r.txHash.Some? && SentFor(c, r.txHash.value, p, r)
    requires r.status == Confirmed ==> p in applied || LiesInDoubled(allocations, vault, r.allocationId, doubled)
    ensures ReceiptsBound(allocations, vault, c, written, doubled, receipts[p := r], applied)
  {
    forall h | h in c.submitted
      ensures SettlementBound(allocations, vault, receipts[p := r], applied, c.submitted[h], h in written)
      ensures PendingBound(allocations, vault, receipts, applied, c.submitted[h]) ==>
                PendingBound(allocations, vault, receipts[p := r], applied, c.submitted[h])
    {
      assert SettlementBound(allocations, vault, receipts, applied, c.submitted[h], h in written);
    }
  }

  // ----- What the comparison of applyPrincipalReceipt tells -----

  /** The series a receipt's transaction belongs to is the series of its allocation. */
  lemma SettlementSeries(allocations: seq<Allocation>, vault: nat, c: Chain, written: set<TxHash>, doubled: set<nat>,
                         receipts: map<Position, Receipt>, applied: set<Position>, p: Position, k: nat)
    requires ReceiptsBound(allocations, vault, c, written, doubled, receipts, applied) && DistinctIds(allocations)
    requires p in receipts && receipts[p].txHash.Some?
    requires k < |allocations| && allocations[k].id == receipts[p].allocationId
    ensures var h := receipts[p].txHash.value;
      && h in c.submitted
      && c.submitted[h] == Settled(p, allocations[k].id, allocations[k].series, receipts[p].principal, receipts[p].returned)
      && (p !in applied ==> h !in written)
  {
    var h := receipts[p].txHash.value;
    assert SettlementBound(allocations, vault, receipts, applied, c.submitted[h], h in written);
    OneSeries(allocations, vault, k, c.submitted[h].id, c.submitted[h].series);
  }

  /** Outside doubled series, an executed settlement that was not applied took nothing off its allocation yet. */
  lemma NotAppliedOwesAll(allocations: seq<Allocation>, vault: nat, c: Chain, written: set<TxHash>, doubled: set<nat>,
                          receipts: map<Position, Receipt>, applied: set<Position>, p: Position, k: nat)
    requires ReceiptsBound(allocations, vault, c, written, doubled, receipts, applied) && DistinctIds(allocations)
    requires ChainOk(c, written) && p in receipts && p !in applied
    requires receipts[p].txHash.Some? && receipts[p].txHash.value in c.landed
    requires k < |allocations| && allocations[k].id == receipts[p].allocationId && allocations[k].series !in doubled
    ensures RemainingPrincipal(allocations[k]) == Some(receipts[p].allocationPrincipalBefore)
  {
    var r := receipts[p];
    SettlementSeries(allocations, vault, c, written, doubled, receipts, applied, p, k);
    assert PendingBound(allocations, vault, receipts, applied, c.submitted[r.txHash.value]);
    var i :| 0 <= i < |allocations| && allocations[i].id == r.allocationId && allocations[i].vault == vault
             && RemainingPrincipal(allocations[i]) == Some(r.allocationPrincipalBefore);
    assert i == k;
  }

  /** After its receipt was applied, an allocation owes at most what the receipt left, in any series. */
  lemma AppliedOwesLess(allocations: seq<Allocation>, vault: nat, c: Chain, written: set<TxHash>, doubled: set<nat>,
                        receipts: map<Position, Receipt>, applied: set<Position>, p: Position, k: nat)
    requires ReceiptsBound(allocations, vault, c, written, doubled, receipts, applied) && DistinctIds(allocations)
    requires p in receipts && p in applied && k < |allocations| && allocations[k].id == receipts[p].allocationId
    ensures var r, a := receipts[p], allocations[k];
      && r.principal > 0 && RemainingPrincipal(a).Some?
      && RemainingPrincipal(a).value <= r.allocationPrincipalBefore - r.principal
  {
    var r := receipts[p];
    var i :| && 0 <= i < |allocations| && allocations[i].id == r.allocationId && allocations[i].vault == vault
             && RemainingPrincipal(allocations[i]).Some?
             && RemainingPrincipal(allocations[i]).value <= r.allocationPrincipalBefore - r.principal;
    assert i == k;
  }

  /** What reading the remaining principal of its allocation tells about a receipt whose transaction executed. */
  lemma ReadingTells(allocations: seq<Allocation>, vault: nat, c: Chain, written: set<TxHash>, doubled: set<nat>,
                     receipts: map<Position, Receipt>, applied: set<Position>, p: Position, k: nat)
    requires ReceiptsBound(allocations, vault, c, written, doubled, receipts, applied) && DistinctIds(allocations)
    requires ChainOk(c, written) && p in receipts && receipts[p].txHash.Some? && receipts[p].txHash.value in c.landed
    requires k < |allocations| && allocations[k].id == receipts[p].allocationId
    ensures var r, left := receipts[p], RemainingPrincipal(allocations[k]);
      && r.principal > 0
      && (p in applied ==> left.Some? && left.value <= r.allocationPrincipalBefore - r.principal)
      && (p !in applied && allocations[k].series !in doubled ==> left == Some(r.allocationPrincipalBefore))
  {
    if p in applied {
      AppliedOwesLess(allocations, vault, c, written, doubled, receipts, applied, p, k);
    } else if allocations[k].series !in doubled {
      NotAppliedOwesAll(allocations, vault, c, written, doubled, receipts, applied, p, k);
    }
  }
}
