/**
 What every interleaving of settlement processes keeps.

 The heart of the argument: a creator's snapshot of applied decrements is a
 subset of what executed, and a balance post-check that passes pins the executed
 movements of the series to that snapshot plus the receipt's own movement.  Two
 such pinned sets are both states of one growing set, so one contains the other.
 */
module PositionReceiptsProof {
  import opened Common
  import opened VaultBacking
  import opened PositionReceipts

  /** The principal moved by a set of entries. */
  ghost function Total(s: set<Entry>): int {
    if s == {} then 0 else var e :| e in s; e.principal + Total(s - {e})
  }

  ghost function InSeries(s: set<Entry>, series: nat): set<Entry> {
    set e | e in s && e.series == series
  }

  /** The principal of a series moved again by repeated submissions. */
  function Repeats(repeated: seq<Entry>, series: nat): int {
    if repeated == [] then 0
    else Repeats(repeated[..|repeated| - 1], series)
         + if repeated[|repeated| - 1].series == series then repeated[|repeated| - 1].principal else 0
  }

  ghost function OnAllocation(s: set<Entry>, id: nat): set<Entry> {
    set e | e in s && e.allocationId == id
  }

  ghost predicate Positive(s: set<Entry>) {
    forall e | e in s :: e.principal > 0
  }

  lemma {:induction false} TotalWithout(s: set<Entry>, e: Entry)
    requires e in s
    ensures Total(s) == e.principal + Total(s - {e})
  {
    var f :| f in s && Total(s) == f.principal + Total(s - {f});
    if f != e {
      TotalWithout(s - {f}, e);
      TotalWithout(s - {e}, f);
      assert s - {f} - {e} == s - {e} - {f};
    }
  }

  lemma TotalWith(s: set<Entry>, e: Entry)
    requires e !in s
    ensures Total(s + {e}) == Total(s) + e.principal
  {
    TotalWithout(s + {e}, e);
    assert s + {e} - {e} == s;
  }

  lemma {:induction false} TotalSplit(small: set<Entry>, large: set<Entry>)
    requires small <= large
    ensures Total(large) == Total(small) + Total(large - small)
  {
    if small == {} {
      assert large - small == large;
    } else {
      var e :| e in small;
      TotalSplit(small - {e}, large - {e});
      TotalWithout(small, e);
      TotalWithout(large, e);
      assert large - {e} - (small - {e}) == large - small;
    }
  }

  lemma {:induction false} TotalPositive(s: set<Entry>)
    requires Positive(s)
    ensures Total(s) >= 0
    ensures s != {} ==> Total(s) > 0
  {
    if s != {} {
      var e :| e in s;
      TotalPositive(s - {e});
      TotalWithout(s, e);
    }
  }

  lemma {:induction false} RepeatsPositive(repeated: seq<Entry>, executed: set<Entry>, series: nat)
    requires Positive(executed) && forall e | e in repeated :: e in executed
    ensures Repeats(repeated, series) >= 0
  {
    if repeated != [] {
      var last := repeated[|repeated| - 1];
      assert last in repeated;
      RepeatsPositive(repeated[..|repeated| - 1], executed, series);
    }
  }

  lemma RepeatsAfter(repeated: seq<Entry>, e: Entry, series: nat)
    ensures Repeats(repeated + [e], series) == Repeats(repeated, series) + if e.series == series then e.principal else 0
  {
    assert (repeated + [e])[..|repeated|] == repeated;
  }

  /** With positive amounts, a subset of equal total is the whole set. */
  lemma TotalPinsSet(small: set<Entry>, large: set<Entry>)
    requires small <= large && Positive(large) && Total(small) == Total(large)
    ensures small == large
  {
    TotalSplit(small, large);
    TotalPositive(large - small);
    assert large == small + (large - small);
  }

  /** The movements of its series that had executed when a receipt was verified. */
  ghost function Pinned(origin: map<Position, Origin>, e: Entry): set<Entry>
    requires e.position in origin
  {
    InSeries(origin[e.position].seen + {e}, e.series)
  }

  predicate SameIdentity(a: Allocation, b: Allocation) {
    a.(status := b.status, remainingPrincipal := b.remainingPrincipal) == b
  }

  ghost predicate SameStatics(a: seq<Allocation>, b: seq<Allocation>) {
    |a| == |b| && forall i | 0 <= i < |a| :: SameIdentity(a[i], b[i])
  }

  /** A read copy of a document agrees with the stored one on everything but status and remaining principal. */
  ghost predicate Documented(allocations: seq<Allocation>, a: Allocation) {
    exists i :: 0 <= i < |allocations| && SameIdentity(allocations[i], a)
  }

  ghost predicate Known(allocations: seq<Allocation>, vault: nat, e: Entry) {
    exists i :: 0 <= i < |allocations| && allocations[i].id == e.allocationId
                && allocations[i].series == e.series && allocations[i].vault == vault
  }

  /** Each document's remaining principal is what its applied receipts left. */
  ghost predicate AllocationsOk(allocations: seq<Allocation>, initial: map<nat, int>, applied: set<Entry>) {
    && DistinctIds(allocations) && AllValid(allocations)
    && (forall i | 0 <= i < |allocations| :: allocations[i].id in initial)
    && (forall i | 0 <= i < |allocations| ::
          RemainingPrincipal(allocations[i]).value
          == initial[allocations[i].id] - Total(OnAllocation(applied, allocations[i].id)))
  }

  /** Each series principal on the chain is what the executed settlements left, repetitions included. */
  ghost predicate ChainOk(principal: map<nat, int>, initial: map<nat, int>, executed: set<Entry>, repeated: seq<Entry>) {
    && principal.Keys == initial.Keys && (forall e | e in repeated :: e in executed)
    && (forall s | s in principal :: principal[s] == initial[s] - Total(InSeries(executed, s)) - Repeats(repeated, s))
  }

  /** The recorded principal of a series is what the applied receipts left. */
  ghost predicate RecordOk(allocations: seq<Allocation>, vault: nat, initial: map<nat, int>, applied: set<Entry>) {
    forall s | s in initial ::
      RecordedSeriesPrincipal(allocations, vault, s) == Some(initial[s] - Total(InSeries(applied, s)))
  }

  ghost predicate OriginOk(allocations: seq<Allocation>, vault: nat, applied: set<Entry>, p: Position, o: Origin) {
    && o.entry.position == p && o.entry.principal > 0 && Known(allocations, vault, o.entry)
    && o.seen <= applied && o.entry !in o.seen
  }

  ghost predicate OriginsOk(allocations: seq<Allocation>, vault: nat, applied: set<Entry>, origin: map<Position, Origin>) {
    forall p | p in origin :: OriginOk(allocations, vault, applied, p, origin[p])
  }

  ghost predicate EntriesOk(executed: set<Entry>, origin: map<Position, Origin>) {
    forall e | e in executed :: e.position in origin && origin[e.position].entry == e
  }

  /** The verified snapshots of one series are ordered by inclusion. */
  ghost predicate OrderOk(verified: set<Entry>, origin: map<Position, Origin>)
    requires forall e | e in verified :: e.position in origin
  {
    forall e, f | e in verified && f in verified && e.series == f.series ::
      Pinned(origin, e) <= Pinned(origin, f) || Pinned(origin, f) <= Pinned(origin, e)
  }

  ghost predicate ReceiptOk(r: Receipt, o: Origin, initialRemaining: map<nat, int>, initialPrincipal: map<nat, int>,
                            txs: map<TxHash, Tx>, applied: set<Entry>)
  {
    && r.allocationId == o.entry.allocationId && r.principal == o.entry.principal
    && r.allocationId in initialRemaining && o.entry.series in initialPrincipal
    && r.allocationPrincipalBefore == initialRemaining[r.allocationId] - Total(OnAllocation(o.seen, r.allocationId))
    && r.seriesPrincipalBefore == initialPrincipal[o.entry.series] - Total(InSeries(o.seen, o.entry.series))
    && r.principal <= r.allocationPrincipalBefore
    && (r.status == Pending <==> r.txHash.None?)
    && (r.txHash.Some? ==> r.txHash.value in txs && txs[r.txHash.value].entry == o.entry)
    && (r.status == Confirmed ==> o.entry in applied)
  }

  ghost predicate ReceiptsOk(receipts: map<Position, Receipt>, origin: map<Position, Origin>,
                             initialRemaining: map<nat, int>, initialPrincipal: map<nat, int>,
                             txs: map<TxHash, Tx>, applied: set<Entry>)
  {
    && origin.Keys == receipts.Keys
    && forall p | p in receipts :: ReceiptOk(receipts[p], origin[p], initialRemaining, initialPrincipal, txs, applied)
  }

  ghost predicate TxsOk(txs: map<TxHash, Tx>, origin: map<Position, Origin>, relayed: seq<Position>, executed: set<Entry>) {
    && (forall h | h in txs ::
          && txs[h].entry.position in origin && origin[txs[h].entry.position].entry == txs[h].entry
          && txs[h].entry.position in relayed
          && (txs[h].state == Succeeded ==> txs[h].entry in executed))
    && (forall e | e in executed :: e.position in relayed)
  }

  ghost predicate RelayedOk(relayed: seq<Position>, positions: set<Position>) {
    && (forall p | p in relayed :: p in positions)
    && (forall i, j | 0 <= i < j < |relayed| :: relayed[i] != relayed[j])
  }

  ghost predicate AllocationInv(w: Books) { AllocationsOk(w.allocations, w.initialRemaining, w.applied) }

  ghost predicate ChainInv(w: Books) {
    ChainOk(w.principal, w.initialPrincipal, w.executed, w.repeated)
  }

  ghost predicate RecordInv(w: Books) { RecordOk(w.allocations, w.vault, w.initialPrincipal, w.applied) }

  ghost predicate HistoryInv(w: Books) {
    && w.applied <= w.verified <= w.executed
    && OriginsOk(w.allocations, w.vault, w.applied, w.origin)
    && EntriesOk(w.executed, w.origin)
  }

  ghost predicate OrderInv(w: Books)
    requires HistoryInv(w)
  {
    OrderOk(w.verified, w.origin)
  }

  ghost predicate ReceiptInv(w: Books) {
    ReceiptsOk(w.receipts, w.origin, w.initialRemaining, w.initialPrincipal, w.txs, w.applied)
  }

  ghost predicate TxInv(w: Books) { TxsOk(w.txs, w.origin, w.relayed, w.executed) }

  ghost predicate RelayInv(w: Books) { RelayedOk(w.relayed, w.receipts.Keys) }

  /** What a snapshot of the allocations is worth, in terms of the decrements it shows. */
  ghost predicate SnapshotOk(vault: nat, initialPrincipal: map<nat, int>, initialRemaining: map<nat, int>,
                             allocation: Allocation, snapshot: seq<Allocation>, seen: set<Entry>)
  {
    && allocation.vault == vault && allocation.id in initialRemaining
    && RemainingPrincipal(allocation) == Some(initialRemaining[allocation.id] - Total(OnAllocation(seen, allocation.id)))
    && RecordOk(snapshot, vault, initialPrincipal, seen)
  }

  ghost predicate LocalsOk(w: Books, l: Locals) {
    && l.input.principal > 0 && l.allocation.id == l.input.allocationId
    && Documented(w.allocations, l.allocation) && l.seen <= w.applied
    && SnapshotOk(w.vault, w.initialPrincipal, w.initialRemaining, l.allocation, l.snapshot, l.seen)
  }

  /** The process saw no decrement of its own position. */
  ghost predicate Unseen(l: Locals) {
    forall e | e in l.seen :: e.position != l.input.position
  }

  /** The requested principal is within what the read document still owes. */
  predicate Fits(l: Locals) {
    RemainingPrincipal(l.allocation).Some? && l.input.principal <= RemainingPrincipal(l.allocation).value
  }

  ghost predicate SameTerms(a: Receipt, b: Receipt) {
    a.(status := b.status, txHash := b.txHash) == b
  }

  ghost predicate Holds(w: Books, l: Locals, r: Receipt) {
    && LocalsOk(w, l)
    && l.input.position in w.origin && w.origin[l.input.position].entry == EntryOf(l)
    && l.input.position in w.receipts && SameTerms(r, w.receipts[l.input.position])
  }

  ghost predicate Hashed(w: Books, l: Locals, r: Receipt) {
    r.txHash.Some? && r.txHash.value in w.txs && w.txs[r.txHash.value].entry == EntryOf(l)
  }

  ghost predicate ProposalOk(w: Books, l: Locals, r: Receipt) {
    && r.allocationId == l.allocation.id && r.principal == l.input.principal
    && r.allocationId in w.initialRemaining && l.allocation.series in w.initialPrincipal
    && r.allocationPrincipalBefore == w.initialRemaining[r.allocationId] - Total(OnAllocation(l.seen, r.allocationId))
    && r.seriesPrincipalBefore == w.initialPrincipal[l.allocation.series] - Total(InSeries(l.seen, l.allocation.series))
    && r.principal <= r.allocationPrincipalBefore && r.status == Pending && r.txHash.None?
  }

  ghost predicate PreparingOk(w: Books, l: Locals, next: Preparation) {
    match next
    case ReadingBefore(got) => Unseen(l) && Fits(l)
    case Inserting(r) => Unseen(l) && ProposalOk(w, l, r)
    case _ => true
  }

  ghost predicate SettlingOk(w: Books, l: Locals, r: Receipt, at: Settlement) {
    match at
    case ReadingCurrent(got) => true
    case Relaying => true
    case SavingHash(hash) => hash in w.txs && w.txs[hash].entry == EntryOf(l)
    case CheckingTx => Hashed(w, l, r)
    case ReadingAfter(got) =>
      Hashed(w, l, r) && EntryOf(l) in w.executed &&
      (|got| > 0 && got[0] == r.seriesPrincipalBefore - l.input.principal ==> EntryOf(l) in w.verified)
    case FindingPrincipal => Hashed(w, l, r) && EntryOf(l) in w.verified
    case Decrementing(current) =>
      && Hashed(w, l, r) && EntryOf(l) in w.verified && SameIdentity(l.allocation, current)
      && RemainingPrincipal(current) == Some(r.allocationPrincipalBefore)
    case MarkingSettled => Hashed(w, l, r) && EntryOf(l) in w.applied
    case FindingFinal => Hashed(w, l, r) && Final(w, l, r)
    case CountingNotes => Hashed(w, l, r) && Final(w, l, r)
    case ClosingAllocation => Hashed(w, l, r) && Final(w, l, r)
    case Confirming => Hashed(w, l, r) && EntryOf(l) in w.applied
  }

  ghost predicate ProcOk(w: Books, p: Proc) {
    match p
    case Preparing(l, next) => LocalsOk(w, l) && PreparingOk(w, l, next)
    case Settling(l, r, at) => Holds(w, l, r) && SettlingOk(w, l, r, at)
    case _ => true
  }

  ghost predicate Final(w: Books, l: Locals, r: Receipt) {
    EntryOf(l) in w.applied && r.allocationPrincipalBefore == l.input.principal
  }

  /** The position a process is entitled to relay for. */
  ghost function Owned(p: Proc): Option<Position> {
    if p.Settling? && (p.at.ReadingCurrent? || p.at.Relaying?) then Some(p.l.input.position) else None
  }

  ghost predicate OwnerInv(b: Books, procs: map<Pid, Proc>) {
    && (forall pid | pid in procs && Owned(procs[pid]).Some? ::
          Owned(procs[pid]).value in b.receipts && Owned(procs[pid]).value !in b.relayed)
    && (forall p, q | p in procs && q in procs && p != q && Owned(procs[p]).Some? ::
          Owned(procs[p]) != Owned(procs[q]))
  }

  ghost predicate ProcInv(b: Books, procs: map<Pid, Proc>) {
    forall pid | pid in procs :: ProcOk(b, procs[pid])
  }

  ghost predicate BooksInv(w: Books) {
    MoneyInv(w) && PaperInv(w)
  }

  ghost predicate MoneyInv(w: Books) {
    AllocationInv(w) && ChainInv(w) && RecordInv(w) && HistoryInv(w) && OrderInv(w)
  }

  ghost predicate PaperInv(w: Books) {
    ReceiptInv(w) && TxInv(w) && RelayInv(w)
  }

  ghost predicate Inv(w: World) {
    BooksInv(w.books) && OwnerInv(w.books, w.procs) && ProcInv(w.books, w.procs)
  }

  /** What no step takes back: enough to keep every other process's facts. */
  ghost predicate Grows(w: Books, v: Books) {
    && v.vault == w.vault && SameStatics(w.allocations, v.allocations)
    && v.initialPrincipal == w.initialPrincipal && v.initialRemaining == w.initialRemaining
    && w.executed <= v.executed && w.verified <= v.verified && w.applied <= v.applied
    && (forall p | p in w.origin :: p in v.origin && v.origin[p] == w.origin[p])
    && (forall p | p in w.receipts :: p in v.receipts && SameTerms(w.receipts[p], v.receipts[p]))
    && (forall h | h in w.txs :: h in v.txs && v.txs[h].entry == w.txs[h].entry)
  }

  lemma KnownStable(a: seq<Allocation>, b: seq<Allocation>, vault: nat, e: Entry)
    requires SameStatics(a, b) && Known(a, vault, e)
    ensures Known(b, vault, e)
  {
    var i :| 0 <= i < |a| && a[i].id == e.allocationId && a[i].series == e.series && a[i].vault == vault;
    assert b[i].id == e.allocationId;
  }

  lemma DocumentedStable(a: seq<Allocation>, b: seq<Allocation>, d: Allocation)
    requires SameStatics(a, b) && Documented(a, d)
    ensures Documented(b, d)
  {
    var i :| 0 <= i < |a| && SameIdentity(a[i], d);
    assert SameIdentity(b[i], d);
  }

  lemma LocalsStable(w: Books, v: Books, l: Locals)
    requires Grows(w, v) && LocalsOk(w, l)
    ensures LocalsOk(v, l)
  {
    DocumentedStable(w.allocations, v.allocations, l.allocation);
  }

  lemma HoldsStable(w: Books, v: Books, l: Locals, r: Receipt)
    requires Grows(w, v) && Holds(w, l, r)
    ensures Holds(v, l, r)
  {
    LocalsStable(w, v, l);
  }

  lemma SettlingStable(w: Books, v: Books, l: Locals, r: Receipt, at: Settlement)
    requires w.executed <= v.executed && w.verified <= v.verified && w.applied <= v.applied
    requires forall h | h in w.txs :: h in v.txs && v.txs[h].entry == w.txs[h].entry
    requires SettlingOk(w, l, r, at)
    ensures SettlingOk(v, l, r, at)
  {
  }

  lemma ProcStable(w: Books, v: Books, p: Proc)
    requires Grows(w, v) && ProcOk(w, p)
    ensures ProcOk(v, p)
  {
    match p
    case Preparing(l, next) => LocalsStable(w, v, l);
    case Settling(l, r, at) =>
      HoldsStable(w, v, l, r);
      SettlingStable(w, v, l, r, at);
    case _ =>
  }

  /** Every other process keeps its facts when the books grow and one process moves. */
  lemma OthersStable(w: Books, v: Books, procs: map<Pid, Proc>, pid: Pid, p: Proc)
    requires Grows(w, v) && ProcInv(w, procs) && ProcOk(v, p)
    ensures ProcInv(v, procs[pid := p])
  {
    var moved := procs[pid := p];
    forall q | q in moved ensures ProcOk(v, moved[q]) {
      if q != pid { ProcStable(w, v, procs[q]); }
    }
  }

  // ----- The three arguments that carry the proof -----

  lemma EntryTerms(w: Books, l: Locals, r: Receipt)
    requires HistoryInv(w) && ReceiptInv(w) && Holds(w, l, r)
    ensures 0 < EntryOf(l).principal <= r.allocationPrincipalBefore && EntryOf(l) !in w.origin[l.input.position].seen
    ensures w.origin[l.input.position].seen <= w.applied <= w.executed
    ensures l.allocation.series in w.initialPrincipal && l.allocation.id in w.initialRemaining
    ensures r.seriesPrincipalBefore == w.initialPrincipal[l.allocation.series]
              - Total(InSeries(w.origin[l.input.position].seen, l.allocation.series))
    ensures r.allocationPrincipalBefore == w.initialRemaining[l.allocation.id]
              - Total(OnAllocation(w.origin[l.input.position].seen, l.allocation.id))
  {
    var p := l.input.position;
    assert OriginOk(w.allocations, w.vault, w.applied, p, w.origin[p]);
  }

  lemma ExecutedPositive(w: Books)
    requires HistoryInv(w)
    ensures Positive(w.executed) && Positive(w.applied)
  {
    forall f | f in w.executed ensures f.principal > 0 {
      assert OriginOk(w.allocations, w.vault, w.applied, f.position, w.origin[f.position]);
    }
  }

  /** In a series where `seen` and `e` are among the executed movements and nothing else shows. */
  lemma PinnedSet(executed: set<Entry>, seen: set<Entry>, e: Entry, more: int)
    requires seen <= executed && e in executed && e !in seen && Positive(executed) && more >= 0
    requires Total(InSeries(executed, e.series)) + more == Total(InSeries(seen, e.series)) + e.principal
    ensures InSeries(executed, e.series) == InSeries(seen + {e}, e.series) && more == 0
  {
    var pinned, all := InSeries(seen + {e}, e.series), InSeries(executed, e.series);
    assert pinned == InSeries(seen, e.series) + {e};
    TotalWith(InSeries(seen, e.series), e);
    TotalSplit(pinned, all);
    TotalPositive(all - pinned);
    TotalPinsSet(pinned, all);
  }

  /** A series principal that reads as expected leaves room for no other movement, not even a repeated one. */
  lemma {:induction false} PinnedAtCheck(w: Books, l: Locals, r: Receipt)
    requires ChainInv(w) && HistoryInv(w) && ReceiptInv(w) && Holds(w, l, r)
    requires EntryOf(l) in w.executed && l.allocation.series in w.principal
    requires w.principal[l.allocation.series] == r.seriesPrincipalBefore - l.input.principal
    ensures InSeries(w.executed, l.allocation.series) == Pinned(w.origin, EntryOf(l))
    ensures Repeats(w.repeated, l.allocation.series) == 0
  {
    EntryTerms(w, l, r);
    ExecutedPositive(w);
    RepeatsPositive(w.repeated, w.executed, l.allocation.series);
    PinnedSet(w.executed, w.origin[l.input.position].seen, EntryOf(l), Repeats(w.repeated, l.allocation.series));
  }

  lemma SameSeries(allocations: seq<Allocation>, vault: nat, e: Entry, f: Entry)
    requires DistinctIds(allocations) && e.allocationId == f.allocationId
    requires Known(allocations, vault, e) && Known(allocations, vault, f)
    ensures e.series == f.series
  {
    var i :| 0 <= i < |allocations| && allocations[i].id == e.allocationId && allocations[i].series == e.series;
    var j :| 0 <= j < |allocations| && allocations[j].id == f.allocationId && allocations[j].series == f.series;
    assert i == j;
  }

  /** Of two verified receipts of one series, one applied outside the other's snapshot saw it applied. */
  lemma AppliedLaterSawIt(w: Books, e: Entry, f: Entry)
    requires HistoryInv(w) && OrderInv(w) && e in w.verified && f in w.applied && f != e && e.series == f.series
    requires f !in w.origin[e.position].seen
    ensures e in w.applied
  {
    assert OriginOk(w.allocations, w.vault, w.applied, f.position, w.origin[f.position]);
    assert f in Pinned(w.origin, f) && f !in Pinned(w.origin, e);
    assert e in Pinned(w.origin, e) && Pinned(w.origin, e) <= Pinned(w.origin, f);
  }

  /** Something beyond the snapshot was applied to an allocation whose principal is lower. */
  lemma SomethingApplied(applied: set<Entry>, seen: set<Entry>, id: nat) returns (f: Entry)
    requires seen <= applied && Total(OnAllocation(applied, id)) != Total(OnAllocation(seen, id))
    ensures f in applied && f !in seen && f.allocationId == id
  {
    assert OnAllocation(applied, id) != OnAllocation(seen, id);
    f :| f in OnAllocation(applied, id) && f !in OnAllocation(seen, id);
  }

  /** Reading the decremented value means this very receipt was applied before. */
  lemma {:induction false} SkipMeansApplied(w: Books, l: Locals, r: Receipt, k: nat)
    requires AllocationInv(w) && HistoryInv(w) && OrderInv(w) && ReceiptInv(w)
    requires Holds(w, l, r) && EntryOf(l) in w.verified
    requires k < |w.allocations| && w.allocations[k].id == l.allocation.id
    requires RemainingPrincipal(w.allocations[k]) == Some(r.allocationPrincipalBefore - l.input.principal)
    ensures EntryOf(l) in w.applied
  {
    EntryTerms(w, l, r);
    var f := SomethingApplied(w.applied, w.origin[l.input.position].seen, l.allocation.id);
    if f != EntryOf(l) {
      assert OriginOk(w.allocations, w.vault, w.applied, f.position, w.origin[f.position]);
      SameSeries(w.allocations, w.vault, EntryOf(l), f);
      AppliedLaterSawIt(w, EntryOf(l), f);
    }
  }

  /** Reading the value recorded at creation means no decrement of this receipt yet. */
  lemma {:induction false} DecrementIsFresh(w: Books, l: Locals, r: Receipt, k: nat)
    requires AllocationInv(w) && HistoryInv(w) && ReceiptInv(w) && Holds(w, l, r)
    requires k < |w.allocations| && w.allocations[k].id == l.allocation.id
    requires RemainingPrincipal(w.allocations[k]) == Some(r.allocationPrincipalBefore)
    ensures EntryOf(l) !in w.applied
  {
    var id, seen := l.allocation.id, w.origin[l.input.position].seen;
    EntryTerms(w, l, r);
    ExecutedPositive(w);
    TotalPinsSet(OnAllocation(seen, id), OnAllocation(w.applied, id));
    assert EntryOf(l) !in OnAllocation(seen, id);
  }

  // ----- What a changed book keeps -----

  lemma OriginsStable(w: Books, v: Books)
    requires OriginsOk(w.allocations, w.vault, w.applied, w.origin)
    requires SameStatics(w.allocations, v.allocations) && v.vault == w.vault && w.applied <= v.applied
    ensures OriginsOk(v.allocations, v.vault, v.applied, w.origin)
  {
    forall p | p in w.origin ensures OriginOk(v.allocations, v.vault, v.applied, p, w.origin[p]) {
      assert OriginOk(w.allocations, w.vault, w.applied, p, w.origin[p]);
      KnownStable(w.allocations, v.allocations, w.vault, w.origin[p].entry);
    }
  }

  lemma ReceiptsStable(w: Books, v: Books)
    requires ReceiptInv(w) && w.applied <= v.applied
    requires v.initialPrincipal == w.initialPrincipal && v.initialRemaining == w.initialRemaining
    requires forall h | h in w.txs :: h in v.txs && v.txs[h].entry == w.txs[h].entry
    ensures ReceiptsOk(w.receipts, w.origin, v.initialRemaining, v.initialPrincipal, v.txs, v.applied)
  {
  }

  lemma GrowsReflexive(w: Books)
    ensures Grows(w, w)
  {
  }
}
