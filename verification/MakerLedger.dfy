/**
 What the maker manager's records mean, as predicates over the chain's series principals,
 the stored documents and the history of relays.  The manager itself is in MakerManager.
 */
module MakerLedger {
  import opened Common
  import opened VaultBacking
  import opened PositionReceipts
  import opened MakerChain

  /**
   A relay: what the record said, the principal its guard had read and whether a transfer of the
   series was in flight at that read, what of the series executed since, and the principal when
   it was submitted.
   */
  datatype Relay = Relay(transfer: Transfer, recorded: Option<int>, read: int, quiet: bool, between: int, sent: int)

  /** What the log says of one relay. */
  ghost function RelayOf(t: Transfer, recorded: Option<int>, read: Chain, now: Chain): Relay
    requires Later(read, now) && now.landed <= now.submitted.Keys
  {
    Relay(t, recorded, OnChain(read, t.series), MakerChain.InFlight(read, t.series) == {},
          Moved(now.submitted, now.landed - read.landed, t.series), OnChain(now, t.series))
  }

  /**
   Every relay was made after its guard read that record and chain agree.  They still agreed
   when it was submitted exactly if what executed in between sums to nothing, which it did if
   nothing of the series was in flight at the read.
   */
  ghost predicate GuardedRelay(relay: Relay) {
    && relay.recorded == Some(relay.read) && relay.sent == relay.read + relay.between
    && (relay.recorded == Some(relay.sent) <==> relay.between == 0)
    && (relay.quiet ==> relay.between == 0)
  }

  ghost predicate RelaysGuarded(log: seq<Relay>) {
    forall i | 0 <= i < |log| :: GuardedRelay(log[i])
  }

  // ----- Position receipts under the lease -----

  /** A receipt's allocation, its series, and what it still owes. */
  ghost predicate Owes(allocations: seq<Allocation>, vault: nat, id: nat, remaining: int) {
    exists k :: 0 <= k < |allocations| && allocations[k].id == id && allocations[k].vault == vault
                && RemainingPrincipal(allocations[k]) == Some(remaining)
  }

  ghost predicate OwesAtMost(allocations: seq<Allocation>, vault: nat, id: nat, most: int) {
    exists k :: 0 <= k < |allocations| && allocations[k].id == id && allocations[k].vault == vault
                && RemainingPrincipal(allocations[k]).Some? && RemainingPrincipal(allocations[k]).value <= most
  }

  ghost predicate LiesIn(allocations: seq<Allocation>, vault: nat, id: nat, series: nat) {
    exists k :: 0 <= k < |allocations| && allocations[k].id == id && allocations[k].vault == vault
                && allocations[k].series == series
  }

  /** The allocation lies in a series where a relay was doubled. */
  ghost predicate LiesInDoubled(allocations: seq<Allocation>, vault: nat, id: nat, doubled: set<nat>) {
    exists k :: 0 <= k < |allocations| && allocations[k].id == id && allocations[k].vault == vault
                && allocations[k].series in doubled
  }

  /** A transaction of this receipt's own settlement. */
  predicate SentFor(c: Chain, h: TxHash, p: Position, r: Receipt) {
    && h in c.submitted && c.submitted[h].Settled? && c.submitted[h].position == p
    && c.submitted[h].id == r.allocationId && c.submitted[h].principal == r.principal
    && c.submitted[h].returned == r.returned
  }

  /** An applied receipt took its principal off for good; outside doubled series a confirmed one was applied. */
  ghost predicate ReceiptBound(allocations: seq<Allocation>, vault: nat, c: Chain, doubled: set<nat>,
                               applied: set<Position>, p: Position, r: Receipt)
  {
    && 0 < r.principal <= r.allocationPrincipalBefore && (r.status == Pending <==> r.txHash.None?)
    && (r.txHash.Some? ==> SentFor(c, r.txHash.value, p, r))
    && (r.status == Confirmed ==> p in applied || LiesInDoubled(allocations, vault, r.allocationId, doubled))
    && (p in applied ==> r.status != Pending)
    && (p in applied ==> OwesAtMost(allocations, vault, r.allocationId, r.allocationPrincipalBefore - r.principal))
  }

  /** A submitted settlement is the one of a stored receipt, and it is written down only by applying that. */
  ghost predicate SettlementBound(allocations: seq<Allocation>, vault: nat, receipts: map<Position, Receipt>,
                                  applied: set<Position>, t: Transfer, isWritten: bool)
  {
    t.Settled? ==>
      && t.position in receipts && receipts[t.position].allocationId == t.id
      && receipts[t.position].principal == t.principal && receipts[t.position].returned == t.returned
      && LiesIn(allocations, vault, t.id, t.series)
      && (isWritten ==> t.position in applied)
  }

  /** A settlement that is pending was not applied, and its allocation still owes the recorded amount. */
  ghost predicate PendingBound(allocations: seq<Allocation>, vault: nat, receipts: map<Position, Receipt>,
                               applied: set<Position>, t: Transfer)
  {
    t.Settled? && t.position in receipts ==>
      t.position !in applied && Owes(allocations, vault, t.id, receipts[t.position].allocationPrincipalBefore)
  }

  ghost predicate ReceiptsBound(allocations: seq<Allocation>, vault: nat, c: Chain, written: set<TxHash>,
                                doubled: set<nat>, receipts: map<Position, Receipt>, applied: set<Position>)
  {
    && applied <= receipts.Keys
    && (forall p | p in receipts :: ReceiptBound(allocations, vault, c, doubled, applied, p, receipts[p]))
    && (forall h | h in c.submitted ::
          SettlementBound(allocations, vault, receipts, applied, c.submitted[h], h in written))
    && (forall h | h in c.submitted && IsPending(c, written, h) && c.submitted[h].series !in doubled ::
          PendingBound(allocations, vault, receipts, applied, c.submitted[h]))
  }

  // ----- Notes and registrations -----

  predicate KnownId(allocations: seq<Allocation>, id: nat) {
    exists k :: 0 <= k < |allocations| && allocations[k].id == id
  }

  /** The output of a position close is never available for trading. */
  predicate CloseOutputsHeld(notes: map<nat, MakerNote>) {
    forall c | c in notes && notes[c].closePosition.Some? :: notes[c].status != NoteAvailable
  }

  /** Every linked note names a recorded allocation. */
  predicate NotesKnown(allocations: seq<Allocation>, notes: map<nat, MakerNote>) {
    && CloseOutputsHeld(notes)
    && forall c | c in notes && notes[c].allocationId.Some? :: KnownId(allocations, notes[c].allocationId.value)
  }

  predicate Linked(notes: map<nat, MakerNote>, id: nat) {
    exists c :: c in notes && notes[c].allocationId == Some(id)
  }

  /** A note made by a deposit: never deleted, and its amount and owner never change. */
  predicate Lasting(a: MakerNote, b: MakerNote) {
    && b.amount == a.amount && b.closePosition == a.closePosition && b.allocationId == a.allocationId
    && b.depositTxHash == a.depositTxHash
  }

  /**
   What trading, note recovery and position closes do to the notes: statuses change and
   new notes appear, each descending from a note of the same allocation; only unfinished
   close outputs may be deleted.
   */
  predicate NotesMove(before: map<nat, MakerNote>, after: map<nat, MakerNote>) {
    && CloseOutputsHeld(after)
    && (forall c | c in before && before[c].closePosition.None? :: c in after && Lasting(before[c], after[c]))
    && (forall c | c in after && after[c].allocationId.Some? :: Linked(before, after[c].allocationId.value))
  }

  predicate Incomplete(a: Allocation, vault: nat) {
    a.vault == vault && a.status != Closed && a.registeredAmount != a.amount
  }

  ghost predicate OneIncomplete(allocations: seq<Allocation>, vault: nat) {
    forall i, j | 0 <= i < j < |allocations| :: !(Incomplete(allocations[i], vault) && Incomplete(allocations[j], vault))
  }

  /** Registered in full by one finalized note of exactly the allocation's amount, or not at all. */
  ghost predicate BackedByOneNote(a: Allocation, notes: map<nat, MakerNote>) {
    || (a.registeredAmount == 0 && a.noteCommitments == {})
    || exists c :: && a.noteCommitments == {c} && c in notes && a.registeredAmount == a.amount == notes[c].amount
                   && notes[c].allocationId == Some(a.id) && notes[c].closePosition.None? && notes[c].depositTxHash.Some?
  }

  ghost predicate AllBacked(allocations: seq<Allocation>, notes: map<nat, MakerNote>) {
    forall i | 0 <= i < |allocations| :: BackedByOneNote(allocations[i], notes)
  }

  /** The deposit of an allocation left a note that stays. */
  predicate Deposited(notes: map<nat, MakerNote>, id: nat) {
    exists c :: c in notes && notes[c].allocationId == Some(id) && notes[c].closePosition.None?
  }

  ghost predicate DepositsOnce(deposits: seq<nat>, notes: map<nat, MakerNote>) {
    && (forall i, j | 0 <= i < j < |deposits| :: deposits[i] != deposits[j])
    && (forall i | 0 <= i < |deposits| :: Deposited(notes, deposits[i]))
  }

  ghost predicate Provisioned(allocations: seq<Allocation>, vault: nat, notes: map<nat, MakerNote>, deposits: seq<nat>) {
    OneIncomplete(allocations, vault) && AllBacked(allocations, notes) && DepositsOnce(deposits, notes)
  }

  lemma NotesMoveKnown(allocations: seq<Allocation>, before: map<nat, MakerNote>, after: map<nat, MakerNote>)
    requires NotesKnown(allocations, before) && NotesMove(before, after)
    ensures NotesKnown(allocations, after)
  {
  }

  lemma NotesMoveUnlinked(before: map<nat, MakerNote>, after: map<nat, MakerNote>, id: nat)
    requires NotesMove(before, after) && !Linked(before, id)
    ensures !Linked(after, id)
  {
  }

  lemma NotesMoveBacked(a: Allocation, before: map<nat, MakerNote>, after: map<nat, MakerNote>)
    requires BackedByOneNote(a, before) && NotesMove(before, after)
    ensures BackedByOneNote(a, after)
  {
    if a.noteCommitments != {} {
      var c :| && a.noteCommitments == {c} && c in before && a.registeredAmount == a.amount == before[c].amount
               && before[c].allocationId == Some(a.id) && before[c].closePosition.None? && before[c].depositTxHash.Some?;
      assert Lasting(before[c], after[c]);
    }
  }

  lemma NotesMoveDeposited(before: map<nat, MakerNote>, after: map<nat, MakerNote>, id: nat)
    requires NotesMove(before, after) && Deposited(before, id)
    ensures Deposited(after, id)
  {
    var c :| c in before && before[c].allocationId == Some(id) && before[c].closePosition.None?;
    assert Lasting(before[c], after[c]);
  }

  /** Whatever happens to the notes meanwhile, provisioning stays in order. */
  lemma NotesMoveProvisioned(allocations: seq<Allocation>, vault: nat, deposits: seq<nat>,
                             before: map<nat, MakerNote>, after: map<nat, MakerNote>)
    requires Provisioned(allocations, vault, before, deposits) && NotesMove(before, after)
    ensures Provisioned(allocations, vault, after, deposits)
  {
    forall i | 0 <= i < |allocations| ensures BackedByOneNote(allocations[i], after) {
      NotesMoveBacked(allocations[i], before, after);
    }
    forall i | 0 <= i < |deposits| ensures Deposited(after, deposits[i]) {
      NotesMoveDeposited(before, after, deposits[i]);
    }
  }

  /** A fresh allocation, with no note yet, when every other one is registered. */
  lemma AppendProvisioned(allocations: seq<Allocation>, vault: nat, notes: map<nat, MakerNote>, deposits: seq<nat>,
                          a: Allocation)
    requires Provisioned(allocations, vault, notes, deposits)
    requires forall i | 0 <= i < |allocations| :: !Incomplete(allocations[i], vault)
    requires a.registeredAmount == 0 && a.noteCommitments == {}
    ensures Provisioned(allocations + [a], vault, notes, deposits)
  {
  }

  /** A rewrite that leaves the registration alone and never reopens an allocation. */
  lemma RewriteProvisioned(allocations: seq<Allocation>, vault: nat, notes: map<nat, MakerNote>, deposits: seq<nat>,
                           k: nat, d: Allocation)
    requires Provisioned(allocations, vault, notes, deposits) && k < |allocations|
    requires var a := allocations[k];
      && d == a.(status := d.status, remainingPrincipal := d.remainingPrincipal)
      && (a.status == Closed ==> d.status == Closed)
    ensures Provisioned(allocations[k := d], vault, notes, deposits)
  {
    var rewritten := allocations[k := d];
    forall i | 0 <= i < |rewritten| ensures BackedByOneNote(rewritten[i], notes) {
      assert BackedByOneNote(allocations[i], notes);
    }
  }

  /** Registering the one note of an allocation. */
  lemma RegisterProvisioned(allocations: seq<Allocation>, vault: nat, notes: map<nat, MakerNote>, deposits: seq<nat>,
                            k: nat, c: nat)
    requires Provisioned(allocations, vault, notes, deposits) && k < |allocations|
    requires allocations[k].noteCommitments == {} && c in notes && notes[c].amount == allocations[k].amount
    requires notes[c].allocationId == Some(allocations[k].id) && notes[c].closePosition.None? && notes[c].depositTxHash.Some?
    ensures var d := allocations[k].(registeredAmount := allocations[k].amount, noteCommitments := {c});
            Provisioned(allocations[k := d], vault, notes, deposits)
  {
    var d := allocations[k].(registeredAmount := allocations[k].amount, noteCommitments := {c});
    var rewritten := allocations[k := d];
    forall i | 0 <= i < |rewritten| ensures BackedByOneNote(rewritten[i], notes) {
      assert BackedByOneNote(allocations[i], notes);
    }
  }

  /** Finalizing, tagging or marking a note that keeps its amount. */
  lemma FinalizeProvisioned(allocations: seq<Allocation>, vault: nat, notes: map<nat, MakerNote>, deposits: seq<nat>,
                            c: nat, n: MakerNote)
    requires Provisioned(allocations, vault, notes, deposits) && c in notes
    requires n.amount == notes[c].amount && n.allocationId == notes[c].allocationId
    requires n.closePosition == notes[c].closePosition
    requires n.depositTxHash.Some? || n.depositTxHash == notes[c].depositTxHash
    ensures Provisioned(allocations, vault, notes[c := n], deposits)
  {
    forall i | 0 <= i < |allocations| ensures BackedByOneNote(allocations[i], notes[c := n]) {
      assert BackedByOneNote(allocations[i], notes);
    }
    forall i | 0 <= i < |deposits| ensures Deposited(notes[c := n], deposits[i]) {
      assert Deposited(notes, deposits[i]);
      var e :| e in notes && notes[e].allocationId == Some(deposits[i]) && notes[e].closePosition.None?;
      assert notes[c := n][e].allocationId == Some(deposits[i]);
    }
  }

  /** Storing a new note under an unused commitment. */
  lemma InsertProvisioned(allocations: seq<Allocation>, vault: nat, notes: map<nat, MakerNote>, deposits: seq<nat>,
                          c: nat, n: MakerNote)
    requires Provisioned(allocations, vault, notes, deposits) && c !in notes
    ensures Provisioned(allocations, vault, notes[c := n], deposits)
  {
    forall i | 0 <= i < |allocations| ensures BackedByOneNote(allocations[i], notes[c := n]) {
      assert BackedByOneNote(allocations[i], notes);
    }
    forall i | 0 <= i < |deposits| ensures Deposited(notes[c := n], deposits[i]) {
      assert Deposited(notes, deposits[i]);
      var e :| e in notes && notes[e].allocationId == Some(deposits[i]) && notes[e].closePosition.None?;
      assert notes[c := n][e] == notes[e];
    }
  }

  /** Relaying the deposit of an allocation that had no note before its pending one was stored. */
  lemma DepositProvisioned(allocations: seq<Allocation>, vault: nat, notes: map<nat, MakerNote>, deposits: seq<nat>,
                           id: nat)
    requires Provisioned(allocations, vault, notes, deposits) && Deposited(notes, id) && id !in deposits
    ensures Provisioned(allocations, vault, notes, deposits + [id])
  {
  }

  /** An allocation whose notes are all gone or never existed was never deposited for. */
  lemma UnlinkedNotDeposited(notes: map<nat, MakerNote>, deposits: seq<nat>, id: nat)
    requires DepositsOnce(deposits, notes) && !Linked(notes, id)
    ensures id !in deposits
  {
  }

  lemma UnknownUnlinked(allocations: seq<Allocation>, notes: map<nat, MakerNote>, id: nat)
    requires NotesKnown(allocations, notes) && !KnownId(allocations, id)
    ensures !Linked(notes, id)
  {
  }

  lemma KnownKept(allocations: seq<Allocation>, notes: map<nat, MakerNote>, k: nat, d: Allocation)
    requires NotesKnown(allocations, notes) && k < |allocations| && d.id == allocations[k].id
    ensures NotesKnown(allocations[k := d], notes)
  {
    forall c | c in notes && notes[c].allocationId.Some?
      ensures KnownId(allocations[k := d], notes[c].allocationId.value)
    {
      var i :| 0 <= i < |allocations| && allocations[i].id == notes[c].allocationId.value;
      assert allocations[k := d][i].id == notes[c].allocationId.value;
    }
  }

  lemma KnownExtended(allocations: seq<Allocation>, notes: map<nat, MakerNote>, a: Allocation)
    requires NotesKnown(allocations, notes)
    ensures NotesKnown(allocations + [a], notes)
  {
    forall c | c in notes && notes[c].allocationId.Some?
      ensures KnownId(allocations + [a], notes[c].allocationId.value)
    {
      var i :| 0 <= i < |allocations| && allocations[i].id == notes[c].allocationId.value;
      assert (allocations + [a])[i].id == notes[c].allocationId.value;
    }
  }
}
