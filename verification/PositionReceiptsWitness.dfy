/** A run from a start state in which one relay, submitted twice, moves the principal twice. */
module PositionReceiptsWitness {
  import opened Common
  import opened VaultBacking
  import opened PositionReceipts

  ghost predicate Reachable(w: World, v: World) {
    exists actions :: Run(w, actions) == v
  }

  lemma RunOn(w: World, actions: seq<Action>, a: Action)
    ensures Run(w, actions + [a]) == Next(Run(w, actions), a)
  {
    assert (actions + [a])[..|actions|] == actions;
  }

  lemma ReachableStart(w: World)
    ensures Reachable(w, w)
  {
    assert Run(w, []) == w;
  }

  lemma ReachableNext(w: World, v: World, a: Action)
    requires Reachable(w, v)
    ensures Reachable(w, Next(v, a))
  {
    var actions :| Run(w, actions) == v;
    RunOn(w, actions, a);
  }

  // ----- Two submissions of one relay -----

  /** A process about to relay, and a vault and maker that can pay its amount twice. */
  predicate CanPayTwice(w: World, pid: Pid) {
    && pid in w.procs && w.procs[pid].Settling? && w.procs[pid].at.Relaying?
    && var e, r := EntryOf(w.procs[pid].l), w.procs[pid].receipt;
       && e.series in w.books.principal && e.series in w.liquid
       && 0 < 2 * e.principal <= w.books.principal[e.series] && 0 < 2 * r.returned <= w.makerBalance
  }

  lemma RelayWritesTwo(w: World, pid: Pid, h: TxHash, k: TxHash)
    requires CanPayTwice(w, pid) && h != k && h !in w.books.txs && k !in w.books.txs
    ensures var v := Next(w, Step(pid, Choice(true, {h, k}, h)));
      var t := Tx(EntryOf(w.procs[pid].l), w.procs[pid].receipt.returned, InFlight);
      && h in v.books.txs && k in v.books.txs && v.books.txs[h] == t && v.books.txs[k] == t
      && v.books.principal == w.books.principal && v.books.repeated == w.books.repeated
      && v.liquid == w.liquid && v.makerBalance == w.makerBalance
  {
    var c := Choice(true, {h, k}, h);
    assert AllNew(w.books, c) && Sent(c) == {h, k};
    assert NextBooks(w, w.procs[pid], c) == WithRelay(w.books, w.procs[pid].l, w.procs[pid].receipt, c);
  }

  lemma ExecuteWrites(w: World, h: TxHash)
    requires h in w.books.txs && w.books.txs[h].state == InFlight && Accepts(w, w.books.txs[h])
    ensures var v, t := Next(w, Execute(h)), w.books.txs[h];
      && v.books == WithOutcome(w.books, h, true) && t.entry.series in v.liquid
      && v.makerBalance == w.makerBalance - t.returned
  {
  }

  /**
   From any reachable state with a process about to relay: its relay is submitted twice, both
   transactions execute, and the principal falls by twice the amount, the second time as a repetition.
   */
  lemma TwoSubmissionsRepeat(start: World, w: World, pid: Pid, h: TxHash, k: TxHash)
    requires Reachable(start, w) && CanPayTwice(w, pid)
    requires h != k && h !in w.books.txs && k !in w.books.txs
    ensures var e, relayed := EntryOf(w.procs[pid].l), Next(w, Step(pid, Choice(true, {h, k}, h)));
      var v := Next(Next(relayed, Execute(h)), Execute(k));
      && Reachable(start, v) && v.books.repeated != [] && v.books.repeated[|v.books.repeated| - 1] == e
      && e.series in v.books.principal
      && v.books.principal[e.series] == w.books.principal[e.series] - 2 * e.principal
  {
    var relayed := Next(w, Step(pid, Choice(true, {h, k}, h)));
    RelayWritesTwo(w, pid, h, k);
    ReachableNext(start, w, Step(pid, Choice(true, {h, k}, h)));
    var once := Next(relayed, Execute(h));
    ExecuteWrites(relayed, h);
    ReachableNext(start, relayed, Execute(h));
    ExecuteWrites(once, k);
    ReachableNext(start, once, Execute(k));
  }

  // ----- A process about to relay can be reached -----

  /** A position whose close output was recovered, in a vault that can settle it. */
  ghost predicate Settleable(w: World, input: Input, k: nat) {
    && k < |w.books.allocations| && input.noteCommitment in w.notes
    && FindAllocation(w.books.allocations, input.allocationId) == Some(k) && input.principal > 0
    && var a, n := w.books.allocations[k], w.notes[input.noteCommitment];
       && a.vault == w.books.vault && a.maker == w.maker && a.asset == w.asset && a.status == Outstanding
       && RemainingPrincipal(a).Some? && input.principal <= RemainingPrincipal(a).value
       && n.allocationId == Some(a.id) && n.closePosition == Some(input.position) && n.status == NoteSpent
       && n.recoveredAmount.Some? && n.recoveredAmount.value > 0 && n.closeTxHash == Some(input.closeTxHash)
       && n.wallet == a.maker && a.series in w.books.principal && a.series in w.liquid
       && input.principal <= w.books.principal[a.series] && n.recoveredAmount.value <= w.makerBalance
  }

  const GO := Choice(true, {}, 0)

  function With(w: World, pid: Pid, p: Proc): World {
    w.(procs := w.procs[pid := p])
  }

  /** A step that only reads. */
  lemma ReadStep(start: World, w: World, pid: Pid, p: Proc, next: Proc)
    requires Reachable(start, With(w, pid, p)) && next == NextProc(With(w, pid, p), p, GO)
    requires NextBooks(With(w, pid, p), p, GO) == w.books && NextNotes(With(w, pid, p), p) == w.notes
    ensures Reachable(start, With(w, pid, next))
  {
    ReachableNext(start, With(w, pid, p), Step(pid, GO));
    assert With(With(w, pid, p), pid, next) == With(w, pid, next);
  }

  /** The receipt proposed when nothing moves between the three reads. */
  function Proposal(w: World, l: Locals): Receipt
    requires RemainingPrincipal(l.allocation).Some?
    requires l.allocation.series in w.books.principal && l.allocation.series in w.liquid
  {
    Receipt(l.allocation.id, RemainingPrincipal(l.allocation).value, l.input.closeTxHash, w.makerBalance,
            l.input.noteCommitment, l.input.principal, l.returned, w.liquid[l.allocation.series],
            w.books.principal[l.allocation.series], Pending, None)
  }

  predicate CanPropose(w: World, l: Locals) {
    && RemainingPrincipal(l.allocation).Some?
    && l.allocation.series in w.books.principal && l.allocation.series in w.liquid
    && RecordedSeriesPrincipal(l.snapshot, w.books.vault, l.allocation.series)
       == Some(w.books.principal[l.allocation.series])
    && l.input.principal <= w.books.principal[l.allocation.series] && l.returned <= w.makerBalance
  }

  lemma ReadsBefore(start: World, w: World, pid: Pid, l: Locals)
    requires Reachable(start, With(w, pid, Preparing(l, ReadingBefore([])))) && CanPropose(w, l)
    ensures Reachable(start, With(w, pid, Preparing(l, Inserting(Proposal(w, l)))))
  {
    var s := l.allocation.series;
    var one, two := [w.books.principal[s]], [w.books.principal[s], w.liquid[s]];
    assert [] + [w.books.principal[s]] == one && one + [w.liquid[s]] == two;
    ReadStep(start, w, pid, Preparing(l, ReadingBefore([])), Preparing(l, ReadingBefore(one)));
    ReadStep(start, w, pid, Preparing(l, ReadingBefore(one)), Preparing(l, ReadingBefore(two)));
    ReadStep(start, w, pid, Preparing(l, ReadingBefore(two)), Preparing(l, Inserting(Proposal(w, l))));
  }

  lemma ReadsCurrent(start: World, w: World, pid: Pid, l: Locals, r: Receipt)
    requires Reachable(start, With(w, pid, Settling(l, r, ReadingCurrent([]))))
    requires CanPropose(w, l) && r == Proposal(w, l)
    ensures Reachable(start, With(w, pid, Settling(l, r, Relaying)))
  {
    var s := l.allocation.series;
    var one, two := [w.books.principal[s]], [w.books.principal[s], w.liquid[s]];
    assert [] + [w.books.principal[s]] == one && one + [w.liquid[s]] == two;
    ReadStep(start, w, pid, Settling(l, r, ReadingCurrent([])), Settling(l, r, ReadingCurrent(one)));
    ReadStep(start, w, pid, Settling(l, r, ReadingCurrent(one)), Settling(l, r, ReadingCurrent(two)));
    ReadStep(start, w, pid, Settling(l, r, ReadingCurrent(two)), Settling(l, r, Relaying));
  }

  /** The first reader of the proposal inserts it and goes on with it. */
  lemma Inserts(start: World, w: World, pid: Pid, l: Locals)
    requires CanPropose(w, l) && l.input.position !in w.books.receipts
    requires Reachable(start, With(w, pid, Preparing(l, Inserting(Proposal(w, l)))))
    ensures var r := Proposal(w, l);
      Reachable(start, With(w.(books := WithReceipt(w.books, l, r)), pid, Settling(l, r, ReadingCurrent([]))))
  {
    var r, p := Proposal(w, l), Preparing(l, Inserting(Proposal(w, l)));
    var stored := w.(books := WithReceipt(w.books, l, r));
    ReachableNext(start, With(w, pid, p), Step(pid, GO));
    assert NextProc(With(w, pid, p), p, GO) == Settling(l, r, ReadingCurrent([]));
    assert With(With(stored, pid, p), pid, Settling(l, r, ReadingCurrent([])))
        == With(stored, pid, Settling(l, r, ReadingCurrent([])));
  }

  /** The locals of a process that has read the allocations and the note. */
  function LocalsOf(w: World, input: Input, k: nat): Locals
    requires k < |w.books.allocations| && input.noteCommitment in w.notes
    requires w.notes[input.noteCommitment].recoveredAmount.Some?
  {
    Locals(input, w.books.allocations[k], w.books.allocations, w.books.applied,
           w.notes[input.noteCommitment].recoveredAmount.value)
  }

  lemma ReachesReads(w: World, pid: Pid, input: Input, k: nat)
    requires Init(w) && Settleable(w, input, k)
    ensures Reachable(w, With(w, pid, Preparing(LocalsOf(w, input, k), ReadingBefore([]))))
  {
    var l := LocalsOf(w, input, k);
    ReachableStart(w);
    ReachableNext(w, w, Spawn(pid, input));
    ReadStep(w, w, pid, ReadingAllocations(input), Preparing(l.(returned := 0), ReadingNote));
    ReadStep(w, w, pid, Preparing(l.(returned := 0), ReadingNote), Preparing(l, VerifyingClose));
    ReadStep(w, w, pid, Preparing(l, VerifyingClose), Preparing(l, FindingReceipt));
    ReadStep(w, w, pid, Preparing(l, FindingReceipt), Preparing(l, ReadingBefore([])));
  }

  /** From the start to the relay, with nothing moved on the way. */
  lemma ReachesRelay(w: World, pid: Pid, input: Input, k: nat) returns (v: World)
    requires Init(w) && Settleable(w, input, k)
    ensures Reachable(w, v) && pid in v.procs && v.procs[pid].Settling? && v.procs[pid].at.Relaying?
    ensures EntryOf(v.procs[pid].l) == Entry(input.position, w.books.allocations[k].id,
                                             w.books.allocations[k].series, input.principal)
    ensures v.procs[pid].receipt.returned == w.notes[input.noteCommitment].recoveredAmount.value
    ensures v.books.txs == w.books.txs && v.books.principal == w.books.principal
    ensures v.liquid == w.liquid && v.makerBalance == w.makerBalance
  {
    var l := LocalsOf(w, input, k);
    var r := Proposal(w, l);
    ReachesReads(w, pid, input, k);
    ReadsBefore(w, w, pid, l);
    Inserts(w, w, pid, l);
    var stored := w.(books := WithReceipt(w.books, l, r));
    ReadsCurrent(w, stored, pid, l, r);
    v := With(stored, pid, Settling(l, r, Relaying));
  }

  /** So from every start state that can pay a settlement twice, some run does. */
  lemma RetriedSettlementRepeats(w: World, pid: Pid, input: Input, k: nat, h: TxHash, j: TxHash)
    requires Init(w) && Settleable(w, input, k) && h != j
    requires 2 * input.principal <= w.books.principal[w.books.allocations[k].series]
    requires 2 * w.notes[input.noteCommitment].recoveredAmount.value <= w.makerBalance
    ensures var a := w.books.allocations[k];
      exists v :: && Reachable(w, v) && v.books.repeated != [] && a.series in v.books.principal
                  && v.books.repeated[|v.books.repeated| - 1] == Entry(input.position, a.id, a.series, input.principal)
                  && v.books.principal[a.series] == w.books.principal[a.series] - 2 * input.principal
  {
    var v := ReachesRelay(w, pid, input, k);
    assert w.books.txs == map[];
    TwoSubmissionsRepeat(w, v, pid, h, j);
  }
}
