/**
 The per-position settlement of vault-maker principal
 (scripts/operations/settle-vault-maker-position.ts) as a state machine over its steps.

 Every await of the source is one step of its own, any number of processes run
 at once, and a process may disappear between any two steps.  One relay may submit any
 number of transactions, because the relayer runs its command again after a timeout; each
 waits in the network until it executes, is rejected, or never does.  The fields `relayed`,
 `executed`, `repeated`, `applied`, `verified` and `origin` record history: no step reads
 them to decide what to do.
 */
module PositionReceipts {
  import opened Common
  import opened VaultBacking

  type Position = nat
  type TxHash = nat
  type Pid = nat

  datatype ReceiptStatus = Pending | Submitted | Confirmed

  datatype Receipt = Receipt(
    allocationId: nat,
    allocationPrincipalBefore: int,
    closeTxHash: nat,
    makerBalanceBefore: int,
    noteCommitment: nat,
    principal: int,
    returned: int,
    seriesLiquidBefore: int,
    seriesPrincipalBefore: int,
    status: ReceiptStatus,
    txHash: Option<TxHash>)

  /** The money movement a receipt stands for. */
  datatype Entry = Entry(position: Position, allocationId: nat, series: nat, principal: int)

  datatype TxState = InFlight | Succeeded | Rejected

  /** One relayed `settle` call. */
  datatype Tx = Tx(entry: Entry, returned: int, state: TxState)

  /** Where a receipt came from: its movement and the decrements its creator had seen. */
  datatype Origin = Origin(entry: Entry, seen: set<Entry>)

  datatype Input = Input(
    allocationId: nat,
    closeTxHash: nat,
    noteCommitment: nat,
    position: Position,
    principal: int)

  /** Local variables of a process once it has read the allocations. */
  datatype Locals = Locals(
    input: Input,
    allocation: Allocation,
    snapshot: seq<Allocation>,
    seen: set<Entry>,
    returned: int)

  /** The next await of a process that holds no receipt yet. */
  datatype Preparation =
    | ReadingNote
    | VerifyingClose
    | FindingReceipt
    | ReadingBefore(got: seq<int>)
    | Inserting(proposed: Receipt)
    | FindingDuplicate

  /** The next await of a process that works on a receipt. */
  datatype Settlement =
    | ReadingCurrent(got: seq<int>)
    | Relaying
    | SavingHash(hash: TxHash)
    | CheckingTx
    | ReadingAfter(got: seq<int>)
    | FindingPrincipal
    | Decrementing(current: Allocation)
    | MarkingSettled
    | FindingFinal
    | CountingNotes
    | ClosingAllocation
    | Confirming

  /** Program counter and locals of one process. */
  datatype Proc =
    | ReadingAllocations(input: Input)
    | Preparing(l: Locals, next: Preparation)
    | Settling(l: Locals, receipt: Receipt, at: Settlement)
    | MarkingConfirmed(l: Locals, receipt: Receipt)
    | Finished
    | Failed

  /** Series principal, transactions, stored documents, and the history of money movements. */
  datatype Books = Books(
    vault: nat,
    principal: map<nat, int>, txs: map<TxHash, Tx>,
    allocations: seq<Allocation>, receipts: map<Position, Receipt>,
    relayed: seq<Position>, executed: set<Entry>, repeated: seq<Entry>, applied: set<Entry>, verified: set<Entry>,
    origin: map<Position, Origin>,
    initialPrincipal: map<nat, int>, initialRemaining: map<nat, int>)

  datatype World = World(
    books: Books,
    maker: nat, asset: nat,
    liquid: map<nat, int>, makerBalance: int, notes: map<nat, MakerNote>,
    procs: map<Pid, Proc>)

  /** What the scheduler and the environment decide for one step. */
  datatype Choice = Choice(succeeds: bool, copies: set<TxHash>, hash: TxHash)

  datatype Action =
    | Spawn(pid: Pid, input: Input)
    | Crash(pid: Pid)
    | Step(pid: Pid, choice: Choice)
    | Execute(hash: TxHash)
    | MoveLiquid(series: nat, liquid: int)
    | MoveMakerBalance(balance: int)
    | ChangeNote(commitment: nat, note: MakerNote)
    | Drain(id: nat)

  function EntryOf(l: Locals): Entry {
    Entry(l.input.position, l.allocation.id, l.allocation.series, l.input.principal)
  }

  /** The checks made before any await that touches the vault. */
  function ReadAllocations(w: World, input: Input): Proc {
    if input.principal <= 0 then Failed
    else
      match FindAllocation(w.books.allocations, input.allocationId)
      case None => Failed
      case Some(k) =>
        var a := w.books.allocations[k];
        if a.vault != w.books.vault || a.maker != w.maker || a.asset != w.asset then Failed
        else Preparing(Locals(input, a, w.books.allocations, w.books.applied, 0), ReadingNote)
  }

  /** The recovered output note must belong to this allocation, position and close. */
  function ReadNote(w: World, l: Locals): Proc {
    if l.input.noteCommitment !in w.notes then Failed
    else
      var n := w.notes[l.input.noteCommitment];
      if n.allocationId != Some(l.input.allocationId) || n.closePosition != Some(l.input.position) ||
         n.status != NoteSpent || n.recoveredAmount.None? || n.closeTxHash != Some(l.input.closeTxHash) ||
         n.wallet != l.allocation.maker || n.recoveredAmount.value <= 0 then Failed
      else Preparing(l.(returned := n.recoveredAmount.value), VerifyingClose)
  }

  /** What happens once the process holds a receipt, up to the next await. */
  function Decide(l: Locals, receipt: Option<Receipt>, createdNow: bool): Proc {
    if receipt.None? then Failed
    else
      var r := receipt.value;
      if r.allocationId != l.allocation.id || r.closeTxHash != l.input.closeTxHash ||
         r.noteCommitment != l.input.noteCommitment || r.principal != l.input.principal ||
         r.returned != l.returned then Failed
      else if r.status == Confirmed then
        if r.txHash.None? then Failed else MarkingConfirmed(l, r)
      else if r.status == Pending then
        if !createdNow || r.txHash.Some? then Failed else Settling(l, r, ReadingCurrent([]))
      else if r.txHash.None? then Failed
      else Settling(l, r, CheckingTx)
  }

  function LookUp(w: World, position: Position): Option<Receipt> {
    if position in w.books.receipts then Some(w.books.receipts[position]) else None
  }

  function FindReceipt(w: World, l: Locals): Proc {
    var receipt := LookUp(w, l.input.position);
    if receipt.Some? then Decide(l, receipt, false)
    else
      var remaining := RemainingPrincipal(l.allocation);
      if l.allocation.status != Outstanding || remaining.None? || l.input.principal > remaining.value then Failed
      else Preparing(l, ReadingBefore([]))
  }

  /** One of the three reads behind `balances()`; None where the contract call fails. */
  function ReadBalance(w: World, series: nat, index: nat): Option<int> {
    if series !in w.books.principal || series !in w.liquid then None
    else if index == 0 then Some(w.books.principal[series])
    else if index == 1 then Some(w.liquid[series])
    else Some(w.makerBalance)
  }

  /** The proposal built after the third balance read, with its guards. */
  function Propose(w: World, l: Locals, got: seq<int>): Proc
    requires |got| == 3
  {
    var recorded := RecordedSeriesPrincipal(l.snapshot, w.books.vault, l.allocation.series);
    var remaining := RemainingPrincipal(l.allocation);
    if recorded.None? || remaining.None? || got[0] != recorded.value then Failed
    else if got[0] < l.input.principal || got[2] < l.returned then Failed
    else
      Preparing(l, Inserting(Receipt(
        l.allocation.id, remaining.value, l.input.closeTxHash, got[2], l.input.noteCommitment,
        l.input.principal, l.returned, got[1], got[0], Pending, None)))
  }

  function AfterReadBefore(w: World, l: Locals, got: seq<int>): Proc {
    var value := ReadBalance(w, l.allocation.series, |got|);
    if value.None? then Failed
    else if |got| < 2 then Preparing(l, ReadingBefore(got + [value.value]))
    else if |got| == 2 then Propose(w, l, got + [value.value])
    else Failed
  }

  function WithReceipt(b: Books, l: Locals, proposed: Receipt): Books {
    b.(receipts := b.receipts[l.input.position := proposed],
       origin := b.origin[l.input.position := Origin(EntryOf(l), l.seen)])
  }

  /** `insertOne`: the unique _id makes exactly one inserter the creator. */
  function AfterInsert(b: Books, l: Locals, proposed: Receipt): Proc {
    if l.input.position in b.receipts then Preparing(l, FindingDuplicate) else Decide(l, Some(proposed), true)
  }

  function AfterReadCurrent(w: World, l: Locals, r: Receipt, got: seq<int>): Proc {
    var value := ReadBalance(w, l.allocation.series, |got|);
    if value.None? then Failed
    else if |got| < 2 then Settling(l, r, ReadingCurrent(got + [value.value]))
    else if |got| > 2 || got[0] != r.seriesPrincipalBefore || got[1] != r.seriesLiquidBefore ||
            value.value != r.makerBalanceBefore then Failed
    else Settling(l, r, Relaying)
  }

  /** The transactions of one relay: every submission, and the one whose hash comes back. */
  function Sent(c: Choice): set<TxHash> {
    if c.succeeds then c.copies + {c.hash} else c.copies
  }

  predicate AllNew(b: Books, c: Choice) {
    c.hash !in b.txs && c.copies !! b.txs.Keys
  }

  /** `relayAsync`: the call may reach the network any number of times, and may or may not return a hash. */
  function WithRelay(b: Books, l: Locals, r: Receipt, c: Choice): Books {
    b.(relayed := b.relayed + [l.input.position],
       txs := b.txs + map h | h in Sent(c) :: Tx(EntryOf(l), r.returned, InFlight))
  }

  /** The guarded update to `submitted`; its result is not inspected. */
  function WithHash(b: Books, position: Position, hash: TxHash): Books {
    if position in b.receipts && b.receipts[position].status == Pending && b.receipts[position].txHash.None?
    then b.(receipts := b.receipts[position := b.receipts[position].(status := Submitted, txHash := Some(hash))])
    else b
  }

  function AfterCheckTx(b: Books, l: Locals, r: Receipt): Proc {
    if r.txHash.Some? && r.txHash.value in b.txs && b.txs[r.txHash.value].state == Succeeded
    then Settling(l, r, ReadingAfter([]))
    else Failed
  }

  function WithVerified(b: Books, l: Locals): Books {
    b.(verified := b.verified + {EntryOf(l)})
  }

  /** History notes a series principal that reads as the receipt expects. */
  predicate ReadsAsExpected(w: World, l: Locals, r: Receipt) {
    ReadBalance(w, l.allocation.series, 0) == Some(r.seriesPrincipalBefore - l.input.principal)
  }

  /** The balance post-check. */
  function AfterReadAfter(w: World, l: Locals, r: Receipt, got: seq<int>): Proc {
    var value := ReadBalance(w, l.allocation.series, |got|);
    if value.None? then Failed
    else if |got| < 2 then Settling(l, r, ReadingAfter(got + [value.value]))
    else if |got| > 2 || got[0] != r.seriesPrincipalBefore - l.input.principal ||
            got[1] != r.seriesLiquidBefore + l.returned || value.value != r.makerBalanceBefore - l.returned then Failed
    else Settling(l, r, FindingPrincipal)
  }

  /** First half of `applyPrincipalReceipt`: read the document and decide. */
  function AfterFindPrincipal(b: Books, l: Locals, r: Receipt): Proc {
    match FindAllocation(b.allocations, l.allocation.id)
    case None => Failed
    case Some(k) =>
      var current := b.allocations[k];
      var actual := RemainingPrincipal(current);
      if actual.None? then Failed
      else if actual.value == r.allocationPrincipalBefore - l.input.principal then Settling(l, r, MarkingSettled)
      else if actual.value != r.allocationPrincipalBefore || current.status != Outstanding then Failed
      else Settling(l, r, Decrementing(current))
  }

  /** The document the compare-and-set on status and stored remaining principal matches. */
  function Matched(b: Books, current: Allocation): Option<nat> {
    match FindAllocation(b.allocations, current.id)
    case None => None
    case Some(k) =>
      if b.allocations[k].status == Outstanding && b.allocations[k].remainingPrincipal == current.remainingPrincipal
      then Some(k) else None
  }

  function WithDecrement(b: Books, l: Locals, k: nat, after: int): Books
    requires k < |b.allocations|
  {
    b.(allocations := b.allocations[k := b.allocations[k].(remainingPrincipal := Some(after))],
       applied := b.applied + {EntryOf(l)})
  }

  /** `markMakerCloseOutputSettled`: None where it throws. */
  function MarkSettled(notes: map<nat, MakerNote>, commitment: nat, hash: Option<TxHash>): Option<map<nat, MakerNote>> {
    if hash.None? || commitment !in notes then None
    else
      var n := notes[commitment];
      if n.status == NoteSpent && n.recoveredAmount.Some? && n.settlementTxHash.None? then
        Some(notes[commitment := n.(settlementTxHash := hash)])
      else if n.settlementTxHash == hash then Some(notes)
      else None
  }

  function AfterMarkSettled(w: World, l: Locals, r: Receipt): Proc {
    if MarkSettled(w.notes, l.input.noteCommitment, r.txHash).None? then Failed
    else if r.allocationPrincipalBefore == l.input.principal then Settling(l, r, FindingFinal)
    else Settling(l, r, Confirming)
  }

  function AfterFindFinal(b: Books, l: Locals, r: Receipt): Proc {
    match FindAllocation(b.allocations, l.allocation.id)
    case None => Failed
    case Some(k) =>
      match b.allocations[k].status
      case Outstanding => Settling(l, r, CountingNotes)
      case Closed => Settling(l, r, Confirming)
      case Draining => Failed
  }

  function AfterCountNotes(w: World, l: Locals, r: Receipt): Proc {
    if exists c | c in w.notes :: ActiveNote(w.notes[c], l.allocation.id) then Failed
    else Settling(l, r, ClosingAllocation)
  }

  /** The document `closeVaultMakerAllocation` still finds open. */
  function Closable(b: Books, id: nat): Option<nat> {
    match FindAllocation(b.allocations, id)
    case None => None
    case Some(k) => if b.allocations[k].status == Closed then None else Some(k)
  }

  function WithClosed(b: Books, k: nat): Books
    requires k < |b.allocations|
  {
    b.(allocations := b.allocations[k := b.allocations[k].(status := Closed, remainingPrincipal := Some(0))])
  }

  function WithConfirmed(b: Books, position: Position, hash: Option<TxHash>): Books {
    if position in b.receipts && b.receipts[position].status == Submitted && b.receipts[position].txHash == hash
    then b.(receipts := b.receipts[position := b.receipts[position].(status := Confirmed)])
    else b
  }

  function AfterPreparation(w: World, l: Locals, next: Preparation, c: Choice): Proc {
    match next
    case ReadingNote => ReadNote(w, l)
    case VerifyingClose => if c.succeeds then Preparing(l, FindingReceipt) else Failed
    case FindingReceipt => FindReceipt(w, l)
    case ReadingBefore(got) => AfterReadBefore(w, l, got)
    case Inserting(proposed) => AfterInsert(w.books, l, proposed)
    case FindingDuplicate => Decide(l, LookUp(w, l.input.position), false)
  }

  function AfterSettlement(w: World, l: Locals, r: Receipt, at: Settlement, c: Choice): Proc {
    match at
    case ReadingCurrent(got) => AfterReadCurrent(w, l, r, got)
    case Relaying =>
      if !AllNew(w.books, c) then Settling(l, r, Relaying)
      else if c.succeeds then Settling(l, r, SavingHash(c.hash)) else Failed
    case SavingHash(hash) => Settling(l, r.(status := Submitted, txHash := Some(hash)), CheckingTx)
    case CheckingTx => AfterCheckTx(w.books, l, r)
    case ReadingAfter(got) => AfterReadAfter(w, l, r, got)
    case FindingPrincipal => AfterFindPrincipal(w.books, l, r)
    case Decrementing(current) =>
      if Matched(w.books, current).Some? then Settling(l, r, MarkingSettled) else Failed
    case MarkingSettled => AfterMarkSettled(w, l, r)
    case FindingFinal => AfterFindFinal(w.books, l, r)
    case CountingNotes => AfterCountNotes(w, l, r)
    case ClosingAllocation =>
      if Closable(w.books, l.allocation.id).Some? then Settling(l, r, Confirming) else Failed
    case Confirming => Finished
  }

  /** Where a process stands after its next step. */
  function NextProc(w: World, p: Proc, c: Choice): Proc {
    match p
    case ReadingAllocations(input) => ReadAllocations(w, input)
    case Preparing(l, next) => AfterPreparation(w, l, next, c)
    case Settling(l, r, at) => AfterSettlement(w, l, r, at, c)
    case MarkingConfirmed(l, r) =>
      if MarkSettled(w.notes, l.input.noteCommitment, r.txHash).Some? then Finished else Failed
    case Finished => Finished
    case Failed => Failed
  }

  function SettlementBooks(w: World, l: Locals, r: Receipt, at: Settlement, c: Choice): Books {
    var b := w.books;
    match at
    case Relaying => if AllNew(b, c) then WithRelay(b, l, r, c) else b
    case SavingHash(hash) => WithHash(b, l.input.position, hash)
    case ReadingAfter(got) => if got == [] && ReadsAsExpected(w, l, r) then WithVerified(b, l) else b
    case Decrementing(current) =>
      var k := Matched(b, current);
      if k.Some? then WithDecrement(b, l, k.value, r.allocationPrincipalBefore - l.input.principal) else b
    case ClosingAllocation =>
      var k := Closable(b, l.allocation.id);
      if k.Some? then WithClosed(b, k.value) else b
    case Confirming => WithConfirmed(b, l.input.position, r.txHash)
    case _ => b
  }

  /** What the step writes to the books. */
  function NextBooks(w: World, p: Proc, c: Choice): Books {
    match p
    case Preparing(l, next) =>
      if next.Inserting? && l.input.position !in w.books.receipts then WithReceipt(w.books, l, next.proposed)
      else w.books
    case Settling(l, r, at) => SettlementBooks(w, l, r, at, c)
    case _ => w.books
  }

  /** What the step writes to the maker notes. */
  function NextNotes(w: World, p: Proc): map<nat, MakerNote> {
    if p.MarkingConfirmed? || (p.Settling? && p.at.MarkingSettled?) then
      var notes := MarkSettled(w.notes, p.l.input.noteCommitment, p.receipt.txHash);
      if notes.Some? then notes.value else w.notes
    else w.notes
  }

  function StepProc(w: World, pid: Pid, p: Proc, c: Choice): World {
    w.(books := NextBooks(w, p, c), notes := NextNotes(w, p), procs := w.procs[pid := NextProc(w, p, c)])
  }

  function WithOutcome(b: Books, hash: TxHash, accepted: bool): Books
    requires hash in b.txs && (accepted ==> b.txs[hash].entry.series in b.principal)
  {
    var tx := b.txs[hash];
    if accepted
    then b.(txs := b.txs[hash := tx.(state := Succeeded)],
            principal := b.principal[tx.entry.series := b.principal[tx.entry.series] - tx.entry.principal],
            executed := b.executed + {tx.entry},
            repeated := if tx.entry in b.executed then b.repeated + [tx.entry] else b.repeated)
    else b.(txs := b.txs[hash := tx.(state := Rejected)])
  }

  /** The guards of the vault contract and of the token transfer. */
  predicate Accepts(w: World, tx: Tx) {
    && tx.entry.series in w.books.principal && tx.entry.series in w.liquid
    && 0 < tx.entry.principal <= w.books.principal[tx.entry.series] && 0 < tx.returned <= w.makerBalance
  }

  /** The vault contract runs a waiting `settle` call: its own guards decide the outcome. */
  function StepExecute(w: World, hash: TxHash): World {
    if hash !in w.books.txs || w.books.txs[hash].state != InFlight then w
    else
      var tx := w.books.txs[hash];
      if Accepts(w, tx)
      then w.(books := WithOutcome(w.books, hash, true),
              liquid := w.liquid[tx.entry.series := w.liquid[tx.entry.series] + tx.returned],
              makerBalance := w.makerBalance - tx.returned)
      else w.(books := WithOutcome(w.books, hash, false))
  }

  function WithDraining(b: Books, k: nat): Books
    requires k < |b.allocations|
  {
    b.(allocations := b.allocations[k := b.allocations[k].(status := Draining)])
  }

  /** A drain started by the manager while settlement processes run. */
  function StepDrain(w: World, id: nat): World {
    match FindAllocation(w.books.allocations, id)
    case None => w
    case Some(k) =>
      if w.books.allocations[k].status != Outstanding then w
      else w.(books := WithDraining(w.books, k))
  }

  function Next(w: World, a: Action): World {
    match a
    case Spawn(pid, input) => if pid in w.procs then w else w.(procs := w.procs[pid := ReadingAllocations(input)])
    case Crash(pid) => w.(procs := w.procs - {pid})
    case Step(pid, c) => if pid in w.procs then StepProc(w, pid, w.procs[pid], c) else w
    case Execute(hash) => StepExecute(w, hash)
    case MoveLiquid(s, liquid) => if s in w.liquid then w.(liquid := w.liquid[s := liquid]) else w
    case MoveMakerBalance(balance) => w.(makerBalance := balance)
    case ChangeNote(commitment, note) => w.(notes := w.notes[commitment := note])
    case Drain(id) => StepDrain(w, id)
  }

  function Run(w: World, actions: seq<Action>): World
    decreases |actions|
  {
    if actions == [] then w
    else Next(Run(w, actions[..|actions| - 1]), actions[|actions| - 1])
  }

  /** A start state: nothing settled yet, and the record agrees with the chain. */
  ghost predicate Init(w: World) {
    var b := w.books;
    && w.procs == map[] && b.txs == map[] && b.receipts == map[]
    && b.relayed == [] && b.executed == {} && b.repeated == [] && b.applied == {} && b.verified == {} && b.origin == map[]
    && b.initialPrincipal == b.principal
    && DistinctIds(b.allocations) && AllValid(b.allocations)
    && (forall i | 0 <= i < |b.allocations| ::
          && b.allocations[i].id in b.initialRemaining
          && RemainingPrincipal(b.allocations[i]) == Some(b.initialRemaining[b.allocations[i].id]))
    && (forall s | s in b.principal ::
          RecordedSeriesPrincipal(b.allocations, b.vault, s) == Some(b.principal[s]))
  }
}
