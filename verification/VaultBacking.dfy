/** The recorded vault-maker allocations (server/src/shared/vault-maker-backing.ts). */
module VaultBacking {
  import opened Common

  datatype AllocationStatus = Outstanding | Draining | Closed

  /** One document of the allocation collection; identifiers and addresses are opaque numbers. */
  datatype Allocation = Allocation(
    id: nat,
    vault: nat,
    maker: nat,
    asset: nat,
    series: nat,
    amount: int,
    registeredAmount: int,
    noteCommitments: set<nat>,
    remainingPrincipal: Option<int>,
    status: AllocationStatus)

  datatype NoteStatus = NotePending | NoteAvailable | NoteLocked | NoteDraining | NoteWithdrawing | NoteSpent

  /** One document of the maker-note collection (server/src/shared/maker-note-store.ts). */
  datatype MakerNote = MakerNote(
    allocationId: Option<nat>,
    amount: int,
    asset: nat,
    closePosition: Option<nat>,
    closeTxHash: Option<nat>,
    depositTxHash: Option<nat>,
    parent: Option<nat>,
    recoveredAmount: Option<int>,
    settlementTxHash: Option<nat>,
    status: NoteStatus,
    wallet: nat)

  /** A note that still belongs to its allocation. */
  predicate ActiveNote(n: MakerNote, id: nat) {
    n.allocationId == Some(id) && n.status != NoteSpent
  }

  /** The principal still owed, or None where the source throws on a corrupt document. */
  function RemainingPrincipal(a: Allocation): Option<int> {
    var remaining := if a.remainingPrincipal.Some? then a.remainingPrincipal.value else a.amount;
    if remaining < 0 || remaining > a.amount then None else Some(remaining)
  }

  /** Whether an allocation counts towards the recorded principal of a series. */
  predicate Counts(a: Allocation, vault: nat, series: nat) {
    a.vault == vault && a.series == series && a.status != Closed
  }

  /** The running sum over the first n documents; None where the source throws. */
  function RecordedUpTo(allocations: seq<Allocation>, n: nat, vault: nat, series: nat): Option<int>
    requires n <= |allocations|
  {
    if n == 0 then Some(0)
    else
      var sum := RecordedUpTo(allocations, n - 1, vault, series);
      var a := allocations[n - 1];
      if sum.None? || !Counts(a, vault, series) then sum
      else if RemainingPrincipal(a).None? then None
      else Some(sum.value + RemainingPrincipal(a).value)
  }

  /** The sum the source compares with the chain. */
  function RecordedSeriesPrincipal(allocations: seq<Allocation>, vault: nat, series: nat): Option<int> {
    RecordedUpTo(allocations, |allocations|, vault, series)
  }

  /** Search for a document from index k on. */
  function FindFrom(allocations: seq<Allocation>, id: nat, k: nat): (found: Option<nat>)
    requires k <= |allocations|
    ensures found.Some? ==> k <= found.value < |allocations| && allocations[found.value].id == id
    ensures found.None? <==> forall i | k <= i < |allocations| :: allocations[i].id != id
    decreases |allocations| - k
  {
    if k == |allocations| then None
    else if allocations[k].id == id then Some(k)
    else FindFrom(allocations, id, k + 1)
  }

  /** Position of the document with the given id. */
  function FindAllocation(allocations: seq<Allocation>, id: nat): (found: Option<nat>)
    ensures found.Some? ==> found.value < |allocations| && allocations[found.value].id == id
    ensures found.None? <==> forall i | 0 <= i < |allocations| :: allocations[i].id != id
  {
    FindFrom(allocations, id, 0)
  }

  /** Every document satisfies the range the source enforces. */
  ghost predicate AllValid(allocations: seq<Allocation>) {
    forall i | 0 <= i < |allocations| :: RemainingPrincipal(allocations[i]).Some?
  }

  ghost predicate DistinctIds(allocations: seq<Allocation>) {
    forall i, j | 0 <= i < j < |allocations| :: allocations[i].id != allocations[j].id
  }

  /** What one document contributes to the recorded principal of a series. */
  function Contribution(a: Allocation, vault: nat, series: nat): int {
    if Counts(a, vault, series) && RemainingPrincipal(a).Some? then RemainingPrincipal(a).value else 0
  }

  lemma {:induction false} RecordedUpToValid(allocations: seq<Allocation>, n: nat, vault: nat, series: nat)
    requires AllValid(allocations) && n <= |allocations|
    ensures RecordedUpTo(allocations, n, vault, series).Some?
  {
    if n > 0 { RecordedUpToValid(allocations, n - 1, vault, series); }
  }

  lemma {:induction false} RecordedUpToUpdate(
      allocations: seq<Allocation>, n: nat, k: nat, a: Allocation, vault: nat, series: nat)
    requires AllValid(allocations) && n <= |allocations| && k < |allocations| && RemainingPrincipal(a).Some?
    ensures RecordedUpTo(allocations, n, vault, series).Some?
    ensures RecordedUpTo(allocations[k := a], n, vault, series)
         == Some(RecordedUpTo(allocations, n, vault, series).value
                 + if k < n then Contribution(a, vault, series) - Contribution(allocations[k], vault, series) else 0)
  {
    RecordedUpToValid(allocations, n, vault, series);
    if n > 0 { RecordedUpToUpdate(allocations, n - 1, k, a, vault, series); }
  }

  /** Replacing one document changes the recorded principal by that document's own change. */
  lemma RecordedAfterUpdate(allocations: seq<Allocation>, k: nat, a: Allocation, vault: nat, series: nat)
    requires AllValid(allocations) && k < |allocations| && RemainingPrincipal(a).Some?
    ensures AllValid(allocations[k := a])
    ensures RecordedSeriesPrincipal(allocations, vault, series).Some?
    ensures RecordedSeriesPrincipal(allocations[k := a], vault, series)
         == Some(RecordedSeriesPrincipal(allocations, vault, series).value
                 - Contribution(allocations[k], vault, series) + Contribution(a, vault, series))
  {
    RecordedUpToUpdate(allocations, |allocations|, k, a, vault, series);
  }

  lemma {:induction false} RecordedUpToAppend(allocations: seq<Allocation>, n: nat, a: Allocation, vault: nat, series: nat)
    requires n <= |allocations|
    ensures RecordedUpTo(allocations + [a], n, vault, series) == RecordedUpTo(allocations, n, vault, series)
  {
    if n > 0 { RecordedUpToAppend(allocations, n - 1, a, vault, series); }
  }

  /** Appending a document adds its contribution. */
  lemma RecordedAfterAppend(allocations: seq<Allocation>, a: Allocation, vault: nat, series: nat)
    requires AllValid(allocations) && RemainingPrincipal(a).Some?
    ensures AllValid(allocations + [a])
    ensures RecordedSeriesPrincipal(allocations, vault, series).Some?
    ensures RecordedSeriesPrincipal(allocations + [a], vault, series)
         == Some(RecordedSeriesPrincipal(allocations, vault, series).value + Contribution(a, vault, series))
  {
    RecordedUpToValid(allocations, |allocations|, vault, series);
    RecordedUpToAppend(allocations, |allocations|, a, vault, series);
  }
}
