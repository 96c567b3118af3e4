/** What a reconciliation does to the balances the client shows. */
module MarginBalances {
  import opened Common
  import opened MarginNotes

  function Look(statuses: map<string, OrderStatus>, key: string): Option<OrderStatus> {
    if key in statuses then Some(statuses[key]) else None
  }

  function Spendable(notes: seq<Note>, n: nat): int
    requires n <= |notes|
  {
    if n == 0 then 0
    else Spendable(notes, n - 1) + if notes[n - 1].status == Available then notes[n - 1].amount else 0
  }

  function PendingTotal(notes: seq<Note>, n: nat): int
    requires n <= |notes|
  {
    if n == 0 then 0
    else PendingTotal(notes, n - 1)
         + if notes[n - 1].status == Pending || notes[n - 1].status == Claiming then notes[n - 1].amount else 0
  }

  /** The change that waits for the intent a field names. */
  function PendingFor(notes: seq<Note>, n: nat, intent: Option<Hex>): int
    requires n <= |notes|
  {
    if n == 0 || !Truthy(intent) then 0
    else PendingFor(notes, n - 1, intent)
         + if notes[n - 1].status == Pending && notes[n - 1].lockedBy == intent then notes[n - 1].amount else 0
  }

  /** What a locked note really reserves: its amount without the change that will come back. */
  function ReservedBy(notes: seq<Note>, note: Note): int {
    Max(note.amount - PendingFor(notes, |notes|, note.lockedBy), 0)
  }

  function Reserved(notes: seq<Note>, n: nat): int
    requires n <= |notes|
  {
    if n == 0 then 0
    else Reserved(notes, n - 1) + if notes[n - 1].status == Locked then ReservedBy(notes, notes[n - 1]) else 0
  }

  /** Spendable, reserved and pending balance together. */
  function Balance(notes: seq<Note>): int {
    Spendable(notes, |notes|) + Reserved(notes, |notes|) + PendingTotal(notes, |notes|)
  }

  /** The ledger after every note followed the verdict on its intent. */
  function Followed(notes: seq<Note>, statuses: map<string, OrderStatus>, now: int): (next: seq<Note>)
    ensures |next| == |notes|
    ensures forall i | 0 <= i < |notes| :: next[i] == Applied(notes[i], StatusFor(notes[i], statuses), now)
  {
    seq(|notes|, i requires 0 <= i < |notes| => Applied(notes[i], StatusFor(notes[i], statuses), now))
  }

  function StatusFor(n: Note, statuses: map<string, OrderStatus>): Option<OrderStatus> {
    if KeyOf(n).Some? then Look(statuses, KeyOf(n).value) else None
  }

  /** What the consumed intents took: source less change of each. */
  function ConsumedUpTo(notes: seq<Note>, statuses: map<string, OrderStatus>, n: nat): int
    requires n <= |notes|
  {
    if n == 0 then 0
    else ConsumedUpTo(notes, statuses, n - 1)
         + if notes[n - 1].status == Locked && Consumes(StatusFor(notes[n - 1], statuses))
           then ReservedBy(notes, notes[n - 1]) else 0
  }

  // ----- One locked source for every intent -----

  predicate Tied(n: Note, status: Status) {
    n.status == status && Truthy(n.lockedBy)
  }

  /** Each intent has one locked source, each waiting change belongs to one, and change is at most its source. */
  ghost predicate Paired(notes: seq<Note>) {
    && (forall i, j | 0 <= i < j < |notes| && Tied(notes[i], Locked) && Tied(notes[j], Locked) ::
          KeyOf(notes[i]) != KeyOf(notes[j]))
    && (forall p | 0 <= p < |notes| && Tied(notes[p], Pending) :: SourceOf(notes, p))
    && (forall i | 0 <= i < |notes| && notes[i].status == Locked ::
          PendingFor(notes, |notes|, notes[i].lockedBy) <= notes[i].amount)
  }

  ghost predicate SourceOf(notes: seq<Note>, p: nat)
    requires p < |notes|
  {
    exists i :: 0 <= i < |notes| && notes[i].status == Locked && notes[i].lockedBy == notes[p].lockedBy
  }

  /** Whether an intent counts: every intent, or those a verdict consumes. */
  predicate Selected(statuses: map<string, OrderStatus>, all: bool, n: Note) {
    all || Consumes(StatusFor(n, statuses))
  }

  /** The change waiting for the selected locked notes among the first n, counting the first m pending notes. */
  function ShareOfLocked(notes: seq<Note>, statuses: map<string, OrderStatus>, all: bool, n: nat, m: nat): int
    requires n <= |notes| && m <= |notes|
  {
    if n == 0 then 0
    else ShareOfLocked(notes, statuses, all, n - 1, m)
         + if Tied(notes[n - 1], Locked) && Selected(statuses, all, notes[n - 1])
           then PendingFor(notes, m, notes[n - 1].lockedBy) else 0
  }

  /** The selected change among the first m notes. */
  function ChangeUpTo(notes: seq<Note>, statuses: map<string, OrderStatus>, all: bool, m: nat): int
    requires m <= |notes|
  {
    if m == 0 then 0
    else ChangeUpTo(notes, statuses, all, m - 1)
         + if Tied(notes[m - 1], Pending) && Selected(statuses, all, notes[m - 1]) then notes[m - 1].amount else 0
  }

  lemma {:induction false} EmptyShare(notes: seq<Note>, statuses: map<string, OrderStatus>, all: bool, n: nat)
    requires n <= |notes|
    ensures ShareOfLocked(notes, statuses, all, n, 0) == 0
  {
    if n > 0 { EmptyShare(notes, statuses, all, n - 1); }
  }

  /** One more note adds its amount to the share of the one source it belongs to, if it is change. */
  lemma {:induction false} ShareStep(notes: seq<Note>, statuses: map<string, OrderStatus>, all: bool, n: nat, m: nat,
                                     source: nat)
    requires n <= |notes| && 0 < m <= |notes| && source < |notes| && Paired(notes)
    requires Tied(notes[m - 1], Pending) ==> Tied(notes[source], Locked) && notes[source].lockedBy == notes[m - 1].lockedBy
    ensures ShareOfLocked(notes, statuses, all, n, m) == ShareOfLocked(notes, statuses, all, n, m - 1)
      + if Tied(notes[m - 1], Pending) && Selected(statuses, all, notes[m - 1]) && source < n
        then notes[m - 1].amount else 0
  {
    if n > 0 {
      ShareStep(notes, statuses, all, n - 1, m, source);
      if Tied(notes[n - 1], Locked) && Tied(notes[m - 1], Pending) && notes[n - 1].lockedBy == notes[m - 1].lockedBy {
        assert n - 1 == source;
      }
    }
  }

  /** Counting change by its source or by itself gives the same sum. */
  lemma {:induction false} SharesAreChange(notes: seq<Note>, statuses: map<string, OrderStatus>, all: bool, m: nat)
    requires m <= |notes| && Paired(notes)
    ensures ShareOfLocked(notes, statuses, all, |notes|, m) == ChangeUpTo(notes, statuses, all, m)
  {
    if m == 0 {
      EmptyShare(notes, statuses, all, |notes|);
    } else {
      SharesAreChange(notes, statuses, all, m - 1);
      var source := if Tied(notes[m - 1], Pending) then
          assert SourceOf(notes, m - 1);
          var i :| 0 <= i < |notes| && notes[i].status == Locked && notes[i].lockedBy == notes[m - 1].lockedBy; i
        else 0;
      ShareStep(notes, statuses, all, |notes|, m, source);
    }
  }

  /** Amounts of everything but spent notes and waiting change. */
  function GrossUpTo(notes: seq<Note>, n: nat): int
    requires n <= |notes|
  {
    if n == 0 then 0
    else GrossUpTo(notes, n - 1) + GrossOf(notes[n - 1])
  }

  function GrossOf(n: Note): int {
    if n.status == Spent || Tied(n, Pending) then 0 else n.amount
  }

  lemma {:induction false} BalanceTerms(notes: seq<Note>, statuses: map<string, OrderStatus>, n: nat)
    requires n <= |notes| && Paired(notes)
    ensures Spendable(notes, n) + Reserved(notes, n) + PendingTotal(notes, n)
         == GrossUpTo(notes, n) - ShareOfLocked(notes, statuses, true, n, |notes|) + ChangeUpTo(notes, statuses, true, n)
  {
    if n > 0 { BalanceTerms(notes, statuses, n - 1); }
  }

  /** With paired notes the balance counts every locked note in full and its change not at all. */
  lemma BalanceIsGross(notes: seq<Note>)
    requires Paired(notes)
    ensures Balance(notes) == GrossUpTo(notes, |notes|)
  {
    BalanceTerms(notes, map[], |notes|);
    SharesAreChange(notes, map[], true, |notes|);
  }

  /** What its verdict does to one note. */
  lemma GrossStep(notes: seq<Note>, statuses: map<string, OrderStatus>, now: int, i: nat)
    requires i < |notes| && Paired(notes)
    ensures var n, consumed := notes[i], Consumes(StatusFor(notes[i], statuses));
      GrossOf(Applied(n, StatusFor(n, statuses), now))
      == GrossOf(n) - (if n.status == Locked && consumed then ReservedBy(notes, n) else 0)
         - (if Tied(n, Locked) && consumed then PendingFor(notes, |notes|, n.lockedBy) else 0)
         + (if Tied(n, Pending) && consumed then n.amount else 0)
  {
  }

  lemma {:induction false} GrossAfter(notes: seq<Note>, statuses: map<string, OrderStatus>, now: int, n: nat)
    requires n <= |notes| && Paired(notes)
    ensures GrossUpTo(Followed(notes, statuses, now), n)
         == GrossUpTo(notes, n) - ConsumedUpTo(notes, statuses, n)
            - ShareOfLocked(notes, statuses, false, n, |notes|) + ChangeUpTo(notes, statuses, false, n)
  {
    if n > 0 {
      var next := Followed(notes, statuses, now);
      GrossAfter(notes, statuses, now, n - 1);
      GrossStep(notes, statuses, now, n - 1);
      assert next[n - 1] == Applied(notes[n - 1], StatusFor(notes[n - 1], statuses), now);
    }
  }

  /** A locked note that stayed keeps the change that waits for it. */
  lemma {:induction false} SamePending(notes: seq<Note>, statuses: map<string, OrderStatus>, now: int, n: nat, i: nat)
    requires n <= |notes| && i < |notes| && notes[i].status == Locked
    requires !Consumes(StatusFor(notes[i], statuses)) && StatusFor(notes[i], statuses) != Some(Cancelled)
    ensures PendingFor(Followed(notes, statuses, now), n, notes[i].lockedBy) == PendingFor(notes, n, notes[i].lockedBy)
  {
    if n > 0 && Truthy(notes[i].lockedBy) { SamePending(notes, statuses, now, n - 1, i); }
  }

  /** Change that still waits has its source still locked. */
  lemma SourceStays(notes: seq<Note>, statuses: map<string, OrderStatus>, now: int, p: nat)
    requires Paired(notes) && p < |notes| && Tied(Followed(notes, statuses, now)[p], Pending)
    ensures SourceOf(Followed(notes, statuses, now), p)
  {
    var next := Followed(notes, statuses, now);
    assert SourceOf(notes, p);
    var i :| 0 <= i < |notes| && notes[i].status == Locked && notes[i].lockedBy == notes[p].lockedBy;
    assert next[i] == notes[i];
  }

  lemma PairedAfter(notes: seq<Note>, statuses: map<string, OrderStatus>, now: int)
    requires Paired(notes)
    ensures Paired(Followed(notes, statuses, now))
  {
    var next := Followed(notes, statuses, now);
    forall p | 0 <= p < |next| && Tied(next[p], Pending) ensures SourceOf(next, p) {
      SourceStays(notes, statuses, now, p);
    }
    assert forall i | 0 <= i < |next| && next[i].status == Locked :: next[i] == notes[i];
    forall i | 0 <= i < |next| && next[i].status == Locked
      ensures PendingFor(next, |next|, next[i].lockedBy) <= next[i].amount
    {
      SamePending(notes, statuses, now, |notes|, i);
    }
  }

  /**
   Whatever the verdicts: a cancelled intent leaves the balance alone, and each filled or
   partially filled one takes exactly its source less its change.
   */
  lemma VerdictsConserve(notes: seq<Note>, statuses: map<string, OrderStatus>, now: int)
    requires Paired(notes)
    ensures Paired(Followed(notes, statuses, now))
    ensures Balance(Followed(notes, statuses, now)) == Balance(notes) - ConsumedUpTo(notes, statuses, |notes|)
  {
    PairedAfter(notes, statuses, now);
    BalanceIsGross(notes);
    BalanceIsGross(Followed(notes, statuses, now));
    GrossAfter(notes, statuses, now, |notes|);
    SharesAreChange(notes, statuses, false, |notes|);
  }

  lemma {:induction false} NothingConsumed(notes: seq<Note>, statuses: map<string, OrderStatus>, n: nat)
    requires n <= |notes| && forall k | k in statuses :: statuses[k] == Cancelled || statuses[k] == Open
    ensures ConsumedUpTo(notes, statuses, n) == 0
  {
    if n > 0 { NothingConsumed(notes, statuses, n - 1); }
  }

  /** When no intent was filled, cancellations conserve the balance. */
  lemma CancellationsConserve(notes: seq<Note>, statuses: map<string, OrderStatus>, now: int)
    requires Paired(notes) && forall k | k in statuses :: statuses[k] == Cancelled || statuses[k] == Open
    ensures Balance(Followed(notes, statuses, now)) == Balance(notes)
  {
    VerdictsConserve(notes, statuses, now);
    NothingConsumed(notes, statuses, |notes|);
  }
}
