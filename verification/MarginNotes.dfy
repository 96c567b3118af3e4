/**
 The private margin-note ledger of the client (client/src/lib/private-margin-notes.ts):
 note and order records, and what reconciling a ledger with a list of orders means.
 Hexadecimal strings are compared after ASCII lower-casing where the source lower-cases them.
 */
module MarginNotes {
  import opened Common

  type Hex = string

  datatype Status = Available | Locked | Pending | Claiming | Spent

  datatype Note = Note(
    amount: int,
    asset: Hex,
    commitment: Hex,
    nullifier: Hex,
    owner: Hex,
    status: Status,
    lockedBy: Option<Hex>,
    scope: Option<string>,
    claimSource: Option<Hex>,
    updatedAt: int)

  datatype OrderStatus = Open | Filled | PartiallyFilled | Cancelled

  datatype Order = Order(intent: Hex, nullifier: Option<Hex>, source: Option<Hex>, status: OrderStatus)

  function LowerChar(c: char): char {
    if 'A' <= c <= 'Z' then (c as int + 32) as char else c
  }

  function Lower(s: string): (t: string)
    ensures |t| == |s|
  {
    seq(|s|, i requires 0 <= i < |s| => LowerChar(s[i]))
  }

  /** A field that is set and not empty. */
  predicate Truthy(field: Option<Hex>) {
    field.Some? && field.value != ""
  }

  /** The intent a note is tied to. */
  function KeyOf(n: Note): Option<string> {
    if Truthy(n.lockedBy) then Some(Lower(n.lockedBy.value)) else None
  }

  // ----- The status of an intent -----

  function Priority(s: OrderStatus): nat {
    match s
    case Cancelled => 3
    case Filled => 3
    case PartiallyFilled => 2
    case Open => 1
  }

  /** `setReconciledOrderStatus`: a status replaces one of at most its own priority. */
  function Upgrade(current: Option<OrderStatus>, s: OrderStatus): Option<OrderStatus> {
    if current.None? || Priority(s) >= Priority(current.value) then Some(s) else current
  }

  /** A residual order names the intent it was split from. */
  predicate NamesSource(o: Order) {
    Truthy(o.source) && Lower(o.source.value) != Lower(o.intent)
  }

  function AfterOrder(current: Option<OrderStatus>, o: Order, key: string): Option<OrderStatus> {
    var own := if Lower(o.intent) == key then Upgrade(current, o.status) else current;
    if NamesSource(o) && Lower(o.source.value) == key then Upgrade(own, PartiallyFilled) else own
  }

  /** What the first n orders say about an intent by name. */
  function ExactUpTo(orders: seq<Order>, n: nat, key: string): Option<OrderStatus>
    requires n <= |orders|
  {
    if n == 0 then None else AfterOrder(ExactUpTo(orders, n - 1, key), orders[n - 1], key)
  }

  /** The statuses of the first n orders that spent a nullifier. */
  function StatusesOfNullifier(orders: seq<Order>, n: nat, key: string): set<OrderStatus>
    requires n <= |orders|
  {
    set i | 0 <= i < n && Truthy(orders[i].nullifier) && Lower(orders[i].nullifier.value) == key :: orders[i].status
  }

  /** `fallbackStatusForNullifier`. */
  function Fallback(statuses: set<OrderStatus>): Option<OrderStatus> {
    if Open in statuses || PartiallyFilled in statuses then Some(Open)
    else if Filled in statuses then Some(Filled)
    else if Cancelled in statuses then Some(Cancelled)
    else None
  }

  function NoteFallback(orders: seq<Order>, n: Note): Option<OrderStatus> {
    Fallback(StatusesOfNullifier(orders, |orders|, Lower(n.nullifier)))
  }

  /** What the locked notes among the first n imply for an intent no order names. */
  function FallbackUpTo(orders: seq<Order>, notes: seq<Note>, n: nat, key: string): Option<OrderStatus>
    requires n <= |notes|
  {
    if n == 0 then None
    else
      var earlier := FallbackUpTo(orders, notes, n - 1, key);
      if earlier.None? && notes[n - 1].status == Locked && KeyOf(notes[n - 1]) == Some(key)
      then NoteFallback(orders, notes[n - 1]) else earlier
  }

  /** The status of an intent: by name if an order names it, by nullifier otherwise. */
  function Verdict(orders: seq<Order>, notes: seq<Note>, key: string): Option<OrderStatus> {
    var exact := ExactUpTo(orders, |orders|, key);
    if exact.Some? then exact else FallbackUpTo(orders, notes, |notes|, key)
  }

  function VerdictOf(orders: seq<Order>, notes: seq<Note>, n: Note): Option<OrderStatus> {
    if KeyOf(n).Some? then Verdict(orders, notes, KeyOf(n).value) else None
  }

  predicate Consumes(verdict: Option<OrderStatus>) {
    verdict == Some(Filled) || verdict == Some(PartiallyFilled)
  }

  /** Whether a verdict moves a note. */
  predicate Moves(n: Note, verdict: Option<OrderStatus>) {
    (n.status == Locked || n.status == Pending) && (Consumes(verdict) || verdict == Some(Cancelled))
  }

  function Applied(n: Note, verdict: Option<OrderStatus>, now: int): Note {
    if !Moves(n, verdict) then n
    else if Consumes(verdict) == (n.status == Locked) then n.(status := Spent, updatedAt := now)
    else n.(lockedBy := None, status := Available, updatedAt := now)
  }

  /** The ledger after `reconcilePrivateMarginNotes`. */
  function Reconciled(orders: seq<Order>, notes: seq<Note>, now: int): (next: seq<Note>)
    ensures |next| == |notes|
    ensures forall i | 0 <= i < |notes| :: next[i] == Applied(notes[i], VerdictOf(orders, notes, notes[i]), now)
  {
    seq(|notes|, i requires 0 <= i < |notes| => Applied(notes[i], VerdictOf(orders, notes, notes[i]), now))
  }

  // ----- Reconciling again changes nothing -----

  /** Where an intent's notes stay, so does what they imply. */
  lemma {:induction false} SameFallback(orders: seq<Order>, notes: seq<Note>, next: seq<Note>, n: nat, key: string)
    requires n <= |notes| == |next|
    requires forall i | 0 <= i < n :: notes[i].status == Locked && KeyOf(notes[i]) == Some(key) ==> next[i] == notes[i]
    requires forall i | 0 <= i < n :: next[i].status == Locked && KeyOf(next[i]) == Some(key) ==> next[i] == notes[i]
    ensures FallbackUpTo(orders, next, n, key) == FallbackUpTo(orders, notes, n, key)
  {
    if n > 0 { SameFallback(orders, notes, next, n - 1, key); }
  }

  /** A note that reconciling left locked or pending was left alone, and its intent keeps its verdict. */
  lemma StableVerdict(orders: seq<Order>, notes: seq<Note>, now: int, i: nat)
    requires i < |notes|
    requires var n := Reconciled(orders, notes, now)[i]; n.status == Locked || n.status == Pending
    ensures Reconciled(orders, notes, now)[i] == notes[i]
    ensures VerdictOf(orders, Reconciled(orders, notes, now), notes[i]) == VerdictOf(orders, notes, notes[i])
  {
    var next := Reconciled(orders, notes, now);
    if KeyOf(notes[i]).Some? {
      var key := KeyOf(notes[i]).value;
      forall j | 0 <= j < |notes| && KeyOf(notes[j]) == Some(key) ensures next[j] == notes[j] {
        assert VerdictOf(orders, notes, notes[j]) == VerdictOf(orders, notes, notes[i]);
      }
      SameFallback(orders, notes, next, |notes|, key);
    }
  }

  /** Reconciling a second time with the same orders, at any later moment, moves no note. */
  lemma ReconcileIdempotent(orders: seq<Order>, notes: seq<Note>, now: int, later: int)
    ensures Reconciled(orders, Reconciled(orders, notes, now), later) == Reconciled(orders, notes, now)
  {
    var next := Reconciled(orders, notes, now);
    forall i | 0 <= i < |next| ensures Applied(next[i], VerdictOf(orders, next, next[i]), later) == next[i] {
      if next[i].status == Locked || next[i].status == Pending {
        StableVerdict(orders, notes, now, i);
      }
    }
  }
}
