/** The stored private margin-note ledger and the calls that rewrite it (client/src/lib/private-margin-notes.ts). */
module MarginNoteStore {
  import opened Common
  import opened MarginNotes
  import opened MarginSafety
  import opened MarginClaims
  import opened MarginBalances

  datatype Candidate = Candidate(
    changeAmount: int, changeCommitment: Hex, intent: Hex, sourceAmount: int, sourceCommitment: Hex)

  /** What `privateMarginNotes` shows: the notes of one scope, and of one owner if given. */
  predicate InView(n: Note, scope: string, owner: Option<Hex>) {
    n.scope == Some(scope) && (Truthy(owner) ==> n.owner == owner.value)
  }

  function View(notes: seq<Note>, scope: string, owner: Option<Hex>): seq<Note> {
    if notes == [] then []
    else Shown(notes[0], scope, owner) + View(notes[1..], scope, owner)
  }

  function Shown(n: Note, scope: string, owner: Option<Hex>): seq<Note> {
    if InView(n, scope, owner) then [n] else []
  }

  lemma FollowedJoins(a: seq<Note>, b: seq<Note>, statuses: map<string, OrderStatus>, now: int)
    ensures Followed(a + b, statuses, now) == Followed(a, statuses, now) + Followed(b, statuses, now)
  {
  }

  lemma ViewOfFirst(notes: seq<Note>, rest: seq<Note>, scope: string, owner: Option<Hex>)
    requires notes != [] && notes[1..] == rest
    ensures View(notes, scope, owner) == Shown(notes[0], scope, owner) + View(rest, scope, owner)
  {
  }

  /** Following verdicts and looking at one owner's notes commute. */
  lemma {:induction false} ViewFollows(notes: seq<Note>, statuses: map<string, OrderStatus>, now: int, scope: string, owner: Option<Hex>)
    ensures View(Followed(notes, statuses, now), scope, owner) == Followed(View(notes, scope, owner), statuses, now)
  {
    if notes != [] {
      var next, rest, first := Followed(notes, statuses, now), notes[1..], Shown(notes[0], scope, owner);
      ViewFollows(rest, statuses, now, scope, owner);
      ViewOfFirst(notes, rest, scope, owner);
      ViewOfFirst(next, Followed(rest, statuses, now), scope, owner);
      FollowedJoins(first, View(rest, scope, owner), statuses, now);
      assert Followed(first, statuses, now) == Shown(next[0], scope, owner);
    }
  }

  /** The map of verdicts holds for every intent what the orders and the locked notes imply. */
  ghost predicate VerdictsOf(statuses: map<string, OrderStatus>, orders: seq<Order>, notes: seq<Note>) {
    forall key: string :: Look(statuses, key) == Verdict(orders, notes, key)
  }

  lemma FollowedIsReconciled(statuses: map<string, OrderStatus>, orders: seq<Order>, notes: seq<Note>, now: int)
    requires VerdictsOf(statuses, orders, notes)
    ensures Followed(notes, statuses, now) == Reconciled(orders, notes, now)
  {
  }

  function SetStatus(statuses: map<string, OrderStatus>, key: string, s: OrderStatus): (next: map<string, OrderStatus>)
    ensures forall k :: Look(next, k) == if k == key then Upgrade(Look(statuses, k), s) else Look(statuses, k)
  {
    if key !in statuses || Priority(s) >= Priority(statuses[key]) then statuses[key := s] else statuses
  }

  function LookSet(values: map<string, set<OrderStatus>>, key: string): set<OrderStatus> {
    if key in values then values[key] else {}
  }

  /** Position of the first note with a commitment. */
  function FindNote(notes: seq<Note>, commitment: Hex, k: nat): (found: Option<nat>)
    requires k <= |notes|
    ensures found.Some? ==> k <= found.value < |notes| && notes[found.value].commitment == commitment
    ensures found.None? ==> forall i | k <= i < |notes| :: notes[i].commitment != commitment
    decreases |notes| - k
  {
    if k == |notes| then None
    else if notes[k].commitment == commitment then Some(k) else FindNote(notes, commitment, k + 1)
  }

  /** The verdict with the fallback of the first n notes only. */
  function VerdictUpTo(orders: seq<Order>, notes: seq<Note>, n: nat, key: string): Option<OrderStatus>
    requires n <= |notes|
  {
    if ExactUpTo(orders, |orders|, key).Some? then ExactUpTo(orders, |orders|, key)
    else FallbackUpTo(orders, notes, n, key)
  }

  function AddStatus(values: map<string, set<OrderStatus>>, o: Order): (next: map<string, set<OrderStatus>>)
    ensures forall k :: LookSet(next, k) == if SpendsNullifier(o, k) then LookSet(values, k) + {o.status} else LookSet(values, k)
  {
    if !Truthy(o.nullifier) then values
    else
      var key := Lower(o.nullifier.value);
      values[key := LookSet(values, key) + {o.status}]
  }

  predicate SpendsNullifier(o: Order, key: string) {
    Truthy(o.nullifier) && Lower(o.nullifier.value) == key
  }

  lemma NullifierStep(orders: seq<Order>, n: nat)
    requires n < |orders|
    ensures forall key: string | SpendsNullifier(orders[n], key) ::
      StatusesOfNullifier(orders, n + 1, key) == StatusesOfNullifier(orders, n, key) + {orders[n].status}
    ensures forall key: string | !SpendsNullifier(orders[n], key) ::
      StatusesOfNullifier(orders, n + 1, key) == StatusesOfNullifier(orders, n, key)
  {
  }

  class Store {
    var notes: seq<Note>
    /** The notes each accepted intent tied together. */
    ghost var intents: map<string, Ties>

    ghost predicate Valid()
      reads this
    {
      Safe(notes, intents)
    }

    constructor ()
      ensures Valid() && notes == [] && intents == map[]
    {
      notes, intents := [], map[];
    }

    /** `savePrivateMarginNote`. */
    method Save(n: Note)
      modifies this`notes
      ensures notes == Saved(old(notes), n)
      ensures old(Valid() && Untied(intents, n.commitment)) && KeyOf(n).None? ==> Valid()
    {
      ghost var safe := Valid() && Untied(intents, n.commitment) && KeyOf(n).None?;
      if safe { SaveUntiedKeepsSafe(notes, n, intents); }
      notes := Saved(notes, n);
    }

    /** `markPrivateMarginNoteSpent`. */
    method MarkSpent(commitment: Hex, now: int)
      requires Valid()
      modifies this`notes
      ensures Valid() && notes == MarkedSpent(old(notes), commitment, now)
    {
      MarkSpentKeepsSafe(notes, commitment, now, intents);
      notes := MarkedSpent(notes, commitment, now);
    }

    /** The two synchronous writes after the server accepted an intent: tie the change note, lock the source. */
    method Accept(source: Hex, change: Option<Note>, intent: Hex, now: int)
      requires Valid() && HasAvailable(notes, source) && intent != "" && Lower(intent) !in intents
      requires change.Some? ==> change.value.commitment != source && Untied(intents, change.value.commitment)
      modifies this
      ensures Valid() && notes == Accepted(old(notes), source, change, intent, now)
      ensures intents == old(intents)[Lower(intent) :=
                Ties(source, if change.Some? then Some(change.value.commitment) else None)]
    {
      AcceptKeepsSafe(notes, intents, source, change, intent, now);
      if change.Some? {
        notes := Saved(notes, change.value.(status := Pending, lockedBy := Some(intent), updatedAt := now));
      }
      notes := LockedTo(notes, source, intent, now);
      intents := intents[Lower(intent) := Ties(source, if change.Some? then Some(change.value.commitment) else None)];
    }

    /** `reconciledOrderStatuses`. */
    method OrderStatuses(orders: seq<Order>) returns (statuses: map<string, OrderStatus>)
      ensures VerdictsOf(statuses, orders, notes)
    {
      statuses := map[];
      var byNullifier: map<string, set<OrderStatus>> := map[];
      for i := 0 to |orders|
        invariant forall key: string :: Look(statuses, key) == ExactUpTo(orders, i, key)
        invariant forall key: string :: LookSet(byNullifier, key) == StatusesOfNullifier(orders, i, key)
      {
        var order := orders[i];
        NullifierStep(orders, i);
        statuses := SetStatus(statuses, Lower(order.intent), order.status);
        byNullifier := AddStatus(byNullifier, order);
        if NamesSource(order) {
          statuses := SetStatus(statuses, Lower(order.source.value), PartiallyFilled);
        }
      }
      for i := 0 to |notes|
        invariant forall key: string :: Look(statuses, key) == VerdictUpTo(orders, notes, i, key)
      {
        var note := notes[i];
        if note.status == Locked && Truthy(note.lockedBy) && Lower(note.lockedBy.value) !in statuses {
          var status := Fallback(LookSet(byNullifier, Lower(note.nullifier)));
          if status.Some? { statuses := SetStatus(statuses, Lower(note.lockedBy.value), status.value); }
        }
      }
    }

    /** `reconcilePrivateMarginNotes`: it writes only if some note moves. */
    method Reconcile(orders: seq<Order>, now: int) returns (written: bool)
      requires Valid()
      modifies this`notes
      ensures Valid() && notes == Reconciled(orders, old(notes), now)
      ensures written <==> exists i ::
        0 <= i < |old(notes)| && Moves(old(notes)[i], VerdictOf(orders, old(notes), old(notes)[i]))
    {
      var statuses := OrderStatuses(orders);
      FollowedIsReconciled(statuses, orders, notes, now);
      ReconcileKeepsSafe(orders, notes, now, intents);
      written := false;
      var next := [];
      for i := 0 to |notes|
        invariant |next| == i
        invariant forall j | 0 <= j < i :: next[j] == Applied(notes[j], StatusFor(notes[j], statuses), now)
        invariant written <==> exists j :: 0 <= j < i && Moves(notes[j], StatusFor(notes[j], statuses))
      {
        var status := StatusFor(notes[i], statuses);
        if Moves(notes[i], status) { written := true; }
        next := next + [Applied(notes[i], status, now)];
      }
      assert next == Followed(notes, statuses, now);
      if written { notes := next; } else { assert notes == next; }
    }

    /** `findPrivateMarginRepairCandidate` over one owner's view: the only tied source and the only tied change. */
    method FindRepairCandidate(hasActiveOrders: bool, hasOpenPositions: bool, hasCancelledOrder: bool,
                               scope: string, owner: Option<Hex>) returns (candidate: Option<Candidate>)
      ensures candidate.Some? ==> !hasActiveOrders && !hasOpenPositions && hasCancelledOrder
      ensures candidate.Some? ==> exists i, j :: CandidateFrom(scope, owner, i, j, candidate.value)
    {
      if hasActiveOrders || hasOpenPositions || !hasCancelledOrder { return None; }
      var sources, i := CountTied(scope, owner, Locked);
      var changes, j := CountTied(scope, owner, Pending);
      if sources != 1 || changes != 1 { return None; }
      var source, change := notes[i], notes[j];
      if source.commitment == change.commitment || KeyOf(source) != KeyOf(change) { return None; }
      if source.amount <= 0 || change.amount <= 0 || change.amount > source.amount { return None; }
      candidate := Some(
        Candidate(change.amount, change.commitment, source.lockedBy.value, source.amount, source.commitment));
      assert CandidateFrom(scope, owner, i, j, candidate.value);
    }

    /** The candidate names the only tied source and the only tied change, of one intent. */
    ghost predicate CandidateFrom(scope: string, owner: Option<Hex>, i: nat, j: nat, c: Candidate)
      reads this
    {
      && i < |notes| && j < |notes| && OnlyTied(scope, owner, Locked, i) && OnlyTied(scope, owner, Pending, j)
      && notes[i].commitment != notes[j].commitment && KeyOf(notes[i]) == KeyOf(notes[j])
      && 0 < notes[j].amount <= notes[i].amount
      && c == Candidate(notes[j].amount, notes[j].commitment, notes[i].lockedBy.value,
                        notes[i].amount, notes[i].commitment)
    }

    predicate OnlyTied(scope: string, owner: Option<Hex>, status: Status, i: nat)
      reads this
      requires i < |notes|
    {
      forall k | 0 <= k < |notes| :: InView(notes[k], scope, owner) && Tied(notes[k], status) <==> k == i
    }

    method CountTied(scope: string, owner: Option<Hex>, status: Status) returns (count: nat, last: nat)
      ensures count == 1 ==> last < |notes| && OnlyTied(scope, owner, status, last)
    {
      count, last := 0, 0;
      for i := 0 to |notes|
        invariant count == 0 ==> forall k | 0 <= k < i :: !(InView(notes[k], scope, owner) && Tied(notes[k], status))
        invariant count == 1 ==> last < i
        invariant count == 1 ==>
          forall k | 0 <= k < i :: InView(notes[k], scope, owner) && Tied(notes[k], status) <==> k == last
      {
        if InView(notes[i], scope, owner) && Tied(notes[i], status) { count, last := count + 1, i; }
      }
    }

    /** `repairPrivateMarginNotes`. */
    method Repair(candidate: Candidate, now: int) returns (done: bool)
      requires Valid()
      modifies this`notes
      ensures Valid()
      ensures done <==>
        var i, j := FindNote(old(notes), candidate.sourceCommitment, 0), FindNote(old(notes), candidate.changeCommitment, 0);
        i.Some? && j.Some? && Repairable(old(notes), i.value, j.value, candidate.intent)
      ensures notes == if done
        then Repaired(old(notes), candidate.sourceCommitment, candidate.changeCommitment, now) else old(notes)
    {
      var i, j := FindNote(notes, candidate.sourceCommitment, 0), FindNote(notes, candidate.changeCommitment, 0);
      if i.None? || j.None? || !Repairable(notes, i.value, j.value, candidate.intent) { return false; }
      RepairKeepsSafe(notes, intents, i.value, j.value, candidate.intent, now);
      notes := Repaired(notes, candidate.sourceCommitment, candidate.changeCommitment, now);
      return true;
    }

    /** `finalizePrivateMarginClaim`: its result is safe exactly if the target's counterparts are gone. */
    method FinalizeClaim(c: Claim, now: int) returns (done: bool)
      requires Valid()
      modifies this`notes
      ensures done <==> exists i :: 0 <= i < |old(notes)| && IsTarget(old(notes)[i], c)
      ensures !done ==> notes == old(notes)
      ensures done ==>
        var target := FindTarget(old(notes), c, 0).value;
        notes == Finalized(old(notes), c, target, now) && (Valid() <==> OthersGone(old(notes), intents, c, target))
    {
      var target := FindTarget(notes, c, 0);
      if target.None? { return false; }
      ClaimKeepsSafe(notes, intents, c, target.value, now);
      notes := Finalized(notes, c, target.value, now);
      return true;
    }

    // ----- Balances -----

    /** `privateReservedBalance` of one owner's view, with the change waiting for each intent collected first. */
    method ReservedBalance(scope: string, owner: Option<Hex>) returns (total: int)
      ensures var view := View(notes, scope, owner); total == Reserved(view, |view|)
    {
      var view := View(notes, scope, owner);
      var pendingByIntent: map<Hex, int> := map[];
      for i := 0 to |view|
        invariant forall intent: Hex | intent != "" ::
          PendingFor(view, i, Some(intent)) == if intent in pendingByIntent then pendingByIntent[intent] else 0
      {
        if Tied(view[i], Pending) {
          var intent := view[i].lockedBy.value;
          pendingByIntent := pendingByIntent[intent :=
            (if intent in pendingByIntent then pendingByIntent[intent] else 0) + view[i].amount];
        }
      }
      total := 0;
      for i := 0 to |view|
        invariant total == Reserved(view, i)
      {
        if view[i].status == Locked {
          var waiting := if Truthy(view[i].lockedBy) && view[i].lockedBy.value in pendingByIntent
            then pendingByIntent[view[i].lockedBy.value] else 0;
          total := total + if view[i].amount > waiting then view[i].amount - waiting else 0;
        }
      }
    }
  }
}
