/**
 A source note and the change note of the same intent are never both spendable,
 whatever orders the ledger is reconciled with.
 */
module MarginSafety {
  import opened Common
  import opened MarginNotes

  /** The notes an accepted intent tied together. */
  datatype Ties = Ties(source: Hex, change: Option<Hex>)

  ghost predicate DistinctCommitments(notes: seq<Note>) {
    forall i, j | 0 <= i < j < |notes| :: notes[i].commitment != notes[j].commitment
  }

  ghost predicate Holds(notes: seq<Note>, commitment: Hex, status: Status, key: string) {
    exists i :: 0 <= i < |notes| && notes[i].commitment == commitment && notes[i].status == status
                && KeyOf(notes[i]) == Some(key)
  }

  ghost predicate HasAvailable(notes: seq<Note>, commitment: Hex) {
    exists i :: 0 <= i < |notes| && notes[i].commitment == commitment && notes[i].status == Available
  }

  /** Waiting for a verdict. */
  ghost predicate Undecided(notes: seq<Note>, key: string, source: Hex, change: Hex) {
    Holds(notes, source, Locked, key) && Holds(notes, change, Pending, key)
  }

  /** At most one of the two notes has a life after the intent. */
  ghost predicate Exclusive(notes: seq<Note>, key: string, source: Hex, change: Hex) {
    Undecided(notes, key, source, change) || Holds(notes, source, Spent, key) || Holds(notes, change, Spent, key)
  }

  /** A note tied to an intent is one of the two notes the intent was accepted with. */
  ghost predicate TiedAsAccepted(n: Note, intents: map<string, Ties>) {
    && (n.status == Locked && KeyOf(n).Some? ==>
          KeyOf(n).value in intents && intents[KeyOf(n).value].source == n.commitment)
    && (n.status == Pending && KeyOf(n).Some? ==>
          KeyOf(n).value in intents && intents[KeyOf(n).value].change == Some(n.commitment))
  }

  ghost predicate Safe(notes: seq<Note>, intents: map<string, Ties>) {
    && DistinctCommitments(notes)
    && (forall i | 0 <= i < |notes| :: TiedAsAccepted(notes[i], intents))
    && (forall k | k in intents && intents[k].change.Some? ::
          intents[k].change != Some(intents[k].source) && Exclusive(notes, k, intents[k].source, intents[k].change.value))
  }

  /** The point of it: the two notes of an intent are never spendable at once. */
  lemma NeverBothSpendable(notes: seq<Note>, intents: map<string, Ties>, key: string)
    requires Safe(notes, intents) && key in intents && intents[key].change.Some?
    ensures !(HasAvailable(notes, intents[key].source) && HasAvailable(notes, intents[key].change.value))
  {
    assert Exclusive(notes, key, intents[key].source, intents[key].change.value);
  }

  /** A live change implies a spent source. */
  lemma LiveChangeMeansSpentSource(notes: seq<Note>, intents: map<string, Ties>, key: string, i: nat)
    requires Safe(notes, intents) && key in intents && intents[key].change.Some?
    requires i < |notes| && Some(notes[i].commitment) == intents[key].change && notes[i].status != Spent
    requires notes[i].status != Pending || KeyOf(notes[i]) != Some(key)
    ensures Holds(notes, intents[key].source, Spent, key)
  {
    assert Exclusive(notes, key, intents[key].source, intents[key].change.value);
  }

  /** A released source implies a spent change. */
  lemma ReleasedSourceMeansSpentChange(notes: seq<Note>, intents: map<string, Ties>, key: string, i: nat)
    requires Safe(notes, intents) && key in intents && intents[key].change.Some?
    requires i < |notes| && notes[i].commitment == intents[key].source && notes[i].status != Spent
    requires notes[i].status != Locked || KeyOf(notes[i]) != Some(key)
    ensures Holds(notes, intents[key].change.value, Spent, key)
  {
    assert Exclusive(notes, key, intents[key].source, intents[key].change.value);
  }

  // ----- Steps -----

  /** Two ledgers note by note, where only statuses and ties differ. */
  ghost predicate SameCommitments(notes: seq<Note>, next: seq<Note>) {
    |next| == |notes| && forall i | 0 <= i < |notes| :: next[i].commitment == notes[i].commitment
  }

  /** A spent note keeps its tie. */
  ghost predicate SpentStays(notes: seq<Note>, next: seq<Note>)
    requires |next| == |notes|
  {
    forall i | 0 <= i < |notes| && notes[i].status == Spent :: next[i].status == Spent && KeyOf(next[i]) == KeyOf(notes[i])
  }

  lemma HoldsSpent(notes: seq<Note>, next: seq<Note>, commitment: Hex, key: string)
    requires SameCommitments(notes, next) && SpentStays(notes, next) && Holds(notes, commitment, Spent, key)
    ensures Holds(next, commitment, Spent, key)
  {
    var i :| 0 <= i < |notes| && notes[i].commitment == commitment && notes[i].status == Spent && KeyOf(notes[i]) == Some(key);
    assert next[i].commitment == commitment;
  }

  lemma ReconcileKeepsPair(orders: seq<Order>, notes: seq<Note>, now: int, key: string, source: Hex, change: Hex)
    requires Exclusive(notes, key, source, change)
    ensures Exclusive(Reconciled(orders, notes, now), key, source, change)
  {
    var next := Reconciled(orders, notes, now);
    if Holds(notes, source, Spent, key) {
      HoldsSpent(notes, next, source, key);
    } else if Holds(notes, change, Spent, key) {
      HoldsSpent(notes, next, change, key);
    } else {
      var i :| 0 <= i < |notes| && notes[i].commitment == source && notes[i].status == Locked && KeyOf(notes[i]) == Some(key);
      var j :| 0 <= j < |notes| && notes[j].commitment == change && notes[j].status == Pending && KeyOf(notes[j]) == Some(key);
      assert VerdictOf(orders, notes, notes[i]) == VerdictOf(orders, notes, notes[j]) == Verdict(orders, notes, key);
      assert next[i].commitment == source && next[j].commitment == change;
    }
  }

  /** Reconciling with any orders. */
  lemma ReconcileKeepsSafe(orders: seq<Order>, notes: seq<Note>, now: int, intents: map<string, Ties>)
    requires Safe(notes, intents)
    ensures Safe(Reconciled(orders, notes, now), intents)
  {
    forall k | k in intents && intents[k].change.Some?
      ensures Exclusive(Reconciled(orders, notes, now), k, intents[k].source, intents[k].change.value)
    {
      ReconcileKeepsPair(orders, notes, now, k, intents[k].source, intents[k].change.value);
    }
  }

  /** Setting notes to spent, as the stale-note handling does. */
  function MarkedSpent(notes: seq<Note>, commitment: Hex, now: int): (next: seq<Note>)
    ensures |next| == |notes|
    ensures forall i | 0 <= i < |notes| ::
      next[i] == if notes[i].commitment == commitment then notes[i].(status := Spent, updatedAt := now) else notes[i]
  {
    seq(|notes|, i requires 0 <= i < |notes| =>
      if notes[i].commitment == commitment then notes[i].(status := Spent, updatedAt := now) else notes[i])
  }

  lemma MarkSpentKeepsPair(notes: seq<Note>, commitment: Hex, now: int, k: string, source: Hex, change: Hex)
    requires Exclusive(notes, k, source, change)
    ensures Exclusive(MarkedSpent(notes, commitment, now), k, source, change)
  {
    var next := MarkedSpent(notes, commitment, now);
    forall c, status | Holds(notes, c, status, k) ensures Holds(next, c, if c == commitment then Spent else status, k) {
      var i :| 0 <= i < |notes| && notes[i].commitment == c && notes[i].status == status && KeyOf(notes[i]) == Some(k);
      assert next[i].commitment == c && KeyOf(next[i]) == Some(k);
    }
  }

  lemma MarkSpentKeepsSafe(notes: seq<Note>, commitment: Hex, now: int, intents: map<string, Ties>)
    requires Safe(notes, intents)
    ensures Safe(MarkedSpent(notes, commitment, now), intents)
  {
    forall k | k in intents && intents[k].change.Some?
      ensures Exclusive(MarkedSpent(notes, commitment, now), k, intents[k].source, intents[k].change.value)
    {
      MarkSpentKeepsPair(notes, commitment, now, k, intents[k].source, intents[k].change.value);
    }
  }

  /** `savePrivateMarginNote` under an unused commitment. */
  function Saved(notes: seq<Note>, n: Note): seq<Note> {
    [n] + Without(notes, n.commitment)
  }

  function Without(notes: seq<Note>, commitment: Hex): (rest: seq<Note>)
    ensures forall i | 0 <= i < |rest| :: rest[i] in notes && rest[i].commitment != commitment
    ensures (forall i | 0 <= i < |notes| :: notes[i].commitment != commitment) ==> rest == notes
  {
    if notes == [] then []
    else if notes[0].commitment == commitment then Without(notes[1..], commitment)
    else [notes[0]] + Without(notes[1..], commitment)
  }

  lemma {:induction false} WithoutDistinct(notes: seq<Note>, c: Hex)
    requires DistinctCommitments(notes)
    ensures DistinctCommitments(Without(notes, c))
  {
    if notes != [] {
      var head, rest := notes[0], notes[1..];
      assert forall n | n in rest :: n.commitment != head.commitment;
      WithoutDistinct(rest, c);
      assert forall n | n in Without(rest, c) :: n in rest;
    }
  }

  /** No intent names this commitment. */
  ghost predicate Untied(intents: map<string, Ties>, c: Hex) {
    forall k | k in intents :: intents[k].source != c && intents[k].change != Some(c)
  }

  ghost predicate Unused(notes: seq<Note>, intents: map<string, Ties>, commitment: Hex) {
    (forall i | 0 <= i < |notes| :: notes[i].commitment != commitment) && Untied(intents, commitment)
  }

  lemma HoldsLater(notes: seq<Note>, n: Note, commitment: Hex, status: Status, key: string)
    requires Holds(notes, commitment, status, key)
    ensures Holds([n] + notes, commitment, status, key)
  {
    var i :| 0 <= i < |notes| && notes[i].commitment == commitment && notes[i].status == status && KeyOf(notes[i]) == Some(key);
    assert ([n] + notes)[i + 1] == notes[i];
  }

  /** A deposit, or a change note before its intent is accepted. */
  lemma SaveKeepsSafe(notes: seq<Note>, n: Note, intents: map<string, Ties>)
    requires Safe(notes, intents) && Unused(notes, intents, n.commitment) && KeyOf(n).None?
    ensures Safe(Saved(notes, n), intents)
  {
    assert Saved(notes, n) == [n] + notes;
    forall k | k in intents && intents[k].change.Some?
      ensures Exclusive([n] + notes, k, intents[k].source, intents[k].change.value)
    {
      ExclusiveLater(notes, n, k, intents[k].source, intents[k].change.value);
    }
  }

  /** A note with another commitment stays, whatever it looks like. */
  lemma {:induction false} StaysWithout(notes: seq<Note>, c: Hex, i: nat)
    requires i < |notes| && notes[i].commitment != c
    ensures notes[i] in Without(notes, c)
  {
    if i > 0 {
      StaysWithout(notes[1..], c, i - 1);
    }
  }

  lemma HoldsWithout(notes: seq<Note>, c: Hex, commitment: Hex, status: Status, key: string)
    requires Holds(notes, commitment, status, key) && commitment != c
    ensures Holds(Without(notes, c), commitment, status, key)
  {
    var i :| 0 <= i < |notes| && notes[i].commitment == commitment && notes[i].status == status && KeyOf(notes[i]) == Some(key);
    StaysWithout(notes, c, i);
    var j :| 0 <= j < |Without(notes, c)| && Without(notes, c)[j] == notes[i];
  }

  /** Dropping a note no intent is tied to. */
  lemma WithoutKeepsSafe(notes: seq<Note>, c: Hex, intents: map<string, Ties>)
    requires Safe(notes, intents) && Untied(intents, c)
    ensures Safe(Without(notes, c), intents) && Unused(Without(notes, c), intents, c)
  {
    WithoutDistinct(notes, c);
    forall k | k in intents && intents[k].change.Some?
      ensures Exclusive(Without(notes, c), k, intents[k].source, intents[k].change.value)
    {
      var source, change := intents[k].source, intents[k].change.value;
      if Holds(notes, source, Spent, k) {
        HoldsWithout(notes, c, source, Spent, k);
      } else if Holds(notes, change, Spent, k) {
        HoldsWithout(notes, c, change, Spent, k);
      } else {
        HoldsWithout(notes, c, source, Locked, k);
        HoldsWithout(notes, c, change, Pending, k);
      }
    }
  }

  /** Saving a note again, as when a deposit or a close is finished, is safe too while no intent names it. */
  lemma SaveUntiedKeepsSafe(notes: seq<Note>, n: Note, intents: map<string, Ties>)
    requires Safe(notes, intents) && Untied(intents, n.commitment) && KeyOf(n).None?
    ensures Safe(Saved(notes, n), intents)
  {
    var rest := Without(notes, n.commitment);
    WithoutKeepsSafe(notes, n.commitment, intents);
    SaveKeepsSafe(rest, n, intents);
    assert Without(rest, n.commitment) == rest;
  }

  /** `lockPrivateMarginNote`. */
  function LockedTo(notes: seq<Note>, commitment: Hex, intent: Hex, now: int): (next: seq<Note>)
    ensures |next| == |notes|
    ensures forall i | 0 <= i < |notes| ::
      next[i] == if notes[i].commitment == commitment
                 then notes[i].(lockedBy := Some(intent), status := Locked, updatedAt := now) else notes[i]
  {
    seq(|notes|, i requires 0 <= i < |notes| =>
      if notes[i].commitment == commitment
      then notes[i].(lockedBy := Some(intent), status := Locked, updatedAt := now) else notes[i])
  }

  /** What an accepted submission leaves: the change note tied to the intent, and the source locked by it. */
  function Accepted(notes: seq<Note>, source: Hex, change: Option<Note>, intent: Hex, now: int): seq<Note> {
    var saved := if change.Some?
      then Saved(notes, change.value.(status := Pending, lockedBy := Some(intent), updatedAt := now)) else notes;
    LockedTo(saved, source, intent, now)
  }

  lemma LockKeepsPair(notes: seq<Note>, source: Hex, intent: Hex, now: int, k: string, s: Hex, c: Hex)
    requires DistinctCommitments(notes) && HasAvailable(notes, source) && Exclusive(notes, k, s, c)
    ensures Exclusive(LockedTo(notes, source, intent, now), k, s, c)
  {
    var next := LockedTo(notes, source, intent, now);
    forall commitment, status | status != Available && Holds(notes, commitment, status, k)
      ensures Holds(next, commitment, status, k)
    {
      var i :| 0 <= i < |notes| && notes[i].commitment == commitment && notes[i].status == status && KeyOf(notes[i]) == Some(k);
      assert next[i] == notes[i];
    }
  }

  /** Locking an available note without change. */
  lemma LockKeepsSafe(notes: seq<Note>, intents: map<string, Ties>, source: Hex, intent: Hex, now: int)
    requires Safe(notes, intents) && HasAvailable(notes, source) && intent != "" && Lower(intent) !in intents
    ensures Safe(LockedTo(notes, source, intent, now), intents[Lower(intent) := Ties(source, None)])
  {
    var next, tied := LockedTo(notes, source, intent, now), intents[Lower(intent) := Ties(source, None)];
    forall k | k in tied && tied[k].change.Some?
      ensures Exclusive(next, k, tied[k].source, tied[k].change.value)
    {
      LockKeepsPair(notes, source, intent, now, k, intents[k].source, intents[k].change.value);
    }
  }

  /** Tying a new change note to the intent its source is locked by. */
  lemma TieKeepsSafe(notes: seq<Note>, intents: map<string, Ties>, source: Hex, change: Note, key: string)
    requires Safe(notes, intents) && key in intents && intents[key] == Ties(source, None)
    requires Unused(notes, intents, change.commitment) && Holds(notes, source, Locked, key)
    requires change.status == Pending && KeyOf(change) == Some(key)
    ensures Safe([change] + notes, intents[key := Ties(source, Some(change.commitment))])
  {
    var next, tied := [change] + notes, intents[key := Ties(source, Some(change.commitment))];
    forall k | k in tied && tied[k].change.Some?
      ensures Exclusive(next, k, tied[k].source, tied[k].change.value)
    {
      if k == key {
        HoldsLater(notes, change, source, Locked, key);
        assert next[0] == change;
      } else {
        ExclusiveLater(notes, change, k, intents[k].source, intents[k].change.value);
      }
    }
  }

  lemma ExclusiveLater(notes: seq<Note>, n: Note, k: string, source: Hex, change: Hex)
    requires Exclusive(notes, k, source, change)
    ensures Exclusive([n] + notes, k, source, change)
  {
    if Holds(notes, source, Spent, k) {
      HoldsLater(notes, n, source, Spent, k);
    } else if Holds(notes, change, Spent, k) {
      HoldsLater(notes, n, change, Spent, k);
    } else {
      HoldsLater(notes, n, source, Locked, k);
      HoldsLater(notes, n, change, Pending, k);
    }
  }

  lemma LockedHolds(notes: seq<Note>, source: Hex, intent: Hex, now: int)
    requires HasAvailable(notes, source) && intent != ""
    ensures Holds(LockedTo(notes, source, intent, now), source, Locked, Lower(intent))
  {
    var i :| 0 <= i < |notes| && notes[i].commitment == source && notes[i].status == Available;
    var locked := LockedTo(notes, source, intent, now);
    assert locked[i].commitment == source && KeyOf(locked[i]) == Some(Lower(intent));
  }

  /** An accepted submission whose change note is new to the ledger. */
  lemma AcceptNewKeepsSafe(notes: seq<Note>, intents: map<string, Ties>, source: Hex, tied: Note, intent: Hex, now: int)
    requires Safe(notes, intents) && HasAvailable(notes, source) && intent != "" && Lower(intent) !in intents
    requires Unused(notes, intents, tied.commitment) && tied.commitment != source
    requires tied.status == Pending && tied.lockedBy == Some(intent)
    ensures Safe([tied] + LockedTo(notes, source, intent, now),
                 intents[Lower(intent) := Ties(source, Some(tied.commitment))])
  {
    var key := Lower(intent);
    var once := intents[key := Ties(source, None)];
    LockKeepsSafe(notes, intents, source, intent, now);
    LockedHolds(notes, source, intent, now);
    TieKeepsSafe(LockedTo(notes, source, intent, now), once, source, tied, key);
    assert once[key := Ties(source, Some(tied.commitment))] == intents[key := Ties(source, Some(tied.commitment))];
  }

  lemma AcceptedForm(notes: seq<Note>, source: Hex, change: Note, intent: Hex, now: int)
    requires change.commitment != source
    ensures Accepted(notes, source, Some(change), intent, now)
         == [change.(status := Pending, lockedBy := Some(intent), updatedAt := now)]
            + LockedTo(Without(notes, change.commitment), source, intent, now)
  {
  }

  /** An accepted submission of a planned note, with a new intent and a change note of its own. */
  lemma {:induction false} AcceptKeepsSafe(notes: seq<Note>, intents: map<string, Ties>, source: Hex, change: Option<Note>, intent: Hex, now: int)
    requires Safe(notes, intents) && HasAvailable(notes, source) && intent != "" && Lower(intent) !in intents
    requires change.Some? ==> change.value.commitment != source && Untied(intents, change.value.commitment)
    ensures Safe(Accepted(notes, source, change, intent, now),
                 intents[Lower(intent) := Ties(source, if change.Some? then Some(change.value.commitment) else None)])
  {
    if change.None? {
      LockKeepsSafe(notes, intents, source, intent, now);
    } else {
      var c := change.value.commitment;
      WithoutKeepsSafe(notes, c, intents);
      AvailableWithout(notes, c, source);
      AcceptNewKeepsSafe(Without(notes, c), intents, source,
                         change.value.(status := Pending, lockedBy := Some(intent), updatedAt := now), intent, now);
      AcceptedForm(notes, source, change.value, intent, now);
    }
  }

  lemma AvailableWithout(notes: seq<Note>, c: Hex, source: Hex)
    requires HasAvailable(notes, source) && source != c
    ensures HasAvailable(Without(notes, c), source)
  {
    var i :| 0 <= i < |notes| && notes[i].commitment == source && notes[i].status == Available;
    StaysWithout(notes, c, i);
    var j :| 0 <= j < |Without(notes, c)| && Without(notes, c)[j] == notes[i];
  }

  // ----- Repair -----

  /** The condition `repairPrivateMarginNotes` checks on the first notes with the candidate's commitments. */
  predicate Repairable(notes: seq<Note>, i: nat, j: nat, intent: Hex)
    requires i < |notes| && j < |notes|
  {
    && notes[i].status == Locked && notes[j].status == Pending
    && KeyOf(notes[i]) == Some(Lower(intent)) && KeyOf(notes[j]) == Some(Lower(intent))
  }

  function Repaired(notes: seq<Note>, source: Hex, change: Hex, now: int): (next: seq<Note>)
    ensures |next| == |notes|
    ensures forall i | 0 <= i < |notes| ::
      next[i] == if notes[i].commitment == source then notes[i].(lockedBy := None, status := Available, updatedAt := now)
                 else if notes[i].commitment == change then notes[i].(status := Spent, updatedAt := now) else notes[i]
  {
    seq(|notes|, i requires 0 <= i < |notes| =>
      if notes[i].commitment == source then notes[i].(lockedBy := None, status := Available, updatedAt := now)
      else if notes[i].commitment == change then notes[i].(status := Spent, updatedAt := now) else notes[i])
  }

  /** A repair releases the source of one undecided intent and spends its change. */
  lemma RepairKeepsSafe(notes: seq<Note>, intents: map<string, Ties>, i: nat, j: nat, intent: Hex, now: int)
    requires Safe(notes, intents) && i < |notes| && j < |notes| && Repairable(notes, i, j, intent)
    ensures Safe(Repaired(notes, notes[i].commitment, notes[j].commitment, now), intents)
    ensures Holds(Repaired(notes, notes[i].commitment, notes[j].commitment, now), notes[j].commitment, Spent, Lower(intent))
  {
    var next, key := Repaired(notes, notes[i].commitment, notes[j].commitment, now), Lower(intent);
    assert TiedAsAccepted(notes[i], intents) && TiedAsAccepted(notes[j], intents);
    assert next[j].commitment == notes[j].commitment && KeyOf(next[j]) == Some(key);
    forall k | k in intents && intents[k].change.Some?
      ensures Exclusive(next, k, intents[k].source, intents[k].change.value)
    {
      if k != key { RepairKeepsOthers(notes, i, j, intent, now, k, intents[k].source, intents[k].change.value); }
    }
  }

  lemma RepairKeepsOthers(notes: seq<Note>, i: nat, j: nat, intent: Hex, now: int, k: string, s: Hex, c: Hex)
    requires DistinctCommitments(notes) && i < |notes| && j < |notes| && Repairable(notes, i, j, intent)
    requires k != Lower(intent) && Exclusive(notes, k, s, c)
    ensures Exclusive(Repaired(notes, notes[i].commitment, notes[j].commitment, now), k, s, c)
  {
    var next := Repaired(notes, notes[i].commitment, notes[j].commitment, now);
    forall commitment, status | Holds(notes, commitment, status, k) ensures Holds(next, commitment, status, k) {
      var m :| 0 <= m < |notes| && notes[m].commitment == commitment && notes[m].status == status && KeyOf(notes[m]) == Some(k);
      assert next[m] == notes[m];
    }
  }
}
