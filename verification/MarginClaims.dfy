/**
 Finishing the claim of a residual note (`finalizePrivateMarginClaim`), which makes its
 target available whatever its status was.
 */
module MarginClaims {
  import opened Common
  import opened MarginNotes
  import opened MarginSafety

  /** The claim of what an intent left, into the note with this commitment. */
  datatype Claim = Claim(intent: Hex, commitment: Hex, owner: Hex, scope: Option<string>)

  /** A note that was made for this claim. */
  predicate Tagged(n: Note, c: Claim) {
    && n.scope == c.scope && Lower(n.owner) == Lower(c.owner)
    && n.claimSource.Some? && Lower(n.claimSource.value) == Lower(c.intent)
  }

  predicate IsTarget(n: Note, c: Claim) {
    Tagged(n, c) && Lower(n.commitment) == Lower(c.commitment)
  }

  /** The first target from position k on; None where the source throws. */
  function FindTarget(notes: seq<Note>, c: Claim, k: nat): (found: Option<nat>)
    requires k <= |notes|
    ensures found.Some? ==> k <= found.value < |notes| && IsTarget(notes[found.value], c)
    ensures found.Some? ==> forall i | k <= i < found.value :: !IsTarget(notes[i], c)
    ensures found.None? ==> forall i | k <= i < |notes| :: !IsTarget(notes[i], c)
    decreases |notes| - k
  {
    if k == |notes| then None
    else if IsTarget(notes[k], c) then Some(k) else FindTarget(notes, c, k + 1)
  }

  function Claimed(n: Note, c: Claim, isTarget: bool, now: int): Note {
    if isTarget then n.(status := Available, updatedAt := now)
    else if Tagged(n, c) && n.status == Claiming then n.(status := Spent, updatedAt := now)
    else n
  }

  /** The target becomes available; every other note still waiting for this claim becomes spent. */
  function Finalized(notes: seq<Note>, c: Claim, target: nat, now: int): (next: seq<Note>)
    ensures |next| == |notes|
    ensures forall i | 0 <= i < |notes| :: next[i] == Claimed(notes[i], c, i == target, now)
  {
    seq(|notes|, i requires 0 <= i < |notes| => Claimed(notes[i], c, i == target, now))
  }

  /** A note is spent, or is about to be by this claim. */
  predicate EndsSpent(n: Note, c: Claim) {
    n.status == Spent || (Tagged(n, c) && n.status == Claiming)
  }

  ghost predicate Gone(notes: seq<Note>, c: Claim, commitment: Hex, key: string) {
    exists i :: 0 <= i < |notes| && notes[i].commitment == commitment && KeyOf(notes[i]) == Some(key)
                && EndsSpent(notes[i], c)
  }

  /** Wherever the target is one of the two notes of an intent, the other one is gone. */
  ghost predicate OthersGone(notes: seq<Note>, intents: map<string, Ties>, c: Claim, target: nat)
    requires target < |notes|
  {
    forall k | k in intents && intents[k].change.Some? ::
      && (notes[target].commitment == intents[k].source ==> Gone(notes, c, intents[k].change.value, k))
      && (notes[target].commitment == intents[k].change.value ==> Gone(notes, c, intents[k].source, k))
  }

  lemma SpentAfter(notes: seq<Note>, c: Claim, target: nat, now: int, commitment: Hex, key: string)
    requires target < |notes| && commitment != notes[target].commitment
    ensures Holds(Finalized(notes, c, target, now), commitment, Spent, key) <==> Gone(notes, c, commitment, key)
  {
    var next := Finalized(notes, c, target, now);
    if Gone(notes, c, commitment, key) {
      var i :| 0 <= i < |notes| && notes[i].commitment == commitment && KeyOf(notes[i]) == Some(key)
               && EndsSpent(notes[i], c);
      assert next[i] == Claimed(notes[i], c, false, now);
    }
    if Holds(next, commitment, Spent, key) {
      var i :| 0 <= i < |next| && next[i].commitment == commitment && next[i].status == Spent && KeyOf(next[i]) == Some(key);
      assert next[i] == Claimed(notes[i], c, i == target, now);
    }
  }

  /** The target is spent, locked or pending no longer. */
  lemma TargetLives(notes: seq<Note>, c: Claim, target: nat, now: int, status: Status, key: string)
    requires target < |notes| && DistinctCommitments(notes) && status != Available
    ensures !Holds(Finalized(notes, c, target, now), notes[target].commitment, status, key)
  {
    var next := Finalized(notes, c, target, now);
    assert forall i | 0 <= i < |notes| && notes[i].commitment == notes[target].commitment :: i == target;
    assert forall i | 0 <= i < |next| :: next[i].commitment == notes[i].commitment;
    assert next[target].status == Available;
  }

  lemma OtherStays(notes: seq<Note>, c: Claim, target: nat, now: int, commitment: Hex, status: Status, key: string)
    requires target < |notes| && commitment != notes[target].commitment && status != Claiming
    requires Holds(notes, commitment, status, key)
    ensures Holds(Finalized(notes, c, target, now), commitment, status, key)
  {
    var next := Finalized(notes, c, target, now);
    var i :| 0 <= i < |notes| && notes[i].commitment == commitment && notes[i].status == status && KeyOf(notes[i]) == Some(key);
    assert next[i] == notes[i];
  }

  /** One intent: its exclusion survives exactly if it does not need the target to be spent or waiting. */
  lemma ClaimKeepsPair(notes: seq<Note>, c: Claim, target: nat, now: int, k: string, source: Hex, change: Hex)
    requires target < |notes| && DistinctCommitments(notes) && Exclusive(notes, k, source, change) && source != change
    ensures var t := notes[target].commitment;
      Exclusive(Finalized(notes, c, target, now), k, source, change)
      <==> (t == source ==> Gone(notes, c, change, k)) && (t == change ==> Gone(notes, c, source, k))
  {
    var t := notes[target].commitment;
    if t == source {
      TargetLives(notes, c, target, now, Locked, k);
      TargetLives(notes, c, target, now, Spent, k);
      SpentAfter(notes, c, target, now, change, k);
    } else if t == change {
      TargetLives(notes, c, target, now, Pending, k);
      TargetLives(notes, c, target, now, Spent, k);
      SpentAfter(notes, c, target, now, source, k);
    } else {
      OthersStay(notes, c, target, now, k, source, change);
    }
  }

  lemma OthersStay(notes: seq<Note>, c: Claim, target: nat, now: int, k: string, source: Hex, change: Hex)
    requires target < |notes| && Exclusive(notes, k, source, change)
    requires notes[target].commitment != source && notes[target].commitment != change
    ensures Exclusive(Finalized(notes, c, target, now), k, source, change)
  {
    if Holds(notes, source, Spent, k) {
      OtherStays(notes, c, target, now, source, Spent, k);
    } else if Holds(notes, change, Spent, k) {
      OtherStays(notes, c, target, now, change, Spent, k);
    } else {
      OtherStays(notes, c, target, now, source, Locked, k);
      OtherStays(notes, c, target, now, change, Pending, k);
    }
  }

  /** A claim keeps the ledger safe exactly if it revives no note whose counterpart is still there. */
  lemma {:induction false} ClaimKeepsSafe(notes: seq<Note>, intents: map<string, Ties>, c: Claim, target: nat, now: int)
    requires Safe(notes, intents) && target < |notes|
    ensures Safe(Finalized(notes, c, target, now), intents) <==> OthersGone(notes, intents, c, target)
  {
    var next := Finalized(notes, c, target, now);
    forall k | k in intents && intents[k].change.Some?
      ensures Exclusive(next, k, intents[k].source, intents[k].change.value)
         <==> (notes[target].commitment == intents[k].source ==> Gone(notes, c, intents[k].change.value, k))
              && (notes[target].commitment == intents[k].change.value ==> Gone(notes, c, intents[k].source, k))
    {
      ClaimKeepsPair(notes, c, target, now, k, intents[k].source, intents[k].change.value);
    }
    forall i | 0 <= i < |next| ensures TiedAsAccepted(next[i], intents) {
      assert TiedAsAccepted(notes[i], intents);
    }
  }

  /** The first claim of a residual, whose target still waits for it, is always safe. */
  lemma WaitingTargetIsSafe(notes: seq<Note>, intents: map<string, Ties>, c: Claim, target: nat, now: int)
    requires Safe(notes, intents) && target < |notes| && notes[target].status == Claiming
    ensures Safe(Finalized(notes, c, target, now), intents)
  {
    forall k | k in intents && intents[k].change.Some?
      ensures notes[target].commitment == intents[k].source ==> Gone(notes, c, intents[k].change.value, k)
      ensures notes[target].commitment == intents[k].change.value ==> Gone(notes, c, intents[k].source, k)
    {
      assert Exclusive(notes, k, intents[k].source, intents[k].change.value);
    }
    ClaimKeepsSafe(notes, intents, c, target, now);
  }
}
