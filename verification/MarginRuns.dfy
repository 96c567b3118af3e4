/** The ledger of private margin notes over every run of its operations. */
module MarginRuns {
  import opened Common
  import opened MarginNotes
  import opened MarginSafety
  import opened MarginClaims

  datatype Ledger = Ledger(notes: seq<Note>, intents: map<string, Ties>)

  datatype Step =
    | Save(note: Note)
    | Accept(source: Hex, change: Option<Note>, intent: Hex, now: int)
    | Reconcile(orders: seq<Order>, now: int)
    | MarkSpent(commitment: Hex, now: int)
    | Repair(i: nat, j: nat, intent: Hex, now: int)
    | FinishClaim(claim: Claim, now: int)

  /**
   No intent names a saved or an accepted note before, so the first and the second save of one
   note are both steps; sources are planned, intents are new.  A claim is finished only into a
   note whose counterparts are gone.
   */
  ghost predicate Enabled(l: Ledger, s: Step) {
    match s
    case Save(n) => Untied(l.intents, n.commitment) && KeyOf(n).None?
    case Accept(source, change, intent, now) =>
      && HasAvailable(l.notes, source) && intent != "" && Lower(intent) !in l.intents
      && (change.Some? ==> change.value.commitment != source && Untied(l.intents, change.value.commitment))
    case Repair(i, j, intent, now) => i < |l.notes| && j < |l.notes| && Repairable(l.notes, i, j, intent)
    case FinishClaim(c, now) =>
      var target := FindTarget(l.notes, c, 0);
      target.Some? && OthersGone(l.notes, l.intents, c, target.value)
    case _ => true
  }

  ghost function Next(l: Ledger, s: Step): Ledger {
    if !Enabled(l, s) then l
    else match s
      case Save(n) => l.(notes := Saved(l.notes, n))
      case Accept(source, change, intent, now) =>
        Ledger(Accepted(l.notes, source, change, intent, now),
               l.intents[Lower(intent) := Ties(source, if change.Some? then Some(change.value.commitment) else None)])
      case Reconcile(orders, now) => l.(notes := Reconciled(orders, l.notes, now))
      case MarkSpent(commitment, now) => l.(notes := MarkedSpent(l.notes, commitment, now))
      case Repair(i, j, intent, now) =>
        l.(notes := Repaired(l.notes, l.notes[i].commitment, l.notes[j].commitment, now))
      case FinishClaim(c, now) => l.(notes := Finalized(l.notes, c, FindTarget(l.notes, c, 0).value, now))
  }

  ghost function Run(steps: seq<Step>): Ledger
    decreases |steps|
  {
    if steps == [] then Ledger([], map[]) else Next(Run(steps[..|steps| - 1]), steps[|steps| - 1])
  }

  lemma NextIsSafe(l: Ledger, s: Step)
    requires Safe(l.notes, l.intents)
    ensures Safe(Next(l, s).notes, Next(l, s).intents)
  {
    if Enabled(l, s) {
      match s
      case Save(n) => SaveUntiedKeepsSafe(l.notes, n, l.intents);
      case Accept(source, change, intent, now) => AcceptKeepsSafe(l.notes, l.intents, source, change, intent, now);
      case Reconcile(orders, now) => ReconcileKeepsSafe(orders, l.notes, now, l.intents);
      case MarkSpent(commitment, now) => MarkSpentKeepsSafe(l.notes, commitment, now, l.intents);
      case Repair(i, j, intent, now) => RepairKeepsSafe(l.notes, l.intents, i, j, intent, now);
      case FinishClaim(c, now) => ClaimKeepsSafe(l.notes, l.intents, c, FindTarget(l.notes, c, 0).value, now);
    }
  }

  lemma {:induction false} RunIsSafe(steps: seq<Step>)
    ensures Safe(Run(steps).notes, Run(steps).intents)
  {
    if steps != [] {
      RunIsSafe(steps[..|steps| - 1]);
      NextIsSafe(Run(steps[..|steps| - 1]), steps[|steps| - 1]);
    }
  }

  /** The source of an intent no longer waits for a verdict and is not spent. */
  ghost predicate Released(notes: seq<Note>, source: Hex, key: string) {
    exists i :: 0 <= i < |notes| && notes[i].commitment == source && notes[i].status != Spent
                && (notes[i].status != Locked || KeyOf(notes[i]) != Some(key))
  }

  /** The change of an intent no longer waits for a verdict and is not spent. */
  ghost predicate Live(notes: seq<Note>, change: Hex, key: string) {
    exists i :: 0 <= i < |notes| && notes[i].commitment == change && notes[i].status != Spent
                && (notes[i].status != Pending || KeyOf(notes[i]) != Some(key))
  }

  /** In every run: a live change means a spent source, a released source a spent change, never both spendable. */
  lemma ExclusiveInEveryRun(steps: seq<Step>, key: string)
    requires key in Run(steps).intents && Run(steps).intents[key].change.Some?
    ensures var notes, ties := Run(steps).notes, Run(steps).intents[key];
      && (Live(notes, ties.change.value, key) ==> Holds(notes, ties.source, Spent, key))
      && (Released(notes, ties.source, key) ==> Holds(notes, ties.change.value, Spent, key))
      && !(HasAvailable(notes, ties.source) && HasAvailable(notes, ties.change.value))
  {
    var l := Run(steps);
    var source, change := l.intents[key].source, l.intents[key].change.value;
    RunIsSafe(steps);
    if Live(l.notes, change, key) {
      var i :| 0 <= i < |l.notes| && l.notes[i].commitment == change && l.notes[i].status != Spent
               && (l.notes[i].status != Pending || KeyOf(l.notes[i]) != Some(key));
      LiveChangeMeansSpentSource(l.notes, l.intents, key, i);
    }
    if Released(l.notes, source, key) {
      var i :| 0 <= i < |l.notes| && l.notes[i].commitment == source && l.notes[i].status != Spent
               && (l.notes[i].status != Locked || KeyOf(l.notes[i]) != Some(key));
      ReleasedSourceMeansSpentChange(l.notes, l.intents, key, i);
    }
    NeverBothSpendable(l.notes, l.intents, key);
  }

  // ----- A claim finished a second time -----

  lemma RunStep(steps: seq<Step>, s: Step)
    ensures Run(steps + [s]) == Next(Run(steps), s)
  {
    assert (steps + [s])[..|steps|] == steps;
  }

  /** A recovery note of the claim, and the change of the order that spends it later. */
  ghost predicate Recovery(r: Note, change: Note, intent: Hex, c: Claim) {
    && r.status == Claiming && r.lockedBy.None? && IsTarget(r, c)
    && change.commitment != r.commitment && change.claimSource.None? && intent != ""
  }

  function FilledOrder(intent: Hex): Order {
    Order(intent, None, None, Filled)
  }

  /** Save the recovery note, finish its claim, spend it on an order, and see the order filled. */
  function SpentRecovery(r: Note, change: Note, intent: Hex, c: Claim, now: int): seq<Step> {
    [Save(r)] + [FinishClaim(c, now)] + [Accept(r.commitment, Some(change), intent, now)]
    + [Reconcile([FilledOrder(intent)], now)]
  }

  lemma RecoverySaved(r: Note, change: Note, intent: Hex, c: Claim, now: int)
    requires Recovery(r, change, intent, c)
    ensures Run([Save(r)]) == Ledger([r], map[])
    ensures Run([Save(r)] + [FinishClaim(c, now)]) == Ledger([r.(status := Available, updatedAt := now)], map[])
  {
    RunStep([], Save(r));
    assert [] + [Save(r)] == [Save(r)];
    var l := Ledger([r], map[]);
    assert Run([]) == Ledger([], map[]);
    assert Saved([], r) == [r];
    RunStep([Save(r)], FinishClaim(c, now));
    assert l.notes[0] == r;
    assert FindTarget(l.notes, c, 0) == Some(0);
    assert Finalized(l.notes, c, 0, now) == [r.(status := Available, updatedAt := now)];
  }

  lemma RecoverySpent(r: Note, change: Note, intent: Hex, now: int)
    requires r.status == Available && change.commitment != r.commitment && intent != ""
    ensures var l := Next(Ledger([r], map[]), Accept(r.commitment, Some(change), intent, now));
      && l.notes == [change.(status := Pending, lockedBy := Some(intent), updatedAt := now),
                     r.(status := Locked, lockedBy := Some(intent), updatedAt := now)]
  {
    var l := Ledger([r], map[]);
    var tied := change.(status := Pending, lockedBy := Some(intent), updatedAt := now);
    assert l.notes[0] == r;
    assert HasAvailable(l.notes, r.commitment);
    assert l.notes[1..] == [];
    assert Saved(l.notes, tied) == [tied, r];
    var locked := r.(status := Locked, lockedBy := Some(intent), updatedAt := now);
    assert Accepted(l.notes, r.commitment, Some(change), intent, now) == [tied, locked];
  }

  lemma FilledMoves(change: Note, source: Note, intent: Hex, now: int)
    requires intent != "" && change.status == Pending && change.lockedBy == Some(intent)
    requires source.status == Locked && source.lockedBy == Some(intent)
    ensures Reconciled([FilledOrder(intent)], [change, source], now)
         == [change.(lockedBy := None, status := Available, updatedAt := now),
             source.(status := Spent, updatedAt := now)]
  {
    var orders, key := [FilledOrder(intent)], Lower(intent);
    assert ExactUpTo(orders, 1, key) == AfterOrder(ExactUpTo(orders, 0, key), orders[0], key) == Some(Filled);
  }

  /** If the write that locks the source is refused after the change was tied, a fill makes both spendable. */
  lemma TieWithoutLock(change: Note, source: Note, intent: Hex, now: int)
    requires intent != "" && change.status == Pending && change.lockedBy == Some(intent) && source.status == Available
    ensures var next := Reconciled([FilledOrder(intent)], [change, source], now);
      HasAvailable(next, change.commitment) && HasAvailable(next, source.commitment)
  {
    var orders, key := [FilledOrder(intent)], Lower(intent);
    var notes := [change, source];
    assert ExactUpTo(orders, 1, key) == AfterOrder(ExactUpTo(orders, 0, key), orders[0], key) == Some(Filled);
    assert notes[0] == change && notes[1] == source;
    var next := Reconciled(orders, notes, now);
    assert next[0].commitment == change.commitment && next[0].status == Available;
    assert next[1] == source;
  }

  /**
   Claiming the same residual again, which the server answers with the note it was claimed
   to, revives that note after it was spent: source and change are spendable at once.
   */
  lemma ClaimAgainRevives(r: Note, change: Note, intent: Hex, c: Claim, now: int)
    requires Recovery(r, change, intent, c)
    ensures var notes := Run(SpentRecovery(r, change, intent, c, now)).notes;
      var target := FindTarget(notes, c, 0);
      && target.Some? && notes[target.value].status == Spent
      && HasAvailable(Finalized(notes, c, target.value, now), r.commitment)
      && HasAvailable(Finalized(notes, c, target.value, now), change.commitment)
  {
    var early := [Save(r)] + [FinishClaim(c, now)];
    var accept, follow := Accept(r.commitment, Some(change), intent, now), Reconcile([FilledOrder(intent)], now);
    var available := r.(status := Available, updatedAt := now);
    RecoverySaved(r, change, intent, c, now);
    RunStep(early, accept);
    RunStep(early + [accept], follow);
    RecoverySpent(available, change, intent, now);
    var tied := change.(status := Pending, lockedBy := Some(intent), updatedAt := now);
    var locked := available.(status := Locked, lockedBy := Some(intent), updatedAt := now);
    FilledMoves(tied, locked, intent, now);
    var notes := Run(SpentRecovery(r, change, intent, c, now)).notes;
    var live := tied.(lockedBy := None, status := Available, updatedAt := now);
    var spent := locked.(status := Spent, updatedAt := now);
    assert notes == [live, spent];
    BothRevived(live, spent, c, now);
  }

  lemma BothRevived(live: Note, spent: Note, c: Claim, now: int)
    requires !IsTarget(live, c) && live.status == Available && IsTarget(spent, c)
    ensures FindTarget([live, spent], c, 0) == Some(1)
    ensures HasAvailable(Finalized([live, spent], c, 1, now), spent.commitment)
    ensures HasAvailable(Finalized([live, spent], c, 1, now), live.commitment)
  {
    var notes := [live, spent];
    assert notes[0] == live && notes[1] == spent;
    assert FindTarget(notes, c, 0) == FindTarget(notes, c, 1);
    var next := Finalized(notes, c, 1, now);
    assert next[0] == Claimed(live, c, false, now) && next[1] == Claimed(spent, c, true, now);
    assert next[0].status == Available && next[1].status == Available;
  }
}
