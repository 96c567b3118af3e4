/**
 Submitting an order as several fragments, one for each planned note, and undoing the
 accepted ones when a later fragment fails (client/src/lib/trade-submit.ts).
 */
module FragmentSaga {
  import opened Common
  import opened MarginNotes
  import opened MarginSafety
  import opened MarginBalances
  import opened MarginNoteStore
  import opened ConditionalStrategies
  import opened NotePlanner

  // ----- The spendable notes of a ledger -----

  /** An available note, or a locked one among the given commitments. */
  predicate Counts(n: Note, hidden: set<Hex>) {
    n.status == Available || (n.status == Locked && n.commitment in hidden)
  }

  /** Commitments and amounts of the notes that count, in ledger order. */
  function Listed(notes: seq<Note>, hidden: set<Hex>): seq<(Hex, int)> {
    if notes == [] then []
    else Entry(notes[0], hidden) + Listed(notes[1..], hidden)
  }

  function Entry(n: Note, hidden: set<Hex>): seq<(Hex, int)> {
    if Counts(n, hidden) then [(n.commitment, n.amount)] else []
  }

  /** What a user can spend. */
  function AvailableNotes(notes: seq<Note>): seq<(Hex, int)> {
    Listed(notes, {})
  }

  function Worth(listed: seq<(Hex, int)>): int {
    if listed == [] then 0 else listed[0].1 + Worth(listed[1..])
  }

  lemma {:induction false} WorthExtends(a: seq<(Hex, int)>, b: seq<(Hex, int)>)
    ensures Worth(a + b) == Worth(a) + Worth(b)
  {
    if a == [] {
      assert a + b == b;
    } else {
      WorthExtends(a[1..], b);
      assert (a + b)[1..] == a[1..] + b;
    }
  }

  lemma {:induction false} ListedExtends(a: seq<Note>, b: seq<Note>, hidden: set<Hex>)
    ensures Listed(a + b, hidden) == Listed(a, hidden) + Listed(b, hidden)
  {
    if a == [] {
      assert a + b == b;
    } else {
      var ab, rest := a + b, a[1..];
      assert ab[0] == a[0] && ab[1..] == rest + b;
      ListedExtends(rest, b, hidden);
      var first, x, y := Entry(a[0], hidden), Listed(rest, hidden), Listed(b, hidden);
      assert first + (x + y) == (first + x) + y;
    }
  }

  /** The spendable balance is the worth of the available notes. */
  lemma {:induction false} SpendableIsWorth(notes: seq<Note>, n: nat)
    requires n <= |notes|
    ensures Spendable(notes, n) == Worth(AvailableNotes(notes[..n]))
  {
    if n > 0 {
      SpendableIsWorth(notes, n - 1);
      var last := [notes[n - 1]];
      assert notes[..n] == notes[..n - 1] + last;
      ListedExtends(notes[..n - 1], last, {});
      WorthExtends(AvailableNotes(notes[..n - 1]), AvailableNotes(last));
      assert last[1..] == [];
    }
  }

  /** Rewriting notes one by one without changing which count. */
  lemma {:induction false} ListedSame(notes: seq<Note>, next: seq<Note>, hidden: set<Hex>, nowHidden: set<Hex>)
    requires |next| == |notes|
    requires forall i | 0 <= i < |notes| :: next[i].commitment == notes[i].commitment && next[i].amount == notes[i].amount
    requires forall i | 0 <= i < |notes| :: Counts(next[i], nowHidden) == Counts(notes[i], hidden)
    ensures Listed(next, nowHidden) == Listed(notes, hidden)
  {
    if notes != [] { ListedSame(notes[1..], next[1..], hidden, nowHidden); }
  }

  lemma {:induction false} ListedWithout(notes: seq<Note>, c: Hex, hidden: set<Hex>)
    requires forall i | 0 <= i < |notes| && notes[i].commitment == c :: !Counts(notes[i], hidden)
    ensures Listed(Without(notes, c), hidden) == Listed(notes, hidden)
  {
    if notes != [] { ListedWithout(notes[1..], c, hidden); }
  }

  /** Saving a note that does not count, over one that does not count either. */
  lemma ListedSaved(notes: seq<Note>, n: Note, hidden: set<Hex>)
    requires !Counts(n, hidden)
    requires forall i | 0 <= i < |notes| && notes[i].commitment == n.commitment :: !Counts(notes[i], hidden)
    ensures Listed(Saved(notes, n), hidden) == Listed(notes, hidden)
  {
    ListedWithout(notes, n.commitment, hidden);
    assert Saved(notes, n)[1..] == Without(notes, n.commitment);
  }

  /** Locking an available note hides it and nothing else. */
  lemma ListedLocked(notes: seq<Note>, source: Hex, intent: Hex, now: int, hidden: set<Hex>)
    requires forall i | 0 <= i < |notes| && notes[i].commitment == source :: notes[i].status == Available
    ensures Listed(LockedTo(notes, source, intent, now), hidden + {source}) == Listed(notes, hidden)
  {
    ListedSame(notes, LockedTo(notes, source, intent, now), hidden, hidden + {source});
  }

  /** Fewer notes are available while one of the listed ones is locked. */
  lemma {:induction false} HiddenIsMissing(notes: seq<Note>, hidden: set<Hex>)
    ensures |AvailableNotes(notes)| <= |Listed(notes, hidden)|
    ensures (exists i :: 0 <= i < |notes| && notes[i].status == Locked && notes[i].commitment in hidden)
              ==> |AvailableNotes(notes)| < |Listed(notes, hidden)|
  {
    if notes != [] {
      HiddenIsMissing(notes[1..], hidden);
      if i :| 0 <= i < |notes| && notes[i].status == Locked && notes[i].commitment in hidden && i > 0 {
        assert notes[1..][i - 1] == notes[i];
      }
    }
  }

  /** And they are worth less. */
  lemma {:induction false} HiddenIsWorth(notes: seq<Note>, hidden: set<Hex>)
    requires forall i | 0 <= i < |notes| :: notes[i].amount > 0
    ensures Worth(AvailableNotes(notes)) <= Worth(Listed(notes, hidden))
    ensures (exists i :: 0 <= i < |notes| && notes[i].status == Locked && notes[i].commitment in hidden)
              ==> Worth(AvailableNotes(notes)) < Worth(Listed(notes, hidden))
  {
    if notes != [] {
      var rest := notes[1..];
      HiddenIsWorth(rest, hidden);
      WorthExtends(Entry(notes[0], {}), AvailableNotes(rest));
      WorthExtends(Entry(notes[0], hidden), Listed(rest, hidden));
      WorthOfEntry(notes[0], {});
      WorthOfEntry(notes[0], hidden);
      if i :| 0 <= i < |notes| && notes[i].status == Locked && notes[i].commitment in hidden && i > 0 {
        assert rest[i - 1] == notes[i];
      }
    }
  }

  lemma WorthOfEntry(n: Note, hidden: set<Hex>)
    ensures Worth(Entry(n, hidden)) == if Counts(n, hidden) then n.amount else 0
  {
    if Counts(n, hidden) { assert Entry(n, hidden)[1..] == []; }
  }

  // ----- Cancelling one intent -----

  function CancelOrder(intent: Hex): Order {
    Order(intent, None, None, Cancelled)
  }

  lemma {:induction false} NoOtherFallback(notes: seq<Note>, intent: Hex, n: nat, key: string)
    requires n <= |notes|
    ensures FallbackUpTo([CancelOrder(intent)], notes, n, key) == None
  {
    if n > 0 {
      NoOtherFallback(notes, intent, n - 1, key);
      assert StatusesOfNullifier([CancelOrder(intent)], 1, Lower(notes[n - 1].nullifier)) == {};
    }
  }

  /** A cancellation decides its own intent and no other, not even by nullifier. */
  lemma CancelVerdict(notes: seq<Note>, intent: Hex, key: string)
    ensures Verdict([CancelOrder(intent)], notes, key) == if key == Lower(intent) then Some(Cancelled) else None
  {
    var orders := [CancelOrder(intent)];
    assert ExactUpTo(orders, 1, key) == AfterOrder(ExactUpTo(orders, 0, key), orders[0], key);
    NoOtherFallback(notes, intent, |notes|, key);
  }

  /** Cancelling an accepted intent makes its source available again and nothing else. */
  lemma ListedCancelled(notes: seq<Note>, intents: map<string, Ties>, intent: Hex, now: int, hidden: set<Hex>)
    requires Safe(notes, intents) && Lower(intent) in intents && intents[Lower(intent)].source in hidden
    requires Holds(notes, intents[Lower(intent)].source, Locked, Lower(intent))
    ensures Listed(Reconciled([CancelOrder(intent)], notes, now), hidden - {intents[Lower(intent)].source})
         == Listed(notes, hidden)
  {
    var orders, key, source := [CancelOrder(intent)], Lower(intent), intents[Lower(intent)].source;
    var next := Reconciled(orders, notes, now);
    forall i | 0 <= i < |notes|
      ensures Counts(next[i], hidden - {source}) == Counts(notes[i], hidden)
      ensures next[i].commitment == notes[i].commitment && next[i].amount == notes[i].amount
    {
      if KeyOf(notes[i]).Some? { CancelVerdict(notes, intent, KeyOf(notes[i]).value); }
      assert TiedAsAccepted(notes[i], intents);
      if notes[i].commitment == source {
        var j :| 0 <= j < |notes| && notes[j].commitment == source && notes[j].status == Locked && KeyOf(notes[j]) == Some(key);
        assert i == j;
      }
    }
    ListedSame(notes, next, hidden, hidden - {source});
  }

  /** Another intent's source stays locked. */
  lemma CancelKeepsOthers(notes: seq<Note>, intent: Hex, now: int, source: Hex, key: string)
    requires Holds(notes, source, Locked, key) && key != Lower(intent)
    ensures Holds(Reconciled([CancelOrder(intent)], notes, now), source, Locked, key)
  {
    var i :| 0 <= i < |notes| && notes[i].commitment == source && notes[i].status == Locked && KeyOf(notes[i]) == Some(key);
    CancelVerdict(notes, intent, key);
    assert Reconciled([CancelOrder(intent)], notes, now)[i] == notes[i];
  }

  // ----- One fragment -----

  /** A planned part, and the values the proof and the server will come up with for it. */
  datatype Fragment = Fragment(part: Part, changeCommitment: Hex, changeNullifier: Hex, reply: Hex)

  datatype Outcome = Submitted(intent: Hex) | Broken(locked: bool, stale: bool)

  function SourceOfFragment(f: Fragment): Hex {
    f.part.note.commitment
  }

  function ChangeOf(f: Fragment, now: int): Option<Note> {
    var note := f.part.note;
    var amount := note.amount - f.part.amount;
    if amount > 0
    then Some(Note(amount, note.asset, f.changeCommitment, f.changeNullifier, note.owner, Pending, None, note.scope, None, now))
    else None
  }

  /** The change commitment and the intent are new: both are hashes over fresh randomness. */
  ghost predicate Fresh(f: Fragment, notes: seq<Note>, intents: map<string, Ties>) {
    f.reply != "" && Lower(f.reply) !in intents && Unused(notes, intents, f.changeCommitment)
  }

  /** Nothing but the given source lost its availability, and locked notes stay locked. */
  ghost predicate Carried(notes: seq<Note>, next: seq<Note>, source: Hex) {
    && (forall c | c != source && HasAvailable(notes, c) :: HasAvailable(next, c))
    && (forall c, key | Holds(notes, c, Locked, key) :: Holds(next, c, Locked, key))
  }

  lemma SavedCarries(notes: seq<Note>, n: Note, source: Hex)
    requires forall i | 0 <= i < |notes| :: notes[i].commitment != n.commitment
    ensures Carried(notes, Saved(notes, n), source)
    ensures HasAvailable(notes, source) ==> HasAvailable(Saved(notes, n), source)
  {
    assert Saved(notes, n) == [n] + notes;
    forall c | HasAvailable(notes, c) ensures HasAvailable([n] + notes, c) {
      var i :| 0 <= i < |notes| && notes[i].commitment == c && notes[i].status == Available;
      assert ([n] + notes)[i + 1] == notes[i];
    }
    forall c, key | Holds(notes, c, Locked, key) ensures Holds([n] + notes, c, Locked, key) {
      HoldsLater(notes, n, c, Locked, key);
    }
  }

  lemma LockedCarries(notes: seq<Note>, source: Hex, intent: Hex, now: int)
    requires DistinctCommitments(notes) && HasAvailable(notes, source)
    ensures Carried(notes, LockedTo(notes, source, intent, now), source)
  {
    var next := LockedTo(notes, source, intent, now);
    forall c | c != source && HasAvailable(notes, c) ensures HasAvailable(next, c) {
      var i :| 0 <= i < |notes| && notes[i].commitment == c && notes[i].status == Available;
      assert next[i] == notes[i];
    }
    forall c, key | Holds(notes, c, Locked, key) ensures Holds(next, c, Locked, key) {
      var i :| 0 <= i < |notes| && notes[i].commitment == c && notes[i].status == Locked && KeyOf(notes[i]) == Some(key);
      assert next[i] == notes[i];
    }
  }

  lemma CarriedTwice(a: seq<Note>, b: seq<Note>, c: seq<Note>, source: Hex)
    requires Carried(a, b, source) && Carried(b, c, source)
    ensures Carried(a, c, source)
  {
  }

  /** The commitments of a ledger are those of another, or the one just added. */
  ghost predicate Adds(notes: seq<Note>, next: seq<Note>, added: Hex) {
    forall i | 0 <= i < |next| ::
      next[i].commitment == added || exists j :: 0 <= j < |notes| && notes[j].commitment == next[i].commitment
  }

  /** A ledger that gained one note no order may spend yet, and had its source locked. */
  lemma LockEffect(notes: seq<Note>, source: Hex, intent: Hex, now: int, hidden: set<Hex>)
    requires DistinctCommitments(notes) && HasAvailable(notes, source) && intent != ""
    ensures var next := LockedTo(notes, source, intent, now);
      && Listed(next, hidden + {source}) == Listed(notes, hidden)
      && Carried(notes, next, source) && Holds(next, source, Locked, Lower(intent))
  {
    var k :| 0 <= k < |notes| && notes[k].commitment == source && notes[k].status == Available;
    ListedLocked(notes, source, intent, now, hidden);
    LockedCarries(notes, source, intent, now);
    LockedHolds(notes, source, intent, now);
  }

  lemma SaveEffect(notes: seq<Note>, n: Note, source: Hex, hidden: set<Hex>)
    requires DistinctCommitments(notes) && n.status == Pending
    requires forall i | 0 <= i < |notes| :: notes[i].commitment != n.commitment
    ensures var next := Saved(notes, n);
      && DistinctCommitments(next) && Listed(next, hidden) == Listed(notes, hidden)
      && Carried(notes, next, source) && Adds(notes, next, n.commitment)
      && (HasAvailable(notes, source) ==> HasAvailable(next, source))
  {
    ListedSaved(notes, n, hidden);
    SavedCarries(notes, n, source);
    assert Saved(notes, n) == [n] + notes;
  }

  /** Saving the change twice, untied and then tied, leaves what saving it tied would. */
  lemma SavedTwice(notes: seq<Note>, n: Note, tied: Note)
    requires n.commitment == tied.commitment && forall i | 0 <= i < |notes| :: notes[i].commitment != n.commitment
    ensures Saved(Saved(notes, n), tied) == Saved(notes, tied)
  {
    assert Saved(notes, n)[0] == n && Saved(notes, n)[1..] == notes;
  }

  /** The ledger before the server is asked. */
  function Prepared(notes: seq<Note>, f: Fragment, now: int): seq<Note> {
    if ChangeOf(f, now).Some? then Saved(notes, ChangeOf(f, now).value) else notes
  }

  /** The ledger after the fragment was accepted. */
  function AfterFragment(notes: seq<Note>, f: Fragment, now: int): seq<Note> {
    Accepted(Prepared(notes, f, now), SourceOfFragment(f), ChangeOf(f, now), f.reply, now)
  }

  lemma PreparedEffect(notes: seq<Note>, intents: map<string, Ties>, f: Fragment, now: int, hidden: set<Hex>)
    requires DistinctCommitments(notes) && Fresh(f, notes, intents)
    ensures var next := Prepared(notes, f, now);
      && Listed(next, hidden) == Listed(notes, hidden) && Carried(notes, next, SourceOfFragment(f))
      && Adds(notes, next, f.changeCommitment)
      && (HasAvailable(notes, SourceOfFragment(f)) ==> HasAvailable(next, SourceOfFragment(f)))
  {
    if ChangeOf(f, now).Some? { SaveEffect(notes, ChangeOf(f, now).value, SourceOfFragment(f), hidden); }
  }

  lemma TiedEffect(notes: seq<Note>, tied: Note, source: Hex, intent: Hex, now: int, hidden: set<Hex>)
    requires DistinctCommitments(notes) && HasAvailable(notes, source) && intent != "" && tied.status == Pending
    requires forall i | 0 <= i < |notes| :: notes[i].commitment != tied.commitment
    ensures var next := LockedTo(Saved(notes, tied), source, intent, now);
      && Listed(next, hidden + {source}) == Listed(notes, hidden) && Carried(notes, next, source)
      && Holds(next, source, Locked, Lower(intent))
  {
    var saved := Saved(notes, tied);
    SaveEffect(notes, tied, source, hidden);
    LockEffect(saved, source, intent, now, hidden);
    CarriedTwice(notes, saved, LockedTo(saved, source, intent, now), source);
  }

  /** Accepting a fragment hides its source, locks it, and adds only its change note. */
  lemma FragmentEffect(notes: seq<Note>, intents: map<string, Ties>, f: Fragment, now: int, hidden: set<Hex>)
    requires DistinctCommitments(notes) && HasAvailable(notes, SourceOfFragment(f)) && Fresh(f, notes, intents)
    ensures var next, source := AfterFragment(notes, f, now), SourceOfFragment(f);
      && Listed(next, hidden + {source}) == Listed(notes, hidden) && Carried(notes, next, source)
      && Holds(next, source, Locked, Lower(f.reply))
  {
    var source, change := SourceOfFragment(f), ChangeOf(f, now);
    if change.None? {
      LockEffect(notes, source, f.reply, now, hidden);
    } else {
      var tied := change.value.(status := Pending, lockedBy := Some(f.reply), updatedAt := now);
      SavedTwice(notes, change.value, tied);
      TiedEffect(notes, tied, source, f.reply, now, hidden);
    }
  }

  lemma FragmentAdds(notes: seq<Note>, intents: map<string, Ties>, f: Fragment, now: int)
    requires Fresh(f, notes, intents)
    ensures Adds(notes, AfterFragment(notes, f, now), f.changeCommitment)
  {
    var change := ChangeOf(f, now);
    if change.Some? {
      var tied := change.value.(status := Pending, lockedBy := Some(f.reply), updatedAt := now);
      SavedTwice(notes, change.value, tied);
      assert Saved(notes, tied) == [tied] + notes;
    }
  }

  // ----- The saga -----

  /** The fragments from k on can still be submitted. */
  ghost predicate Ready(fragments: seq<Fragment>, k: nat, notes: seq<Note>, intents: map<string, Ties>) {
    && (forall j | k <= j < |fragments| :: Fresh(fragments[j], notes, intents) && HasAvailable(notes, SourceOfFragment(fragments[j])))
    && (forall i, j | k <= i < j < |fragments| ::
          && SourceOfFragment(fragments[i]) != SourceOfFragment(fragments[j])
          && fragments[i].changeCommitment != fragments[j].changeCommitment
          && Lower(fragments[i].reply) != Lower(fragments[j].reply))
  }

  /** An accepted fragment whose source is still locked. */
  ghost predicate Held(f: Fragment, notes: seq<Note>, intents: map<string, Ties>, hidden: set<Hex>) {
    && Lower(f.reply) in intents && intents[Lower(f.reply)].source == SourceOfFragment(f)
    && SourceOfFragment(f) in hidden && Holds(notes, SourceOfFragment(f), Locked, Lower(f.reply))
  }

  function TiesOf(f: Fragment, now: int): Ties {
    Ties(SourceOfFragment(f), if ChangeOf(f, now).Some? then Some(f.changeCommitment) else None)
  }

  function MaybeStale(notes: seq<Note>, stale: bool, source: Hex, now: int): seq<Note> {
    if stale then MarkedSpent(notes, source, now) else notes
  }

  /** The handler of a failed step: a note the server calls stale is marked spent. */
  method HandleFailure(store: Store, source: Hex, stale: bool, now: int)
    requires store.Valid()
    modifies store`notes
    ensures store.Valid() && store.notes == MaybeStale(old(store.notes), stale, source, now)
  {
    if stale { store.MarkSpent(source, now); }
  }

  /** The change note is on record, pending and tied to nothing, before the server is asked. */
  method SavePending(store: Store, f: Fragment, now: int)
    requires store.Valid() && Fresh(f, store.notes, store.intents) && HasAvailable(store.notes, SourceOfFragment(f))
    modifies store`notes
    ensures store.Valid() && store.notes == Prepared(old(store.notes), f, now)
    ensures HasAvailable(store.notes, SourceOfFragment(f))
  {
    var change := ChangeOf(f, now);
    PreparedEffect(store.notes, store.intents, f, now, {});
    if change.Some? { store.Save(change.value); }
  }

  /** What the server's answer makes of the fragment. */
  method AcceptFragment(store: Store, f: Fragment, now: int)
    requires store.Valid() && HasAvailable(store.notes, SourceOfFragment(f)) && SourceOfFragment(f) != f.changeCommitment
    requires f.reply != "" && Lower(f.reply) !in store.intents && Untied(store.intents, f.changeCommitment)
    modifies store
    ensures store.Valid() && store.intents == old(store.intents)[Lower(f.reply) := TiesOf(f, now)]
    ensures store.notes == Accepted(old(store.notes), SourceOfFragment(f), ChangeOf(f, now), f.reply, now)
  {
    store.Accept(SourceOfFragment(f), ChangeOf(f, now), f.reply, now);
  }

  /** What the answer makes of a fragment: only an accepted one can fail after its lock, and only at its strategy. */
  function OutcomeOf(f: Fragment, answer: Answer, storable: bool): Outcome {
    match answer
    case Refused(prepared, stale) => Broken(false, stale)
    case Taken => if storable then Submitted(f.reply) else Broken(true, false)
  }

  /** The ledger a refused fragment leaves. */
  function AfterRefusal(notes: seq<Note>, f: Fragment, prepared: bool, stale: bool, now: int): seq<Note> {
    MaybeStale(if prepared then Prepared(notes, f, now) else notes, stale, SourceOfFragment(f), now)
  }

  /** `submitCustodyIntentFragment`. */
  method SubmitFragment(store: Store, saved: StrategyStore, f: Fragment, strategy: Option<Strategy>, answer: Answer,
                        now: int) returns (outcome: Outcome)
    requires store.Valid() && Fresh(f, store.notes, store.intents) && HasAvailable(store.notes, SourceOfFragment(f))
    modifies store, saved
    ensures store.Valid()
    ensures outcome == OutcomeOf(f, answer, Storable(strategy, old(saved.Readable()), old(saved.room)))
    ensures answer.Taken? ==> store.notes == AfterFragment(old(store.notes), f, now)
    ensures answer.Taken? ==> store.intents == old(store.intents)[Lower(f.reply) := TiesOf(f, now)]
    ensures answer.Refused? ==> store.intents == old(store.intents)
    ensures answer.Refused? ==> store.notes == AfterRefusal(old(store.notes), f, answer.prepared, answer.stale, now)
    ensures saved.Readable() == old(saved.Readable())
    ensures saved.room == if outcome.Submitted? && strategy.Some? then old(saved.room) - 1 else old(saved.room)
    ensures saved.Strategies() == old(saved.Strategies())
              + if outcome.Submitted? && strategy.Some? then [StoredStrategy(f.reply, strategy.value)] else []
  {
    if answer.Taken? || answer.prepared { SavePending(store, f, now); }
    if answer.Refused? {
      HandleFailure(store, SourceOfFragment(f), answer.stale, now);
      return Broken(false, answer.stale);
    }
    AcceptFragment(store, f, now);
    var ok := saved.Append(f.reply, strategy);
    return if ok then Submitted(f.reply) else Broken(true, false);
  }

  // ----- All fragments, and the compensation -----

  function Sources(fragments: seq<Fragment>, from: nat, to: nat): set<Hex>
    requires from <= to <= |fragments|
  {
    set i | from <= i < to :: SourceOfFragment(fragments[i])
  }

  lemma StillFresh(f: Fragment, g: Fragment, notes: seq<Note>, next: seq<Note>, intents: map<string, Ties>, ties: Ties)
    requires HasAvailable(notes, SourceOfFragment(f)) && Adds(notes, next, f.changeCommitment) && Fresh(g, notes, intents)
    requires f.changeCommitment != g.changeCommitment && Lower(f.reply) != Lower(g.reply)
    requires ties.source == SourceOfFragment(f) && (ties.change.None? || ties.change == Some(f.changeCommitment))
    ensures Fresh(g, next, intents[Lower(f.reply) := ties])
  {
    var s :| 0 <= s < |notes| && notes[s].commitment == SourceOfFragment(f);
  }

  lemma StillReady(fragments: seq<Fragment>, k: nat, notes: seq<Note>, intents: map<string, Ties>, now: int)
    requires DistinctCommitments(notes) && k < |fragments| && Ready(fragments, k, notes, intents)
    ensures Ready(fragments, k + 1, AfterFragment(notes, fragments[k], now),
                  intents[Lower(fragments[k].reply) := TiesOf(fragments[k], now)])
  {
    var f := fragments[k];
    assert Fresh(f, notes, intents) && HasAvailable(notes, SourceOfFragment(f));
    var next := AfterFragment(notes, f, now);
    assert Carried(notes, next, SourceOfFragment(f)) by { FragmentEffect(notes, intents, f, now, {}); }
    FragmentAdds(notes, intents, f, now);
    forall j | k + 1 <= j < |fragments|
      ensures Fresh(fragments[j], next, intents[Lower(f.reply) := TiesOf(f, now)])
      ensures HasAvailable(next, SourceOfFragment(fragments[j]))
    {
      assert Fresh(fragments[j], notes, intents) && HasAvailable(notes, SourceOfFragment(fragments[j]));
      StillFresh(f, fragments[j], notes, next, intents, TiesOf(f, now));
    }
  }

  ghost predicate HeldUpTo(fragments: seq<Fragment>, n: nat, notes: seq<Note>, intents: map<string, Ties>, hidden: set<Hex>)
    requires n <= |fragments|
  {
    forall j | 0 <= j < n :: Held(fragments[j], notes, intents, hidden)
  }

  /** An accepted fragment joins the ones that are held. */
  lemma FragmentStep(fragments: seq<Fragment>, k: nat, notes: seq<Note>, intents: map<string, Ties>, now: int)
    requires DistinctCommitments(notes) && k < |fragments|
    requires Fresh(fragments[k], notes, intents) && HasAvailable(notes, SourceOfFragment(fragments[k]))
    requires HeldUpTo(fragments, k, notes, intents, Sources(fragments, 0, k))
    ensures var next, tied := AfterFragment(notes, fragments[k], now), intents[Lower(fragments[k].reply) := TiesOf(fragments[k], now)];
      && Listed(next, Sources(fragments, 0, k + 1)) == Listed(notes, Sources(fragments, 0, k))
      && HeldUpTo(fragments, k + 1, next, tied, Sources(fragments, 0, k + 1))
  {
    var f, hidden := fragments[k], Sources(fragments, 0, k);
    assert Sources(fragments, 0, k + 1) == hidden + {SourceOfFragment(f)};
    FragmentEffect(notes, intents, f, now, hidden);
    forall j | 0 <= j < k + 1
      ensures Held(fragments[j], AfterFragment(notes, f, now), intents[Lower(f.reply) := TiesOf(f, now)], hidden + {SourceOfFragment(f)})
    {
      if j < k {
        assert Held(fragments[j], notes, intents, hidden);
        HeldStays(f, fragments[j], notes, intents, hidden, now);
      }
    }
  }

  lemma HeldStays(f: Fragment, g: Fragment, notes: seq<Note>, intents: map<string, Ties>, hidden: set<Hex>, now: int)
    requires Held(g, notes, intents, hidden) && Fresh(f, notes, intents)
    requires Carried(notes, AfterFragment(notes, f, now), SourceOfFragment(f))
    ensures Held(g, AfterFragment(notes, f, now), intents[Lower(f.reply) := TiesOf(f, now)], hidden + {SourceOfFragment(f)})
  {
  }

  /** A fragment that only got as far as its pending change note left the held ones alone. */
  lemma PreparedStep(fragments: seq<Fragment>, k: nat, notes: seq<Note>, intents: map<string, Ties>, now: int)
    requires DistinctCommitments(notes) && k < |fragments| && Fresh(fragments[k], notes, intents)
    requires HeldUpTo(fragments, k, notes, intents, Sources(fragments, 0, k))
    ensures var next := Prepared(notes, fragments[k], now);
      && Listed(next, Sources(fragments, 0, k)) == Listed(notes, Sources(fragments, 0, k))
      && HeldUpTo(fragments, k, next, intents, Sources(fragments, 0, k))
  {
    PreparedEffect(notes, intents, fragments[k], now, Sources(fragments, 0, k));
  }

  // ----- Cancelling -----

  ghost predicate Apart(f: Fragment, g: Fragment) {
    SourceOfFragment(f) != SourceOfFragment(g) && Lower(f.reply) != Lower(g.reply)
  }

  ghost predicate AllApart(fragments: seq<Fragment>, n: nat)
    requires n <= |fragments|
  {
    forall i, j | 0 <= i < j < n :: Apart(fragments[i], fragments[j])
  }

  ghost predicate ApartFrom(g: Fragment, fragments: seq<Fragment>, n: nat)
    requires n <= |fragments|
  {
    forall j | 0 <= j < n :: Apart(g, fragments[j])
  }

  lemma CancelledOthers(f: Fragment, g: Fragment, notes: seq<Note>, intents: map<string, Ties>, hidden: set<Hex>, now: int)
    requires Held(g, notes, intents, hidden) && Apart(g, f)
    ensures Held(g, Reconciled([CancelOrder(f.reply)], notes, now), intents, hidden - {SourceOfFragment(f)})
  {
    CancelKeepsOthers(notes, f.reply, now, SourceOfFragment(g), Lower(g.reply));
  }

  /** Cancelling the last held fragment releases its source and keeps the others held. */
  method CancelLast(store: Store, fragments: seq<Fragment>, k: nat, now: int, ghost hidden: set<Hex>)
    requires store.Valid() && k < |fragments| && AllApart(fragments, k + 1)
    requires HeldUpTo(fragments, k + 1, store.notes, store.intents, hidden)
    modifies store`notes
    ensures store.Valid()
    ensures Listed(store.notes, hidden - {SourceOfFragment(fragments[k])}) == Listed(old(store.notes), hidden)
    ensures HeldUpTo(fragments, k, store.notes, store.intents, hidden - {SourceOfFragment(fragments[k])})
    ensures forall g | Held(g, old(store.notes), store.intents, hidden) && Apart(g, fragments[k]) ::
      Held(g, store.notes, store.intents, hidden - {SourceOfFragment(fragments[k])})
  {
    ghost var f, notes := fragments[k], store.notes;
    assert Held(f, notes, store.intents, hidden);
    ListedCancelled(notes, store.intents, f.reply, now, hidden);
    forall g | Held(g, notes, store.intents, hidden) && Apart(g, f)
      ensures Held(g, Reconciled([CancelOrder(f.reply)], notes, now), store.intents, hidden - {SourceOfFragment(f)})
    {
      CancelledOthers(f, g, notes, store.intents, hidden, now);
    }
    assert forall j | 0 <= j < k :: Apart(fragments[j], f);
    var written := store.Reconcile([CancelOrder(fragments[k].reply)], now);
  }

  /** `cancelSubmittedIntentFragments` of the first n fragments, last first; a refused cancellation is reported. */
  method CancelFragments(store: Store, fragments: seq<Fragment>, n: nat, now: int, ghost hidden: set<Hex>)
    returns (uncancelled: seq<Fragment>, ghost stillHidden: set<Hex>)
    requires store.Valid() && n <= |fragments| && AllApart(fragments, n)
    requires HeldUpTo(fragments, n, store.notes, store.intents, hidden)
    modifies store`notes
    ensures store.Valid() && Listed(store.notes, stillHidden) == Listed(old(store.notes), hidden)
    ensures uncancelled == [] ==> stillHidden == hidden - Sources(fragments, 0, n)
    ensures forall g | Held(g, old(store.notes), store.intents, hidden) && ApartFrom(g, fragments, n) ::
      Held(g, store.notes, store.intents, stillHidden)
  {
    uncancelled, stillHidden := [], hidden;
    var i := n;
    while i > 0
      invariant 0 <= i <= n && store.Valid()
      invariant Listed(store.notes, stillHidden) == Listed(old(store.notes), hidden)
      invariant HeldUpTo(fragments, i, store.notes, store.intents, stillHidden)
      invariant uncancelled == [] ==> stillHidden == hidden - Sources(fragments, i, n)
      invariant forall g | Held(g, old(store.notes), store.intents, hidden) && ApartFrom(g, fragments, n) ::
        Held(g, store.notes, store.intents, stillHidden)
    {
      i := i - 1;
      var refused: bool := *;
      if refused {
        uncancelled := uncancelled + [fragments[i]];
      } else {
        assert Sources(fragments, i, n) == Sources(fragments, i + 1, n) + {SourceOfFragment(fragments[i])};
        CancelLast(store, fragments, i, now, stillHidden);
        stillHidden := stillHidden - {SourceOfFragment(fragments[i])};
      }
    }
  }

  // ----- The saga -----

  predicate Stale(failure: Option<Outcome>) {
    failure.Some? && failure.value.Broken? && failure.value.stale
  }

  predicate FailedLocked(failure: Option<Outcome>) {
    failure.Some? && failure.value.Broken? && failure.value.locked
  }

  /** How many fragments locked their source: the accepted ones, and one that failed after its lock. */
  function LockedCount(count: nat, failure: Option<Outcome>): nat {
    if FailedLocked(failure) then count + 1 else count
  }

  /** Marking another note spent leaves a held fragment held. */
  lemma StaleStep(fragments: seq<Fragment>, k: nat, notes: seq<Note>, intents: map<string, Ties>, hidden: set<Hex>,
                  source: Hex, now: int)
    requires k <= |fragments| && HeldUpTo(fragments, k, notes, intents, hidden)
    requires forall j | 0 <= j < k :: SourceOfFragment(fragments[j]) != source
    ensures HeldUpTo(fragments, k, MarkedSpent(notes, source, now), intents, hidden)
  {
    forall j | 0 <= j < k ensures Held(fragments[j], MarkedSpent(notes, source, now), intents, hidden) {
      var g := fragments[j];
      assert Held(g, notes, intents, hidden);
      var i :| 0 <= i < |notes| && notes[i].commitment == SourceOfFragment(g) && notes[i].status == Locked
               && KeyOf(notes[i]) == Some(Lower(g.reply));
      assert MarkedSpent(notes, source, now)[i] == notes[i];
    }
  }

  /** What a failed submission left: the accepted fragments held, and one more if it had locked its source. */
  ghost predicate LeftBehind(fragments: seq<Fragment>, count: nat, failure: Option<Outcome>, notes: seq<Note>,
                             intents: map<string, Ties>, listed: seq<(Hex, int)>)
  {
    var n := LockedCount(count, failure);
    && n <= |fragments| && HeldUpTo(fragments, n, notes, intents, Sources(fragments, 0, n))
    && (!Stale(failure) ==> Listed(notes, Sources(fragments, 0, n)) == listed)
  }

  /** Between two fragments: the first k accepted and held, the others still to be submitted. */
  ghost predicate Underway(fragments: seq<Fragment>, k: nat, notes: seq<Note>, intents: map<string, Ties>,
                           listed: seq<(Hex, int)>)
  {
    Ready(fragments, k, notes, intents) && LeftBehind(fragments, k, None, notes, intents, listed)
  }

  /** One more fragment, whatever its outcome. */
  method SubmitNext(store: Store, saved: StrategyStore, fragments: seq<Fragment>, k: nat, strategy: Option<Strategy>,
                    answer: Answer, now: int, ghost listed: seq<(Hex, int)>) returns (outcome: Outcome)
    requires store.Valid() && k < |fragments| && AllApart(fragments, |fragments|)
    requires Underway(fragments, k, store.notes, store.intents, listed)
    modifies store, saved
    ensures store.Valid() && (outcome.Submitted? ==> Underway(fragments, k + 1, store.notes, store.intents, listed))
    ensures outcome.Broken? ==> LeftBehind(fragments, k, Some(outcome), store.notes, store.intents, listed)
    ensures outcome == OutcomeOf(fragments[k], answer, Storable(strategy, old(saved.Readable()), old(saved.room)))
    ensures saved.Readable() == old(saved.Readable())
    ensures saved.room == if outcome.Submitted? && strategy.Some? then old(saved.room) - 1 else old(saved.room)
  {
    ghost var notes, intents := store.notes, store.intents;
    AcceptedLeaves(fragments, k, notes, intents, listed, now);
    BrokenLeaves(fragments, k, notes, intents, listed, now);
    outcome := SubmitFragment(store, saved, fragments[k], strategy, answer, now);
  }

  /** The same, in step with where the answers stop the order. */
  method SubmitStep(store: Store, saved: StrategyStore, fragments: seq<Fragment>, k: nat, strategy: Option<Strategy>,
                    answers: seq<Answer>, now: int, ghost listed: seq<(Hex, int)>) returns (outcome: Outcome)
    requires store.Valid() && k < |fragments| == |answers| && AllApart(fragments, |fragments|)
    requires Underway(fragments, k, store.notes, store.intents, listed)
    modifies store, saved
    ensures store.Valid() && (outcome.Submitted? ==> Underway(fragments, k + 1, store.notes, store.intents, listed))
    ensures outcome.Broken? ==> LeftBehind(fragments, k, Some(outcome), store.notes, store.intents, listed)
    ensures saved.Readable() == old(saved.Readable())
    ensures var stop := FirstStop(answers, strategy, old(saved.Readable()), old(saved.room), k);
      if outcome.Broken? then stop == Some(Stop(k, outcome.locked, outcome.stale))
      else stop == FirstStop(answers, strategy, saved.Readable(), saved.room, k + 1)
  {
    outcome := SubmitNext(store, saved, fragments, k, strategy, answers[k], now, listed);
  }

  /** The invariant of the loop after one more fragment was accepted, or failed after its lock. */
  lemma AcceptedLeaves(fragments: seq<Fragment>, k: nat, notes: seq<Note>, intents: map<string, Ties>,
                       listed: seq<(Hex, int)>, now: int)
    requires DistinctCommitments(notes) && k < |fragments| && Ready(fragments, k, notes, intents)
    requires LeftBehind(fragments, k, None, notes, intents, listed)
    ensures Fresh(fragments[k], notes, intents) && HasAvailable(notes, SourceOfFragment(fragments[k]))
    ensures var next := AfterFragment(notes, fragments[k], now);
      var tied := intents[Lower(fragments[k].reply) := TiesOf(fragments[k], now)];
      && Ready(fragments, k + 1, next, tied)
      && LeftBehind(fragments, k + 1, None, next, tied, listed)
      && LeftBehind(fragments, k, Some(Broken(true, false)), next, tied, listed)
  {
    var f := fragments[k];
    FragmentStep(fragments, k, notes, intents, now);
    StillReady(fragments, k, notes, intents, now);
    HeldIsLeft(fragments, k, AfterFragment(notes, f, now), intents[Lower(f.reply) := TiesOf(f, now)], listed);
  }

  lemma HeldIsLeft(fragments: seq<Fragment>, k: nat, notes: seq<Note>, intents: map<string, Ties>, listed: seq<(Hex, int)>)
    requires k < |fragments| && HeldUpTo(fragments, k + 1, notes, intents, Sources(fragments, 0, k + 1))
    requires Listed(notes, Sources(fragments, 0, k + 1)) == listed
    ensures LeftBehind(fragments, k + 1, None, notes, intents, listed)
    ensures LeftBehind(fragments, k, Some(Broken(true, false)), notes, intents, listed)
  {
  }

  /** And after one that failed before its lock. */
  lemma BrokenLeaves(fragments: seq<Fragment>, k: nat, notes: seq<Note>, intents: map<string, Ties>,
                     listed: seq<(Hex, int)>, now: int)
    requires DistinctCommitments(notes) && k < |fragments| && Ready(fragments, k, notes, intents)
    requires AllApart(fragments, |fragments|) && LeftBehind(fragments, k, None, notes, intents, listed)
    ensures LeftBehind(fragments, k, Some(Broken(false, false)), notes, intents, listed)
    ensures LeftBehind(fragments, k, Some(Broken(false, false)), Prepared(notes, fragments[k], now), intents, listed)
    ensures var source := SourceOfFragment(fragments[k]);
      && LeftBehind(fragments, k, Some(Broken(false, true)), MarkedSpent(notes, source, now), intents, listed)
      && LeftBehind(fragments, k, Some(Broken(false, true)),
                    MarkedSpent(Prepared(notes, fragments[k], now), source, now), intents, listed)
  {
    var f, hidden := fragments[k], Sources(fragments, 0, k);
    PreparedStep(fragments, k, notes, intents, now);
    assert forall j | 0 <= j < k :: Apart(fragments[j], f);
    StaleStep(fragments, k, notes, intents, hidden, SourceOfFragment(f), now);
    StaleStep(fragments, k, Prepared(notes, f, now), intents, hidden, SourceOfFragment(f), now);
  }

  /** What stopped the fragments, as an outcome. */
  function FailureOf(stop: Option<Stop>): Option<Outcome> {
    if stop.None? then None else Some(Broken(stop.value.locked, stop.value.stale))
  }

  /** The loop over the fragments: how many were accepted, and what stopped it. */
  method SubmitFragments(store: Store, saved: StrategyStore, fragments: seq<Fragment>, strategy: Option<Strategy>,
                         answers: seq<Answer>, now: int) returns (count: nat, failure: Option<Outcome>)
    requires store.Valid() && AllApart(fragments, |fragments|) && Ready(fragments, 0, store.notes, store.intents)
    requires |answers| == |fragments|
    modifies store, saved
    ensures store.Valid() && count <= |fragments|
    ensures var stop := FirstStop(answers, strategy, old(saved.Readable()), old(saved.room), 0);
      failure == FailureOf(stop) && count == if stop.None? then |fragments| else stop.value.index
    ensures LeftBehind(fragments, count, failure, store.notes, store.intents, AvailableNotes(old(store.notes)))
  {
    count, failure := 0, None;
    ghost var listed, readable := AvailableNotes(store.notes), saved.Readable();
    ghost var stop := FirstStop(answers, strategy, readable, saved.room, 0);
    NothingSubmitted(fragments, store.notes, store.intents);
    while count < |fragments|
      invariant count <= |fragments| && store.Valid() && Underway(fragments, count, store.notes, store.intents, listed)
      invariant saved.Readable() == readable && stop == FirstStop(answers, strategy, readable, saved.room, count)
    {
      var outcome := SubmitStep(store, saved, fragments, count, strategy, answers, now, listed);
      if outcome.Broken? {
        failure := Some(outcome);
        return;
      }
      count := count + 1;
    }
  }

  lemma NothingSubmitted(fragments: seq<Fragment>, notes: seq<Note>, intents: map<string, Ties>)
    requires Ready(fragments, 0, notes, intents)
    ensures Underway(fragments, 0, notes, intents, AvailableNotes(notes))
  {
    assert Sources(fragments, 0, 0) == {};
  }

  /** The result of an order: its fragments, or what stopped it and which of them could not be cancelled. */
  datatype OrderResult = Placed | Stopped(failure: Outcome, uncancelled: seq<Fragment>) | NoOrders

  ghost predicate AllPositive(notes: seq<Note>) {
    forall i | 0 <= i < |notes| :: notes[i].amount > 0
  }

  /** The available notes, and with positive amounts the balance, are back exactly under the condition. */
  ghost predicate RestoredExactly(before: seq<Note>, after: seq<Note>, condition: bool) {
    && (AvailableNotes(after) == AvailableNotes(before) <==> condition)
    && (condition ==> Spendable(after, |after|) == Spendable(before, |before|))
    && (!condition && AllPositive(after) ==> Spendable(after, |after|) < Spendable(before, |before|))
  }

  /**
   The fragment loop and the compensation of `submitCustodySharedTradeIntent`.  When every
   cancellation succeeds after an error that is not about a stale note, the spendable notes are
   back exactly if no fragment was stopped at its strategy, after its source was locked.
   When that cannot happen is in ConditionalStrategies.NeverLockedExactly.
   */
  method SubmitOrder(store: Store, saved: StrategyStore, fragments: seq<Fragment>, strategy: Option<Strategy>,
                     answers: seq<Answer>, now: int) returns (result: OrderResult)
    requires store.Valid() && AllApart(fragments, |fragments|) && Ready(fragments, 0, store.notes, store.intents)
    requires |answers| == |fragments|
    modifies store, saved
    ensures store.Valid() && (result.NoOrders? <==> fragments == [])
    ensures var stop := FirstStop(answers, strategy, old(saved.Readable()), old(saved.room), 0);
      && (result.Stopped? <==> stop.Some?)
      && (result.Stopped? ==> Some(result.failure) == FailureOf(stop))
    ensures result.Placed? ==>
      Listed(store.notes, Sources(fragments, 0, |fragments|)) == AvailableNotes(old(store.notes))
    ensures result.Stopped? && !result.failure.stale && result.uncancelled == [] ==>
      RestoredExactly(old(store.notes), store.notes,
                      !StopsLocked(answers, strategy, old(saved.Readable()), old(saved.room), 0))
    ensures result.Stopped? && !result.failure.stale && result.uncancelled == [] &&
            AllStorable(|fragments|, strategy, old(saved.Readable()), old(saved.room)) ==>
      RestoredExactly(old(store.notes), store.notes, true)
  {
    ghost var before := store.notes;
    NeverLockedExactly(|fragments|, strategy, saved.Readable(), saved.room);
    var count, failure := SubmitFragments(store, saved, fragments, strategy, answers, now);
    if fragments == [] { return NoOrders; }
    if failure.None? { return Placed; }
    var uncancelled := Compensate(store, fragments, count, failure.value, now, AvailableNotes(before));
    ListedIsSpendable(store.notes);
    ListedIsSpendable(before);
    return Stopped(failure.value, uncancelled);
  }

  /** The handler of a stopped submission: cancel what was accepted. */
  method Compensate(store: Store, fragments: seq<Fragment>, count: nat, failure: Outcome, now: int,
                    ghost listed: seq<(Hex, int)>) returns (uncancelled: seq<Fragment>)
    requires store.Valid() && count < |fragments| && AllApart(fragments, |fragments|) && failure.Broken?
    requires LeftBehind(fragments, count, Some(failure), store.notes, store.intents, listed)
    modifies store`notes
    ensures store.Valid()
    ensures !failure.stale && uncancelled == [] ==> (AvailableNotes(store.notes) == listed <==> !failure.locked)
    ensures !failure.stale && uncancelled == [] && failure.locked && AllPositive(store.notes) ==>
      Worth(AvailableNotes(store.notes)) < Worth(listed)
  {
    var n := LockedCount(count, Some(failure));
    ghost var hidden, f := Sources(fragments, 0, n), fragments[count];
    ghost var stillHidden;
    assert failure.locked ==> Held(f, store.notes, store.intents, hidden);
    assert forall j | 0 <= j < count :: Apart(fragments[j], f);
    uncancelled, stillHidden := CancelFragments(store, fragments, count, now, hidden);
    if failure.locked {
      assert Held(f, store.notes, store.intents, stillHidden);
      HiddenIsMissing(store.notes, stillHidden);
      if AllPositive(store.notes) { HiddenIsWorth(store.notes, stillHidden); }
    } else if uncancelled == [] {
      assert stillHidden == {};
    }
  }

  lemma ListedIsSpendable(notes: seq<Note>)
    ensures Spendable(notes, |notes|) == Worth(AvailableNotes(notes))
  {
    SpendableIsWorth(notes, |notes|);
    assert notes[..|notes|] == notes;
  }

  // ----- An order that stays stopped -----

  /**
   One available note spent in full, and a stored list that does not parse: the first
   fragment is taken, stops at its strategy, and leaves nothing spendable.  There is no
   accepted fragment to cancel, so the compensation changes nothing.
   */
  lemma GarbledListLocks(n: Note, strategy: Strategy, reply: Hex, room: nat, now: int)
    requires n.status == Available
    ensures var f := Fragment(Part(n.amount, n), "", "", reply);
      && FirstStop([Taken], Some(strategy), false, room, 0) == Some(Stop(0, true, false))
      && AvailableNotes([n]) == [(n.commitment, n.amount)]
      && AvailableNotes(AfterFragment([n], f, now)) == []
  {
    var f := Fragment(Part(n.amount, n), "", "", reply);
    var notes, answers := [n], [Taken];
    assert notes[0] == n && notes[1..] == [] && answers[0] == Taken;
    assert Prepared(notes, f, now) == notes;
    var after := AfterFragment(notes, f, now);
    assert after == LockedTo(notes, n.commitment, reply, now);
    assert after[0].status == Locked && after[1..] == [];
    assert AvailableNotes(after) == Entry(after[0], {}) + AvailableNotes(after[1..]);
    assert AvailableNotes(notes) == Entry(notes[0], {}) + AvailableNotes(notes[1..]);
  }
}
