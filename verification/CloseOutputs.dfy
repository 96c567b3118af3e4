/**
 What becomes of the output note of a closed maker position: one action a pass, each pass
 taken by `reconcileOneMakerPosition` (scripts/operations/reconcile-maker-position.ts), with
 the recovery of `withdrawMakerNotes` (scripts/operations/withdraw-maker-notes.ts).

 A pass that is not prompt may die at any await, read errors, and see withdrawals that were
 posted earlier execute late.  In a prompt pass every service answers in time and the
 settlement of a recovered output goes through.
 */
module CloseOutputs {
  import opened Common
  import opened VaultBacking

  /** A closed position of the maker with its output note. */
  datatype Candidate = Candidate(position: nat, isOpen: bool, draining: bool, closeTx: Option<nat>, output: nat)

  datatype Outcome = Changed | Idle | Thrown

  /** What the candidate selection guarantees about the output of a closed position. */
  predicate ReadyFor(notes: map<nat, MakerNote>, k: Candidate) {
    !k.isOpen ==>
      && k.output in notes && notes[k.output].closePosition == Some(k.position) && notes[k.output].parent.Some?
      && notes[k.output].settlementTxHash.None?
  }

  /** The note is taken up only by a later pass, or by the drain of its allocation. */
  predicate Skipped(notes: map<nat, MakerNote>, k: Candidate) {
    k.isOpen || (k.output in notes && k.draining && notes[k.output].status != NotePending)
  }

  /** The first candidate that a pass does not skip. */
  function Head(notes: map<nat, MakerNote>, candidates: seq<Candidate>): (head: Option<nat>)
    ensures head.None? ==> forall i | 0 <= i < |candidates| :: Skipped(notes, candidates[i])
    ensures head.Some? ==> head.value < |candidates| && !Skipped(notes, candidates[head.value])
    ensures head.Some? ==> forall i | 0 <= i < head.value :: Skipped(notes, candidates[i])
  {
    if candidates == [] then None
    else if !Skipped(notes, candidates[0]) then Some(0)
    else
      var later := Head(notes, candidates[1..]);
      if later.None? then None else Some(later.value + 1)
  }

  /** Prompt passes until the output is settled. */
  function PassesLeft(n: MakerNote): nat {
    if n.settlementTxHash.Some? then 0
    else match n.status
      case NotePending => 3
      case NoteDraining => 2
      case NoteWithdrawing => 2
      case _ => 1
  }

  /** No pass can help: the wrong close, nothing to recover, or a recovery that was paid but not recorded. */
  predicate Stuck(k: Candidate, n: MakerNote, isSpent: bool) {
    || k.closeTx.None? || (n.closeTxHash.Some? && n.closeTxHash != k.closeTx)
    || (n.status in {NoteDraining, NoteWithdrawing} && n.amount <= 0)
    || (n.status == NoteWithdrawing && isSpent)
  }

  /** One close output and the pool: what is recorded as recovered was paid. */
  predicate OutputOk(n: MakerNote, isSpent: bool, isPosted: bool) {
    && n.status in {NotePending, NoteDraining, NoteWithdrawing, NoteSpent}
    && (n.status == NotePending <==> n.closeTxHash.None?)
    && (isSpent ==> isPosted) && (isPosted ==> n.status in {NoteWithdrawing, NoteSpent})
    && (n.recoveredAmount.Some? <==> n.status == NoteSpent)
    && (n.recoveredAmount.Some? ==> isSpent && n.recoveredAmount.value == n.amount > 0)
    && (n.settlementTxHash.Some? ==> n.recoveredAmount.Some?)
  }

  predicate OutputsOk(notes: map<nat, MakerNote>, spent: set<nat>, posted: set<nat>) {
    && posted <= notes.Keys
    && forall c | c in notes :: notes[c].closePosition.Some? ==> OutputOk(notes[c], c in spent, c in posted)
  }

  /** The pool paid each spent output once. */
  ghost predicate PaidOnce(paid: seq<nat>, spent: set<nat>) {
    && (forall i, j | 0 <= i < j < |paid| :: paid[i] != paid[j])
    && (forall c :: c in spent <==> c in paid)
  }

  lemma PayOnce(paid: seq<nat>, spent: set<nat>, c: nat)
    requires PaidOnce(paid, spent) && c !in spent
    ensures PaidOnce(paid + [c], spent + {c})
  {
    forall d ensures d in spent + {c} <==> d in paid + [c] {
      if d in paid { assert d in paid + [c]; }
      assert (paid + [c])[|paid|] == c;
    }
  }

  /** Only what the recovery writes differs. */
  predicate SameNote(n: MakerNote, m: MakerNote) {
    m == n.(status := m.status, closeTxHash := m.closeTxHash, recoveredAmount := m.recoveredAmount,
            settlementTxHash := m.settlementTxHash)
  }

  /** What is recorded as recovered is the whole note, and the pool paid it exactly once. */
  lemma RecoveredWasPaidOnce(notes: map<nat, MakerNote>, spent: set<nat>, posted: set<nat>, paid: seq<nat>, c: nat)
    requires OutputsOk(notes, spent, posted) && PaidOnce(paid, spent)
    requires c in notes && notes[c].closePosition.Some? && notes[c].recoveredAmount.Some?
    ensures notes[c].recoveredAmount.value == notes[c].amount
    ensures exists i :: 0 <= i < |paid| && paid[i] == c && forall j | 0 <= j < |paid| && j != i :: paid[j] != c
  {
    var i :| 0 <= i < |paid| && paid[i] == c;
    forall j | 0 <= j < |paid| && j != i ensures paid[j] != c {
      if j < i { assert paid[j] != paid[i]; } else { assert paid[i] != paid[j]; }
    }
  }

  /** Nothing changed but one note, which came no further from its settlement. */
  ghost predicate OnlyAdvances(before: map<nat, MakerNote>, after: map<nat, MakerNote>, c: nat) {
    && after.Keys == before.Keys && (forall d | d in before && d != c :: after[d] == before[d])
    && (c in before ==> PassesLeft(after[c]) <= PassesLeft(before[c]))
    && (c in before ==> SameNote(before[c], after[c]))
  }

  /** What a pass makes of the candidate it takes up. */
  ghost predicate ActedOn(before: map<nat, MakerNote>, after: map<nat, MakerNote>, wasSpent: set<nat>, 
                          isSpent: set<nat>, k: Candidate, outcome: Outcome, prompt: bool)
  {
    && k.output in before && OnlyAdvances(before, after, k.output) && outcome != Idle
    && (outcome == Changed ==> PassesLeft(after[k.output]) < PassesLeft(before[k.output]))
    && (outcome == Changed ==> !Stuck(k, before[k.output], k.output in wasSpent))
    && (prompt && !Stuck(k, before[k.output], k.output in wasSpent) ==> outcome == Changed)
    && (Stuck(k, before[k.output], k.output in wasSpent) ==>
          Stuck(k, after[k.output], k.output in isSpent) && StaysPut(before[k.output], after[k.output]))
  }

  predicate StaysPut(n: MakerNote, m: MakerNote) {
    m.settlementTxHash == n.settlementTxHash && (m.status == NotePending <==> n.status == NotePending)
  }

  ghost predicate Apart(candidates: seq<Candidate>) {
    forall i, j | 0 <= i < j < |candidates| && !candidates[i].isOpen && !candidates[j].isOpen ::
      candidates[i].output != candidates[j].output
  }

  /** What a pass may do to one output keeps the others ready, skipped or not. */
  lemma ReadyStays(candidates: seq<Candidate>, before: map<nat, MakerNote>, after: map<nat, MakerNote>, h: nat, i: nat)
    requires h < |candidates| && i < |candidates| && Apart(candidates) && !candidates[h].isOpen
    requires candidates[h].output in before && OnlyAdvances(before, after, candidates[h].output)
    requires StaysPut(before[candidates[h].output], after[candidates[h].output])
    requires ReadyFor(before, candidates[i])
    ensures ReadyFor(after, candidates[i]) && (Skipped(after, candidates[i]) <==> Skipped(before, candidates[i]))
  {
  }

  lemma {:induction false} HeadStays(candidates: seq<Candidate>, before: map<nat, MakerNote>, after: map<nat, MakerNote>)
    requires forall i | 0 <= i < |candidates| :: Skipped(after, candidates[i]) <==> Skipped(before, candidates[i])
    ensures Head(after, candidates) == Head(before, candidates)
  {
    if candidates != [] && Skipped(before, candidates[0]) {
      var rest := candidates[1..];
      assert forall i | 0 <= i < |rest| :: rest[i] == candidates[i + 1];
      HeadStays(rest, before, after);
    }
  }

  predicate Settled(notes: map<nat, MakerNote>, k: Candidate) {
    !k.isOpen && k.output in notes && notes[k.output].settlementTxHash.Some?
  }

  /** Every closed position has its output note. */
  ghost predicate Outputs(universe: seq<Candidate>, notes: map<nat, MakerNote>) {
    forall i | 0 <= i < |universe| && !universe[i].isOpen ::
      var k := universe[i];
      k.output in notes && notes[k.output].closePosition == Some(k.position) && notes[k.output].parent.Some?
  }

  /** The candidates of a pass: what is not settled yet. */
  function Unsettled(universe: seq<Candidate>, notes: map<nat, MakerNote>): (ready: seq<Candidate>)
    ensures forall i | 0 <= i < |ready| :: ready[i] in universe && !Settled(notes, ready[i])
    ensures forall i | 0 <= i < |universe| :: Settled(notes, universe[i]) || universe[i] in ready
  {
    if universe == [] then []
    else (if Settled(notes, universe[0]) then [] else [universe[0]]) + Unsettled(universe[1..], notes)
  }

  function LeftOf(notes: map<nat, MakerNote>, k: Candidate): nat {
    if k.isOpen || k.output !in notes then 0 else PassesLeft(notes[k.output])
  }

  function TotalLeft(universe: seq<Candidate>, notes: map<nat, MakerNote>): nat {
    if universe == [] then 0 else LeftOf(notes, universe[0]) + TotalLeft(universe[1..], notes)
  }

  lemma {:induction false} LeftBound(universe: seq<Candidate>, notes: map<nat, MakerNote>)
    ensures TotalLeft(universe, notes) <= 3 * |universe|
  {
    if universe != [] { LeftBound(universe[1..], notes); }
  }

  /** Advancing one output leaves fewer passes if it belongs to a candidate. */
  lemma {:induction false} LeftFalls(universe: seq<Candidate>, before: map<nat, MakerNote>, after: map<nat, MakerNote>, c: nat)
    requires OnlyAdvances(before, after, c)
    ensures TotalLeft(universe, after) <= TotalLeft(universe, before)
    ensures c in before && PassesLeft(after[c]) < PassesLeft(before[c]) ==>
      (exists i :: 0 <= i < |universe| && !universe[i].isOpen && universe[i].output == c) ==>
        TotalLeft(universe, after) < TotalLeft(universe, before)
  {
    if universe != [] {
      LeftFalls(universe[1..], before, after, c);
      if i :| 0 <= i < |universe| && !universe[i].isOpen && universe[i].output == c {
        if i > 0 { assert universe[1..][i - 1] == universe[i]; }
      }
    }
  }

  class Recovery {
    var notes: map<nat, MakerNote>
    var spent: set<nat>
    // Withdrawals on their way to the pool; no step reads them.
    var posted: set<nat>
    ghost var paid: seq<nat>

    ghost predicate Valid()
      reads this
    {
      OutputsOk(notes, spent, posted) && PaidOnce(paid, spent)
    }

    /** The pool runs a withdrawal; the nullifier lets each note through once. */
    method ExecuteWithdrawal(c: nat)
      requires Valid() && c in posted
      modifies this`spent, this`paid
      ensures Valid() && spent == old(spent) + {c}
    {
      if c !in spent {
        PayOnce(paid, spent, c);
        spent, paid := spent + {c}, paid + [c];
      } else {
        assert spent + {c} == spent;
      }
    }

    /** One await. */
    method Await(prompt: bool) returns (alive: bool)
      requires Valid()
      modifies this`spent, this`paid
      ensures Valid() && old(spent) <= spent
      ensures prompt ==> alive && spent == old(spent)
    {
      if prompt { return true; }
      var late: nat := *;
      if late in posted { ExecuteWithdrawal(late); }
      alive := *;
    }

    /** Rewriting the output note of one candidate. */
    method Update(c: nat, n: MakerNote)
      requires Valid() && c in notes && notes[c].closePosition.Some? && OutputOk(n, c in spent, c in posted)
      requires SameNote(notes[c], n) && PassesLeft(n) <= PassesLeft(notes[c])
      modifies this`notes
      ensures Valid() && notes == old(notes)[c := n] && OnlyAdvances(old(notes), notes, c)
    {
      notes := notes[c := n];
    }

    /** `finalizePendingMakerCloseOutput`. */
    method Finalize(c: nat, tx: nat)
      requires Valid() && c in notes && notes[c].closePosition.Some? && notes[c].status == NotePending
      modifies this`notes
      ensures Valid() && OnlyAdvances(old(notes), notes, c) && PassesLeft(notes[c]) < PassesLeft(old(notes)[c])
    {
      Update(c, notes[c].(closeTxHash := Some(tx), status := NoteDraining));
    }

    /** The transfer of `withdrawMakerNotes`: whether the pool shows the note spent in the end. */
    method PostWithdrawal(c: nat, prompt: bool) returns (confirmed: bool)
      requires Valid() && c in notes && c !in spent && notes[c].status == NoteWithdrawing
      modifies this`spent, this`posted, this`paid
      ensures Valid() && old(spent) <= spent && (confirmed ==> c in spent)
      ensures prompt ==> confirmed && spent == old(spent) + {c}
    {
      posted := posted + {c};
      if prompt {
        ExecuteWithdrawal(c);
        return true;
      }
      var executed: bool := *;
      if executed { ExecuteWithdrawal(c); }
      var alive := Await(false);
      var balanced: bool := *;
      confirmed := alive && c in spent && balanced;
    }

    /** `withdrawMakerNotes` for one closed output. */
    method Withdraw(k: Candidate, prompt: bool) returns (done: bool)
      requires Valid() && ReadyFor(notes, k) && !k.isOpen && notes[k.output].status in {NoteDraining, NoteWithdrawing}
      requires notes[k.output].closeTxHash == k.closeTx
      modifies this
      ensures Valid() && OnlyAdvances(old(notes), notes, k.output) && old(spent) <= spent
      ensures Stuck(k, old(notes)[k.output], k.output in old(spent)) ==>
        Stuck(k, notes[k.output], k.output in spent) && StaysPut(old(notes)[k.output], notes[k.output])
      ensures done ==> notes[k.output].status == NoteSpent
      ensures done ==> !Stuck(k, old(notes)[k.output], k.output in old(spent))
      ensures prompt && !Stuck(k, old(notes)[k.output], k.output in old(spent)) ==> done
    {
      var c := k.output;
      var alive := Await(prompt);
      if !alive { return false; }
      if notes[c].status == NoteDraining { Update(c, notes[c].(status := NoteWithdrawing)); }
      alive := Await(prompt);
      if !alive || c in spent { return false; }
      var confirmed := PostWithdrawal(c, prompt);
      if !confirmed || notes[c].amount <= 0 { return false; }
      alive := Await(prompt);
      if !alive { return false; }
      Update(c, notes[c].(status := NoteSpent, recoveredAmount := Some(notes[c].amount)));
      return true;
    }

    /** The checks of `settleVaultMakerPosition` on the note hold whenever it is called from here. */
    method Settle(k: Candidate, prompt: bool) returns (done: bool)
      requires Valid() && ReadyFor(notes, k) && !k.isOpen && k.closeTx.Some?
      requires notes[k.output].closePosition == Some(k.position) && notes[k.output].status == NoteSpent
      requires notes[k.output].recoveredAmount.Some? && notes[k.output].recoveredAmount.value > 0
      requires notes[k.output].closeTxHash == k.closeTx
      modifies this
      ensures Valid() && OnlyAdvances(old(notes), notes, k.output) && old(spent) <= spent
      ensures done ==> PassesLeft(notes[k.output]) == 0
      ensures prompt ==> done
    {
      var alive := Await(prompt);
      var settled: bool := *;
      if !alive || !(prompt || settled) { return false; }
      var tx: nat := *;
      Update(k.output, notes[k.output].(settlementTxHash := Some(tx)));
      done := Await(prompt);
    }

    /** One action on the first candidate that is not skipped. */
    method Work(k: Candidate, prompt: bool) returns (outcome: Outcome)
      requires Valid() && ReadyFor(notes, k) && !Skipped(notes, k)
      modifies this
      ensures Valid() && old(spent) <= spent
      ensures ActedOn(old(notes), notes, old(spent), spent, k, outcome, prompt)
    {
      var n := notes[k.output];
      if k.closeTx.None? || (n.closeTxHash.Some? && n.closeTxHash != k.closeTx) { return Thrown; }
      var alive := Await(prompt);
      if !alive { return Thrown; }
      if n.status == NotePending {
        Finalize(k.output, k.closeTx.value);
        return Changed;
      }
      var done;
      if n.status == NoteDraining || n.status == NoteWithdrawing {
        done := Withdraw(k, prompt);
      } else {
        done := Settle(k, prompt);
      }
      return if done then Changed else Thrown;
    }

    /** The loop of `reconcileOneMakerPosition` over its candidates. */
    method ReconcileOne(candidates: seq<Candidate>, prompt: bool) returns (outcome: Outcome)
      requires Valid() && forall i | 0 <= i < |candidates| :: ReadyFor(notes, candidates[i])
      modifies this
      ensures Valid() && old(spent) <= spent
      ensures var head := Head(old(notes), candidates);
        if head.None? then notes == old(notes) && outcome != Changed && (prompt ==> outcome == Idle)
        else ActedOn(old(notes), notes, old(spent), spent, candidates[head.value], outcome, prompt)
    {
      ghost var head := Head(notes, candidates);
      for i := 0 to |candidates|
        invariant Valid() && notes == old(notes) && old(spent) <= spent && (prompt ==> spent == old(spent))
        invariant head.Some? ==> i <= head.value
      {
        var alive := Await(prompt);
        if !alive { return Thrown; }
        if !Skipped(notes, candidates[i]) {
          assert head == Some(i);
          outcome := Work(candidates[i], prompt);
          return;
        }
      }
      outcome := Idle;
    }

    /** Prompt passes, until one finds nothing to do or throws: at most three for each output. */
    method Serve(universe: seq<Candidate>) returns (outcome: Outcome, passes: nat)
      requires Valid() && Outputs(universe, notes)
      modifies this
      ensures Valid() && passes <= 3 * |universe| + 1 && outcome != Changed
      ensures outcome == Idle ==> forall i | 0 <= i < |universe| ::
        Settled(notes, universe[i]) || Skipped(notes, universe[i])
      ensures outcome == Thrown ==> exists k :: k in universe && !k.isOpen && k.output in notes &&
                                                Stuck(k, notes[k.output], k.output in spent)
    {
      LeftBound(universe, notes);
      passes, outcome := 0, Changed;
      while outcome == Changed
        invariant Valid() && Outputs(universe, notes)
        invariant passes + TotalLeft(universe, notes) <= 3 * |universe| + if outcome == Changed then 0 else 1
        invariant outcome == Idle ==> forall i | 0 <= i < |universe| ::
          Settled(notes, universe[i]) || Skipped(notes, universe[i])
        invariant outcome == Thrown ==> exists k :: k in universe && !k.isOpen && k.output in notes &&
                                                    Stuck(k, notes[k.output], k.output in spent)
        decreases TotalLeft(universe, notes), outcome == Changed
      {
        ghost var before := notes;
        var candidates := Unsettled(universe, notes);
        outcome := ReconcileOne(candidates, true);
        passes := passes + 1;
        ghost var head := Head(before, candidates);
        if head.Some? {
          LeftFalls(universe, before, notes, candidates[head.value].output);
        }
      }
    }

    /** A stuck output at the head stops every pass: nothing else moves however often it is tried. */
    method Retry(candidates: seq<Candidate>, prompts: seq<bool>)
      requires Valid() && forall i | 0 <= i < |candidates| :: ReadyFor(notes, candidates[i])
      requires Apart(candidates) && HeadStuck(notes, spent, candidates)
      modifies this
      ensures Valid() && HeadStuck(notes, spent, candidates)
      ensures Head(notes, candidates) == Head(old(notes), candidates)
      ensures OnlyAdvances(old(notes), notes, candidates[Head(old(notes), candidates).value].output)
    {
      for i := 0 to |prompts|
        invariant Valid() && HeadStuck(notes, spent, candidates)
        invariant forall i | 0 <= i < |candidates| :: ReadyFor(notes, candidates[i])
        invariant Head(notes, candidates) == Head(old(notes), candidates)
        invariant OnlyAdvances(old(notes), notes, candidates[Head(old(notes), candidates).value].output)
      {
        ghost var before, h := notes, Head(notes, candidates).value;
        var outcome := ReconcileOne(candidates, prompts[i]);
        forall j | 0 <= j < |candidates|
          ensures ReadyFor(notes, candidates[j]) && (Skipped(notes, candidates[j]) <==> Skipped(before, candidates[j]))
        {
          ReadyStays(candidates, before, notes, h, j);
        }
        HeadStays(candidates, before, notes);
        assert outcome == Thrown;
      }
    }
  }

  /** The candidate every pass takes up cannot be helped. */
  ghost predicate HeadStuck(notes: map<nat, MakerNote>, spent: set<nat>, candidates: seq<Candidate>) {
    var head := Head(notes, candidates);
    head.Some? && candidates[head.value].output in notes &&
    Stuck(candidates[head.value], notes[candidates[head.value].output], candidates[head.value].output in spent)
  }
}
