/** Splitting a deposit into notes (scripts/smoke/custody.ts:413-428). */
module CustodyNotes {
  import opened Common

  function Sum(s: seq<int>): int {
    if s == [] then 0 else Sum(s[..|s| - 1]) + s[|s| - 1]
  }

  /** Equal notes but the last, which carries what is left. */
  ghost predicate SplitOf(notes: seq<int>, amount: int, each: int) {
    && Sum(notes) == amount && notes != []
    && (forall i | 0 <= i < |notes| - 1 :: notes[i] == each)
    && 0 < notes[|notes| - 1] <= each
  }

  lemma {:induction false} SumOfEqual(notes: seq<int>, each: int)
    requires forall i | 0 <= i < |notes| :: notes[i] == each
    ensures Sum(notes) == |notes| * each
  {
    if notes != [] {
      SumOfEqual(notes[..|notes| - 1], each);
      assert (|notes| - 1) * each + each == |notes| * each;
    }
  }

  /** There is one such split, of as few notes of at most this size as can carry the amount. */
  lemma SplitCount(notes: seq<int>, amount: nat, each: nat)
    requires each > 0 && SplitOf(notes, amount, each)
    ensures |notes| == CeilDiv(amount, each)
    ensures notes[|notes| - 1] == amount - (|notes| - 1) * each
  {
    var last := |notes| - 1;
    SumOfEqual(notes[..last], each);
    assert |notes| * each == last * each + each;
    QuotientUnique(amount + each - 1, each, |notes|);
  }

  /** `splitCustodyNoteAmounts`. */
  method SplitNoteAmounts(amount: int, noteAmount: Option<int>) returns (notes: Result<seq<int>>)
    ensures notes.Ok? <==> amount > 0 && (noteAmount.Some? ==> 0 < noteAmount.value <= amount)
    ensures notes.Ok? ==> SplitOf(notes.value, amount, if noteAmount.None? then amount else noteAmount.value)
  {
    if amount <= 0 { return Err("custody smoke amount must be positive"); }
    if noteAmount.None? { return Ok(One(amount)); }
    var each := noteAmount.value;
    if each <= 0 { return Err("custody smoke note amount must be positive"); }
    if each > amount { return Err("custody smoke note amount cannot exceed total amount"); }
    if each == amount { return Ok(One(amount)); }
    var parts, remaining := [], amount;
    while remaining > 0
      invariant 0 <= remaining <= amount && Sum(parts) == amount - remaining
      invariant remaining > 0 ==> forall i | 0 <= i < |parts| :: parts[i] == each
      invariant remaining == 0 ==> SplitOf(parts, amount, each)
    {
      var next := if remaining > each then each else remaining;
      ghost var before := parts;
      parts := parts + [next];
      assert parts[..|parts| - 1] == before;
      remaining := remaining - next;
    }
    return Ok(parts);
  }

  function One(amount: int): (notes: seq<int>)
    ensures amount > 0 ==> SplitOf(notes, amount, amount)
  {
    var notes := [amount];
    assert notes[..0] == [];
    assert Sum(notes) == Sum(notes[..0]) + amount;
    notes
  }
}
