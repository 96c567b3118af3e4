/** Choosing the notes that cover a margin (`planPrivateMarginNoteAllocations`). */
module NotePlanner {
  import opened Common
  import opened MarginNotes

  /** One note's part in an order. */
  datatype Part = Part(amount: int, note: Note)

  predicate Eligible(n: Note, owner: Hex, asset: Option<Hex>, excluded: set<Hex>) {
    && n.owner == owner && n.status == Available && n.commitment !in excluded
    && (Truthy(asset) ==> n.asset == asset.value)
  }

  function EligibleNotes(notes: seq<Note>, owner: Hex, asset: Option<Hex>, excluded: set<Hex>): (found: seq<Note>)
    ensures forall n | n in found :: n in notes && Eligible(n, owner, asset, excluded)
  {
    if notes == [] then []
    else if Eligible(notes[0], owner, asset, excluded)
    then [notes[0]] + EligibleNotes(notes[1..], owner, asset, excluded)
    else EligibleNotes(notes[1..], owner, asset, excluded)
  }

  predicate Ascending(s: seq<Note>) {
    forall i, j | 0 <= i < j < |s| :: s[i].amount <= s[j].amount
  }

  /** Insert a note in front of the first one with a larger amount. */
  function InsertByAmount(n: Note, s: seq<Note>): (t: seq<Note>)
    requires Ascending(s)
    ensures Ascending(t) && |t| == |s| + 1 && (t[0] == n || (s != [] && t[0] == s[0]))
  {
    if s == [] then [n]
    else if n.amount < s[0].amount then [n] + s
    else [s[0]] + InsertByAmount(n, s[1..])
  }

  /** JavaScript's stable ascending sort. */
  function SortByAmount(s: seq<Note>): (t: seq<Note>)
    ensures Ascending(t)
  {
    if s == [] then [] else InsertByAmount(s[|s| - 1], SortByAmount(s[..|s| - 1]))
  }

  lemma {:induction false} InsertAdds(n: Note, s: seq<Note>)
    requires Ascending(s)
    ensures multiset(InsertByAmount(n, s)) == multiset(s) + multiset{n}
  {
    if s != [] && n.amount >= s[0].amount {
      InsertAdds(n, s[1..]);
      assert s == [s[0]] + s[1..];
    }
  }

  /** Sorting keeps every note, as often as it occurs. */
  lemma {:induction false} SortPermutes(s: seq<Note>)
    ensures multiset(SortByAmount(s)) == multiset(s)
  {
    if s != [] {
      var last, rest := s[|s| - 1], s[..|s| - 1];
      assert s == rest + [last];
      SortPermutes(rest);
      InsertAdds(last, SortByAmount(rest));
      assert multiset(rest + [last]) == multiset(rest) + multiset{last};
    }
  }

  /** The candidates in the order the source considers them. */
  function Candidates(notes: seq<Note>, owner: Hex, asset: Option<Hex>, excluded: set<Hex>): seq<Note> {
    SortByAmount(EligibleNotes(notes, owner, asset, excluded))
  }

  /** Sum of the first n amounts. */
  function SumTo(s: seq<Note>, n: nat): int
    requires n <= |s|
  {
    if n == 0 then 0 else SumTo(s, n - 1) + s[n - 1].amount
  }

  /** Sum of the n largest of an ascending list. */
  function LargestSum(s: seq<Note>, n: nat): int
    requires n <= |s|
  {
    if n == 0 then 0 else LargestSum(s, n - 1) + s[|s| - n].amount
  }

  function PartsTotal(parts: seq<Part>, n: nat): int
    requires n <= |parts|
  {
    if n == 0 then 0 else PartsTotal(parts, n - 1) + parts[n - 1].amount
  }

  lemma {:induction false} PartsTotalExtend(parts: seq<Part>, n: nat, p: Part)
    requires n <= |parts|
    ensures PartsTotal(parts + [p], n) == PartsTotal(parts, n)
  {
    if n > 0 { PartsTotalExtend(parts, n - 1, p); }
  }

  // ----- Any choice of notes -----

  /** What the candidates at some positions are worth together. */
  ghost function SumAt(s: seq<Note>, chosen: set<nat>): int
    requires forall i | i in chosen :: i < |s|
  {
    if chosen == {} then 0 else var i :| i in chosen; s[i].amount + SumAt(s, chosen - {i})
  }

  lemma {:induction false} SumAtPick(s: seq<Note>, chosen: set<nat>, i: nat)
    requires (forall j | j in chosen :: j < |s|) && i in chosen
    ensures SumAt(s, chosen) == s[i].amount + SumAt(s, chosen - {i})
  {
    var j :| j in chosen && SumAt(s, chosen) == s[j].amount + SumAt(s, chosen - {j});
    if j != i {
      SumAtPick(s, chosen - {j}, i);
      SumAtPick(s, chosen - {i}, j);
      assert chosen - {j} - {i} == chosen - {i} - {j};
    }
  }

  /** Positions below n cannot outnumber n. */
  lemma {:induction false} CountBelow(chosen: set<nat>, n: nat)
    requires forall i | i in chosen :: i < n
    ensures |chosen| <= n
  {
    if n > 0 {
      CountBelow(chosen - {n - 1}, n - 1);
    } else {
      assert chosen == {};
    }
  }

  /** No choice of k notes below position n is worth more than the k notes just below n. */
  lemma {:induction false} AtMostLargest(s: seq<Note>, chosen: set<nat>, n: nat)
    requires Ascending(s) && n <= |s| && forall i | i in chosen :: i < n
    ensures |chosen| <= n && SumAt(s, chosen) <= LargestSum(s[..n], |chosen|)
  {
    CountBelow(chosen, n);
    if chosen != {} {
      var top := Highest(chosen);
      SumAtPick(s, chosen, top);
      AtMostLargest(s, chosen - {top}, top);
      LargestShift(s, top, n, |chosen| - 1);
    }
  }

  /** The highest position of a choice. */
  lemma {:induction false} Highest(chosen: set<nat>) returns (top: nat)
    requires chosen != {}
    ensures top in chosen && forall i | i in chosen && i != top :: i < top
  {
    var i :| i in chosen;
    if chosen == {i} {
      top := i;
    } else {
      assert chosen - {i} != {};
      var rest := Highest(chosen - {i});
      top := if rest > i then rest else i;
      forall j | j in chosen && j != top ensures j < top {
        if j != i && j != rest { assert j in chosen - {i}; }
      }
    }
  }

  /** The k largest below `top`, and `top` itself, are at most the k + 1 largest below n. */
  lemma {:induction false} LargestShift(s: seq<Note>, top: nat, n: nat, k: nat)
    requires Ascending(s) && k <= top < n <= |s|
    ensures s[top].amount + LargestSum(s[..top], k) <= LargestSum(s[..n], k + 1)
  {
    if k == 0 {
      assert LargestSum(s[..n], 1) == s[n - 1].amount;
    } else {
      LargestShift(s, top, n, k - 1);
      assert s[..top][top - k] == s[top - k] && s[..n][n - (k + 1)] == s[n - (k + 1)];
    }
  }

  // ----- The plan -----

  /** Whether the candidates can cover the amount: one of them alone, or all together. */
  ghost predicate Coverable(s: seq<Note>, amount: int) {
    (exists i :: 0 <= i < |s| && s[i].amount >= amount) || SumTo(s, |s|) >= amount
  }

  /** The parts are the largest candidates, each in full except that the last may leave change. */
  ghost predicate Greedy(s: seq<Note>, parts: seq<Part>, amount: int) {
    && |parts| <= |s|
    && (forall i | 0 <= i < |parts| :: parts[i].note == s[|s| - 1 - i] && 0 < parts[i].amount <= parts[i].note.amount)
    && (forall i | 0 <= i < |parts| - 1 :: parts[i].amount == parts[i].note.amount)
    && PartsTotal(parts, |parts|) == amount
  }

  /** One part, of the smallest candidate that covers the amount alone. */
  ghost predicate Single(s: seq<Note>, parts: seq<Part>, amount: int) {
    && |parts| == 1 && parts[0].amount == amount && parts[0].note in s
    && amount <= parts[0].note.amount && forall n | n in s && n.amount >= amount :: parts[0].note.amount <= n.amount
  }

  /** No choice of fewer notes covers the amount. */
  ghost predicate FewestNotes(s: seq<Note>, parts: seq<Part>, amount: int) {
    forall chosen: set<nat> | (forall i | i in chosen :: i < |s|) && |chosen| < |parts| :: SumAt(s, chosen) < amount
  }

  lemma {:induction false} LargestAreParts(s: seq<Note>, parts: seq<Part>, amount: int, k: nat)
    requires Greedy(s, parts, amount) && k < |parts|
    ensures LargestSum(s, k) == PartsTotal(parts, k)
  {
    if k > 0 { LargestAreParts(s, parts, amount, k - 1); }
  }

  /** Fewer than all parts fall short, since each part is needed. */
  lemma {:induction false} PrefixShort(parts: seq<Part>, n: nat, k: nat)
    requires k < n <= |parts| && forall i | 0 <= i < |parts| :: parts[i].amount > 0
    ensures PartsTotal(parts, k) < PartsTotal(parts, n)
  {
    if k < n - 1 { PrefixShort(parts, n - 1, k); }
  }

  lemma GreedyIsFewest(s: seq<Note>, parts: seq<Part>, amount: int)
    requires Ascending(s) && Greedy(s, parts, amount)
    ensures FewestNotes(s, parts, amount)
  {
    forall chosen: set<nat> | (forall i | i in chosen :: i < |s|) && |chosen| < |parts| ensures SumAt(s, chosen) < amount {
      AtMostLargest(s, chosen, |s|);
      assert s[..|s|] == s;
      LargestAreParts(s, parts, amount, |chosen|);
      PrefixShort(parts, |parts|, |chosen|);
    }
  }

  /** The rest of the list, largest first, is worth the total less what was taken. */
  lemma {:induction false} RestIsSmall(s: seq<Note>, n: nat)
    requires Ascending(s) && n <= |s| && (n > 0 ==> s[n - 1].amount <= 0)
    ensures SumTo(s, n) <= 0
  {
    if n > 0 { RestIsSmall(s, n - 1); }
  }

  lemma LastIsPositive(s: seq<Note>, n: nat)
    requires Ascending(s) && 0 < n <= |s| && SumTo(s, n) > 0
    ensures s[n - 1].amount > 0
  {
    if s[n - 1].amount <= 0 { RestIsSmall(s, n); }
  }

  /** The first candidate that covers the amount, from position k on. */
  function FindSufficient(s: seq<Note>, amount: int, k: nat): (found: Option<nat>)
    requires k <= |s|
    ensures found.Some? ==> k <= found.value < |s| && s[found.value].amount >= amount
    ensures found.Some? ==> forall i | k <= i < found.value :: s[i].amount < amount
    ensures found.None? ==> forall i | k <= i < |s| :: s[i].amount < amount
    decreases |s| - k
  {
    if k == |s| then None else if s[k].amount >= amount then Some(k) else FindSufficient(s, amount, k + 1)
  }

  method Total(s: seq<Note>) returns (total: int)
    ensures total == SumTo(s, |s|)
  {
    total := 0;
    for i := 0 to |s|
      invariant total == SumTo(s, i)
    {
      total := total + s[i].amount;
    }
  }

  /** `planPrivateMarginNoteAllocations`: the throw at its end is never reached. */
  method Plan(notes: seq<Note>, amount: int, owner: Hex, asset: Option<Hex>, excluded: set<Hex>)
    returns (plan: Result<seq<Part>>)
    ensures plan.Ok? <==> amount > 0 && Coverable(Candidates(notes, owner, asset, excluded), amount)
    ensures plan.Ok? ==>
      var s := Candidates(notes, owner, asset, excluded);
      && (Single(s, plan.value, amount) || Greedy(s, plan.value, amount))
      && FewestNotes(s, plan.value, amount)
  {
    if amount <= 0 { return Err("Private margin must be positive"); }
    var s := Candidates(notes, owner, asset, excluded);
    var sufficient := FindSufficient(s, amount, 0);
    if sufficient.Some? {
      SingleIsFewest(s, sufficient.value, amount);
      return Ok([Part(amount, s[sufficient.value])]);
    }
    var total := Total(s);
    if total < amount { return Err("Deposit private USDC before trading"); }
    var parts := TakeLargest(s, amount);
    GreedyIsFewest(s, parts, amount);
    return Ok(parts);
  }

  lemma SingleIsFewest(s: seq<Note>, k: nat, amount: int)
    requires amount > 0 && k < |s| && s[k].amount >= amount
    ensures FewestNotes(s, [Part(amount, s[k])], amount)
  {
    forall chosen: set<nat> | (forall i | i in chosen :: i < |s|) && |chosen| < 1 ensures SumAt(s, chosen) < amount {
      assert chosen == {};
    }
  }

  /** All candidates together are worth the amount. */
  ghost predicate Suffices(s: seq<Note>, amount: int) {
    SumTo(s, |s|) >= amount
  }

  /** The loop over the candidates, largest first. */
  method TakeLargest(s: seq<Note>, amount: int) returns (parts: seq<Part>)
    requires amount > 0 && Ascending(s) && Suffices(s, amount)
    ensures Greedy(s, parts, amount)
  {
    var remaining := amount;
    parts := [];
    var k := |s|;
    while k > 0 && remaining != 0
      invariant 0 <= k <= |s| && |parts| == |s| - k && 0 <= remaining
      invariant forall i | 0 <= i < |parts| ::
        parts[i].note == s[|s| - 1 - i] && 0 < parts[i].amount <= parts[i].note.amount
      invariant forall i | 0 <= i < |parts| - 1 :: parts[i].amount == parts[i].note.amount
      invariant remaining > 0 ==> forall i | 0 <= i < |parts| :: parts[i].amount == parts[i].note.amount
      invariant PartsTotal(parts, |parts|) == amount - remaining
      invariant remaining > 0 ==> SumTo(s, k) >= remaining
    {
      k := k - 1;
      var taken := if s[k].amount < remaining then s[k].amount else remaining;
      LastIsPositive(s, k + 1); // so the source's skip of a note without worth is never taken
      if taken > 0 {
        PartsTotalExtend(parts, |parts|, Part(taken, s[k]));
        parts := parts + [Part(taken, s[k])];
        remaining := remaining - taken;
      }
    }
  }
}
