/** Rebuilding the openings of a batch settlement (scripts/smoke/repair-account-events.ts). */
module SettlementOpenings {
  import opened Common

  type IntentId = nat
  type Commitment = nat

  datatype Intent = Intent(margin: nat, signedSize: int, limitPrice: int)

  datatype Side = Long | Short

  function SideOf(intent: Intent): Side {
    if intent.signedSize >= 0 then Long else Short
  }

  function SizeOf(intent: Intent): nat {
    Abs(intent.signedSize)
  }

  datatype Opening = Opening(position: Commitment, source: IntentId, side: Side, size: int, price: int, margin: int)

  // ----- Cumulative rounding up -----

  /** The margin handed out once `filled` of `size` is filled. */
  function Allocated(margin: nat, filled: nat, size: nat): nat
    requires size > 0
  {
    Product(margin, filled);
    CeilNat(margin * filled, size);
    CeilDiv(margin * filled, size)
  }

  lemma Product(a: int, b: int)
    requires a >= 0 && b >= 0
    ensures a * b >= 0
  {
  }

  /** The quotient rounded up is the least that covers the dividend. */
  lemma CeilNat(a: nat, d: nat)
    requires d > 0
    ensures 0 <= CeilDiv(a, d) && a <= CeilDiv(a, d) * d < a + d
  {
    QuotientBounds(a + d - 1, d);
    AtMostQuotient(0, a + d - 1, d);
  }

  lemma AtLeastCeil(q: int, a: nat, d: nat)
    requires d > 0
    ensures CeilDiv(a, d) <= q <==> a <= q * d
  {
    CeilNat(a, d);
    AtMostQuotient(q + 1, a + d - 1, d);
    assert (q + 1) * d == q * d + d;
  }

  /** One more step of a cumulative ceiling lies between the floor and the ceiling of the step. */
  lemma {:induction false} CeilStep(a: nat, b: nat, d: nat)
    requires d > 0
    ensures b / d <= CeilDiv(a + b, d) - CeilDiv(a, d) <= CeilDiv(b, d)
  {
    CeilNat(a, d);
    CeilNat(b, d);
    CeilNat(a + b, d);
    QuotientBounds(b, d);
    var x, y := CeilDiv(a, d), CeilDiv(b, d);
    assert (x + y) * d == x * d + y * d;
    AtLeastCeil(x + y, a + b, d);
    var z, q := CeilDiv(a + b, d), b / d;
    assert (z - q) * d == z * d - q * d;
    AtLeastCeil(z - q, a, d);
  }

  /** A fill's margin lies between the floor and the ceiling of its proportional share. */
  lemma {:induction false} FillShare(margin: nat, filled: nat, fill: nat, size: nat)
    requires size > 0
    ensures margin * fill / size
         <= Allocated(margin, filled + fill, size) - Allocated(margin, filled, size)
         <= Allocated(margin, fill, size)
  {
    Product(margin, filled);
    Product(margin, fill);
    assert margin * (filled + fill) == margin * filled + margin * fill;
    CeilStep(margin * filled, margin * fill, size);
  }

  /** A filled order hands out its margin exactly, an empty one nothing. */
  lemma AllocatedEnds(margin: nat, size: nat)
    requires size > 0
    ensures Allocated(margin, size, size) == margin && Allocated(margin, 0, size) == 0
  {
    Product(margin, size);
    AtLeastCeil(margin, margin * size, size);
    AtLeastCeil(margin - 1, margin * size, size);
    assert (margin - 1) * size == margin * size - size;
    AtLeastCeil(0, 0, size);
    CeilNat(0, size);
  }

  /** Between the floor and the ceiling of the proportional share. */
  ghost predicate FairShare(intent: Intent, fill: int, margin: int) {
    intent.signedSize != 0 && fill >= 0 &&
    intent.margin * fill / SizeOf(intent) <= margin <= Allocated(intent.margin, fill, SizeOf(intent))
  }

  // ----- What the openings of one intent add up to -----

  function FilledBy(openings: seq<Opening>, n: nat, source: IntentId): int
    requires n <= |openings|
  {
    if n == 0 then 0
    else FilledBy(openings, n - 1, source) + if openings[n - 1].source == source then openings[n - 1].size else 0
  }

  function MarginOf(openings: seq<Opening>, n: nat, source: IntentId): int
    requires n <= |openings|
  {
    if n == 0 then 0
    else MarginOf(openings, n - 1, source) + if openings[n - 1].source == source then openings[n - 1].margin else 0
  }

  lemma {:induction false} SumsOfPrefix(openings: seq<Opening>, more: seq<Opening>, n: nat, source: IntentId)
    requires n <= |openings|
    ensures FilledBy(openings + more, n, source) == FilledBy(openings, n, source)
    ensures MarginOf(openings + more, n, source) == MarginOf(openings, n, source)
  {
    if n > 0 { SumsOfPrefix(openings, more, n - 1, source); }
  }

  lemma SumsOfPair(openings: seq<Opening>, a: Opening, b: Opening, source: IntentId)
    ensures FilledBy(openings + [a, b], |openings| + 2, source) == FilledBy(openings, |openings|, source)
      + (if a.source == source then a.size else 0) + (if b.source == source then b.size else 0)
    ensures MarginOf(openings + [a, b], |openings| + 2, source) == MarginOf(openings, |openings|, source)
      + (if a.source == source then a.margin else 0) + (if b.source == source then b.margin else 0)
  {
    SumsOfPrefix(openings, [a, b], |openings|, source);
    var all := openings + [a, b];
    assert FilledBy(all, |openings| + 1, source) == FilledBy(all, |openings|, source) + if a.source == source then a.size else 0;
    assert MarginOf(all, |openings| + 1, source) == MarginOf(all, |openings|, source) + if a.source == source then a.margin else 0;
  }

  /** Openings come in pairs of opposite sides with one size and one price. */
  ghost predicate InPairs(openings: seq<Opening>) {
    && |openings| % 2 == 0
    && forall i | 0 <= i < |openings| && i % 2 == 0 ::
         && openings[i].side != openings[i + 1].side && openings[i].size == openings[i + 1].size
         && openings[i].price == openings[i + 1].price
  }

  /** Every opening carries its fair share of its intent's margin. */
  ghost predicate Proportional(openings: seq<Opening>, intents: map<IntentId, Intent>) {
    forall i | 0 <= i < |openings| ::
      openings[i].source in intents && FairShare(intents[openings[i].source], openings[i].size, openings[i].margin)
  }

  /** Of every intent: at most its size is opened, for exactly the cumulative share of its margin. */
  ghost predicate Exact(openings: seq<Opening>, intents: map<IntentId, Intent>) {
    forall k | k in intents && intents[k].signedSize != 0 ::
      var filled := FilledBy(openings, |openings|, k);
      && 0 <= filled <= SizeOf(intents[k])
      && MarginOf(openings, |openings|, k) == Allocated(intents[k].margin, filled, SizeOf(intents[k]))
  }

  /** An intent whose size is opened in full has handed out its whole margin. */
  lemma {:induction false} FullyFilledPaysMargin(openings: seq<Opening>, intents: map<IntentId, Intent>, k: IntentId)
    requires Exact(openings, intents) && k in intents && intents[k].signedSize != 0
    requires FilledBy(openings, |openings|, k) == SizeOf(intents[k])
    ensures MarginOf(openings, |openings|, k) == intents[k].margin
  {
    AllocatedEnds(intents[k].margin, SizeOf(intents[k]));
  }

  // ----- The book -----

  class BookState {
    const intent: Intent
    var allocatedMargin: int
    var filled: int
    var remaining: int

    constructor (intent: Intent)
      ensures this.intent == intent && Valid() && filled == 0 && allocatedMargin == 0
    {
      this.intent := intent;
      allocatedMargin, filled, remaining := 0, 0, SizeOf(intent);
      new;
      if intent.signedSize != 0 { AllocatedEnds(intent.margin, SizeOf(intent)); }
    }

    ghost predicate Valid()
      reads this
    {
      && filled >= 0 && remaining >= 0 && filled + remaining == SizeOf(intent)
      && (intent.signedSize != 0 ==> allocatedMargin == Allocated(intent.margin, filled, SizeOf(intent)))
    }

    /** `allocateMargin`; an order of size 0 makes the source divide by zero. */
    method AllocateMargin(fill: int) returns (margin: int)
      requires Valid() && intent.signedSize != 0 && 0 <= fill <= remaining
      modifies this
      ensures Valid() && filled == old(filled) + fill && remaining == old(remaining) - fill
      ensures allocatedMargin == old(allocatedMargin) + margin
      ensures FairShare(intent, fill, margin)
      ensures remaining == 0 ==> allocatedMargin == intent.margin
    {
      var nextFilled := filled + fill;
      FillShare(intent.margin, filled, fill, SizeOf(intent));
      AllocatedEnds(intent.margin, SizeOf(intent));
      var nextAllocated := Allocated(intent.margin, nextFilled, SizeOf(intent));
      margin := nextAllocated - allocatedMargin;
      filled := nextFilled;
      remaining := remaining - fill;
      allocatedMargin := nextAllocated;
    }
  }

  /** Every order touched so far tracks its openings; no other order has any. */
  ghost predicate BookOk(state: map<IntentId, BookState>, openings: seq<Opening>, intents: map<IntentId, Intent>)
    reads state.Values
  {
    && (forall k | k in state ::
          && k in intents && state[k].intent == intents[k] && state[k].Valid()
          && state[k].filled == FilledBy(openings, |openings|, k)
          && state[k].allocatedMargin == MarginOf(openings, |openings|, k))
    && (forall k, l | k in state && l in state && k != l :: state[k] != state[l])
    && (forall k: IntentId | k !in state :: FilledBy(openings, |openings|, k) == 0 == MarginOf(openings, |openings|, k))
  }

  lemma BookIsExact(state: map<IntentId, BookState>, openings: seq<Opening>, intents: map<IntentId, Intent>)
    requires BookOk(state, openings, intents)
    ensures Exact(openings, intents)
  {
    forall k | k in intents && intents[k].signedSize != 0
      ensures 0 <= FilledBy(openings, |openings|, k) <= SizeOf(intents[k])
      ensures MarginOf(openings, |openings|, k)
           == Allocated(intents[k].margin, FilledBy(openings, |openings|, k), SizeOf(intents[k]))
    {
      if k !in state { AllocatedEnds(intents[k].margin, SizeOf(intents[k])); }
    }
  }

  /** `stateFor`: the order's book state, made on first use. */
  method StateFor(source: IntentId, intents: map<IntentId, Intent>, state: map<IntentId, BookState>,
                  ghost openings: seq<Opening>) returns (found: bool, next: map<IntentId, BookState>)
    requires BookOk(state, openings, intents)
    ensures BookOk(next, openings, intents) && (found <==> source in intents) && (found ==> source in next)
    ensures forall k | k in state :: k in next && next[k] == state[k]
    ensures forall k | k in next && k !in state :: fresh(next[k])
  {
    next := state;
    if source in state { return true, state; }
    if source !in intents { return false, state; }
    var created := new BookState(intents[source]);
    next := state[source := created];
    return true, next;
  }

  /** Both orders of a pair are filled by the smaller of what remains. */
  method FillBoth(a: BookState, b: BookState) returns (size: int, aMargin: int, bMargin: int)
    requires a != b && a.Valid() && b.Valid() && a.intent.signedSize != 0 && b.intent.signedSize != 0
    modifies a, b
    ensures a.Valid() && b.Valid() && size == old(Min(a.remaining, b.remaining))
    ensures a.filled == old(a.filled) + size && a.allocatedMargin == old(a.allocatedMargin) + aMargin
    ensures b.filled == old(b.filled) + size && b.allocatedMargin == old(b.allocatedMargin) + bMargin
    ensures FairShare(a.intent, size, aMargin) && FairShare(b.intent, size, bMargin)
  {
    size := Min(a.remaining, b.remaining);
    aMargin := a.AllocateMargin(size);
    bMargin := b.AllocateMargin(size);
  }

  /** The sums of the openings after one more pair, of two different intents. */
  lemma PairAppended(openings: seq<Opening>, x: Opening, y: Opening)
    requires InPairs(openings) && x.source != y.source
    requires x.side != y.side && x.size == y.size && x.price == y.price
    ensures var all := openings + [x, y];
      && InPairs(all)
      && FilledBy(all, |all|, x.source) == FilledBy(openings, |openings|, x.source) + x.size
      && FilledBy(all, |all|, y.source) == FilledBy(openings, |openings|, y.source) + y.size
      && MarginOf(all, |all|, x.source) == MarginOf(openings, |openings|, x.source) + x.margin
      && MarginOf(all, |all|, y.source) == MarginOf(openings, |openings|, y.source) + y.margin
      && forall k: IntentId | k != x.source && k != y.source ::
           FilledBy(all, |all|, k) == FilledBy(openings, |openings|, k) && MarginOf(all, |all|, k) == MarginOf(openings, |openings|, k)
  {
    var all := openings + [x, y];
    SumsOfPair(openings, x, y, x.source);
    SumsOfPair(openings, x, y, y.source);
    forall k: IntentId | k != x.source && k != y.source
      ensures FilledBy(all, |all|, k) == FilledBy(openings, |openings|, k)
      ensures MarginOf(all, |all|, k) == MarginOf(openings, |openings|, k)
    {
      SumsOfPair(openings, x, y, k);
    }
  }

  /** One matched pair: the common size, and each side's share of its margin. */
  method OpenPair(left: Commitment, right: Commitment, leftId: IntentId, rightId: IntentId,
                  intents: map<IntentId, Intent>, state: map<IntentId, BookState>, openings: seq<Opening>)
    returns (r: Result<seq<Opening>>)
    requires BookOk(state, openings, intents) && InPairs(openings) && Proportional(openings, intents)
    requires leftId in state && rightId in state && SideOf(intents[leftId]) != SideOf(intents[rightId])
    modifies state.Values
    ensures r.Err? ==> intents[leftId].signedSize == 0 || intents[rightId].signedSize == 0
    ensures r.Ok? ==> BookOk(state, r.value, intents) && InPairs(r.value) && Proportional(r.value, intents)
  {
    var a, b := state[leftId], state[rightId];
    if a.intent.signedSize == 0 || b.intent.signedSize == 0 { return Err("Division by zero"); }
    var size, leftMargin, rightMargin := FillBoth(a, b);
    var price := (if SideOf(a.intent) == Long then a else b).intent.limitPrice;
    var x := Opening(left, leftId, SideOf(a.intent), size, price, leftMargin);
    var y := Opening(right, rightId, SideOf(b.intent), size, price, rightMargin);
    PairAppended(openings, x, y);
    return Ok(openings + [x, y]);
  }

  /** `reconstructSettlementOpenings`, before the check of each opening against its position commitment. */
  method Reconstruct(newCommitments: seq<Commitment>, positions: map<Commitment, IntentId>, intents: map<IntentId, Intent>)
    returns (r: Result<seq<Opening>>)
    ensures r.Ok? ==> InPairs(r.value) && Exact(r.value, intents) && Proportional(r.value, intents)
    ensures r.Err? ==> exists k :: k in intents && intents[k].signedSize == 0
  {
    var state: map<IntentId, BookState> := map[];
    var openings := [];
    var index := 0;
    while index < |newCommitments|
      invariant BookOk(state, openings, intents) && InPairs(openings) && Proportional(openings, intents)
      invariant forall k | k in state :: fresh(state[k])
    {
      if index + 1 < |newCommitments| && newCommitments[index] in positions && newCommitments[index + 1] in positions {
        var left, right := newCommitments[index], newCommitments[index + 1];
        var hasLeft, withLeft := StateFor(positions[left], intents, state, openings);
        var hasRight, withBoth := StateFor(positions[right], intents, withLeft, openings);
        state := withBoth;
        if hasLeft && hasRight && SideOf(intents[positions[left]]) != SideOf(intents[positions[right]]) &&
           intents[positions[left]].limitPrice == intents[positions[right]].limitPrice {
          var paired := OpenPair(left, right, positions[left], positions[right], intents, state, openings);
          if paired.Err? { return paired; }
          openings := paired.value;
        }
      }
      index := index + 2;
    }
    BookIsExact(state, openings, intents);
    return Ok(openings);
  }
}
