/**
 What a doubled series can come to: a run in which a position's receipt is confirmed although
 its principal was never taken off its allocation.
 */
module MakerDoubled {
  import opened Common
  import opened VaultBacking
  import opened PositionReceipts
  import opened MakerChain

  /** Chain and documents at one moment. */
  datatype State = State(chain: Chain, allocations: seq<Allocation>, written: set<TxHash>)

  ghost predicate Sound(x: State, vault: nat) {
    Balanced(x.allocations, vault, x.chain, x.written)
  }

  /** What the guard of a relay in this series looks for. */
  predicate Agrees(x: State, vault: nat, series: nat) {
    RecordedSeriesPrincipal(x.allocations, vault, series) == Some(OnChain(x.chain, series))
  }

  /** The record of the series exceeds the chain by this amount. */
  predicate Exceeds(x: State, vault: nat, series: nat, amount: int) {
    RecordedSeriesPrincipal(x.allocations, vault, series) == Some(OnChain(x.chain, series) + amount)
  }

  function Relayed(x: State, t: Transfer): State {
    x.(chain := Submit(x.chain, t, 1))
  }

  /** The transaction executes if the contract permits it. */
  function Executed(x: State, h: TxHash): State {
    if Flying(x.chain, h) && Permitted(x.chain, x.chain.submitted[h]) then x.(chain := Land(x.chain, h)) else x
  }

  function SettlementOf(a: Allocation, p: Position, principal: int, returned: int): Transfer {
    Settled(p, a.id, a.series, principal, returned)
  }

  /** The document after a settlement of this principal. */
  function PaidOff(a: Allocation, principal: int): Allocation {
    if RemainingPrincipal(a).None? then a
    else a.(remainingPrincipal := Some(RemainingPrincipal(a).value - principal))
  }

  /** Settlements of positions p and q are in flight. */
  function BothSent(x: State, a: Allocation, p: Position, q: Position, principal: int, returned: int): State {
    Relayed(Relayed(x, SettlementOf(a, p, principal, returned)), SettlementOf(a, q, principal, returned))
  }

  /** Applying an executed settlement to document k. */
  function Applied(x: State, k: nat, principal: int, h: TxHash): State
    requires k < |x.allocations|
  {
    x.(allocations := x.allocations[k := PaidOff(x.allocations[k], principal)], written := x.written + {h})
  }

  /** The allocation that `allocate` records under the hash of its transaction. */
  function NewAllocation(h: TxHash, a: Allocation, amount: int): Allocation {
    Allocation(h, a.vault, a.maker, a.asset, a.series, amount, 0, {}, Some(amount), Outstanding)
  }

  /** No document has this id. */
  ghost predicate Unused(allocations: seq<Allocation>, id: nat) {
    forall i | 0 <= i < |allocations| :: allocations[i].id != id
  }

  /** An amount is lent in the series of a and recorded. */
  function LentAgain(x: State, a: Allocation, amount: int): State {
    var l := x.chain.nextHash;
    Executed(Relayed(x, Lent(a.series, amount)), l)
      .(allocations := x.allocations + [NewAllocation(l, a, amount)], written := x.written + {l})
  }

  lemma OwesAtMostRecorded(allocations: seq<Allocation>, vault: nat, k: nat)
    requires AllValid(allocations) && k < |allocations| && Counts(allocations[k], vault, allocations[k].series)
    ensures RecordedSeriesPrincipal(allocations, vault, allocations[k].series).Some?
    ensures RemainingPrincipal(allocations[k]).value
         <= RecordedSeriesPrincipal(allocations, vault, allocations[k].series).value
  {
    var a := allocations[k];
    var paid := a.(remainingPrincipal := Some(0));
    RecordedAfterUpdate(allocations, k, paid, vault, a.series);
    RecordedNotNegative(allocations[k := paid], |allocations|, vault, a.series);
  }

  /** An open document with this principal left, in a series where nothing is unfinished or in flight. */
  ghost predicate Ready(x: State, vault: nat, k: nat, principal: int, returned: int) {
    && Sound(x, vault) && k < |x.allocations| && returned > 0
    && var a := x.allocations[k];
       a.vault == vault && a.status == Outstanding && 0 < principal <= RemainingPrincipal(a).value
       && Pendings(x.chain, x.written, a.series) == {}
  }

  /** Both guards pass. */
  lemma BothGuardsPass(x: State, vault: nat, k: nat, p: Position, q: Position, principal: int, returned: int)
    requires Ready(x, vault, k, principal, returned)
    ensures var a := x.allocations[k];
      var both := BothSent(x, a, p, q, principal, returned);
      && Agrees(x, vault, a.series) && Agrees(Relayed(x, SettlementOf(a, p, principal, returned)), vault, a.series)
      && Sound(both, vault) && Agrees(both, vault, a.series)
      && principal <= RemainingPrincipal(a).value <= OnChain(x.chain, a.series)
  {
    var a, c := x.allocations[k], x.chain;
    assert Unfinished(c, x.written, a.series) <= Pendings(c, x.written, a.series);
    AgreementMeansFinished(x.allocations, vault, c, x.written, a.series);
    OwesAtMostRecorded(x.allocations, vault, k);
    SubmitBalanced(x.allocations, vault, c, x.written, SettlementOf(a, p, principal, returned), 1);
    var first := Relayed(x, SettlementOf(a, p, principal, returned));
    SubmitBalanced(x.allocations, vault, first.chain, x.written, SettlementOf(a, q, principal, returned), 1);
  }

  /** Executing a settlement in flight and applying it leaves record and chain in agreement. */
  lemma AppliedAgrees(x: State, vault: nat, k: nat, p: Position, principal: int, returned: int, h: TxHash)
    requires Sound(x, vault) && k < |x.allocations| && x.allocations[k].vault == vault && returned > 0
    requires x.allocations[k].status == Outstanding && Agrees(x, vault, x.allocations[k].series)
    requires 0 < principal <= RemainingPrincipal(x.allocations[k]).value <= OnChain(x.chain, x.allocations[k].series)
    requires Flying(x.chain, h) && x.chain.submitted[h] == SettlementOf(x.allocations[k], p, principal, returned)
    ensures var s, next := x.allocations[k].series, Applied(Executed(x, h), k, principal, h);
      && Sound(next, vault) && Agrees(next, vault, s) && OnChain(next.chain, s) == OnChain(x.chain, s) - principal
      && next.chain == Land(x.chain, h)
  {
    var d := PaidOff(x.allocations[k], principal);
    assert Permitted(x.chain, x.chain.submitted[h]);
    LandBalanced(x.allocations, vault, x.chain, x.written, h);
    WriteBalanced(x.allocations, vault, Land(x.chain, h), x.written, k, d, h);
    RecordedAfterUpdate(x.allocations, k, d, vault, d.series);
  }

  lemma LentAgainAgrees(x: State, vault: nat, a: Allocation, amount: int)
    requires Sound(x, vault) && Agrees(x, vault, a.series) && a.vault == vault
    requires amount > 0 && Unused(x.allocations, x.chain.nextHash)
    ensures var again := LentAgain(x, a, amount);
      && OnChain(again.chain, a.series) == OnChain(x.chain, a.series) + amount
      && Sound(again, vault) && Agrees(again, vault, a.series)
      && x.chain.nextHash in again.chain.landed
  {
    var l, t := x.chain.nextHash, Lent(a.series, amount);
    SubmitBalanced(x.allocations, vault, x.chain, x.written, t, 1);
    var sent := Submit(x.chain, t, 1);
    LandBalanced(x.allocations, vault, sent, x.written, l);
    RecordBalanced(x.allocations, vault, Land(sent, l), x.written, NewAllocation(l, a, amount), l);
    RecordedAfterAppend(x.allocations, NewAllocation(l, a, amount), vault, a.series);
  }

  /** What is in flight stays in flight while an amount is lent. */
  lemma StillFlying(x: State, a: Allocation, amount: int, h: TxHash)
    requires ChainOk(x.chain, x.written) && Flying(x.chain, h)
    ensures var again := LentAgain(x, a, amount);
      Flying(again.chain, h) && again.chain.submitted[h] == x.chain.submitted[h]
  {
  }

  /** Executing and applying one of the two leaves the other in flight. */
  lemma FirstStillFlying(x: State, a: Allocation, p: Position, q: Position, principal: int, returned: int)
    requires ChainOk(x.chain, x.written)
    ensures var h, both := x.chain.nextHash, BothSent(x, a, p, q, principal, returned);
      && both.chain.nextHash == h + 2 && Flying(both.chain, h) && Flying(both.chain, h + 1)
      && both.chain.submitted[h] == SettlementOf(a, p, principal, returned)
      && both.chain.submitted[h + 1] == SettlementOf(a, q, principal, returned)
      && OnChain(both.chain, a.series) == OnChain(x.chain, a.series)
  {
  }

  /** A settlement that executes late and is not applied. */
  lemma Late(x: State, vault: nat, h: TxHash, t: Transfer)
    requires Sound(x, vault) && Flying(x.chain, h) && x.chain.submitted[h] == t && Permitted(x.chain, t) && !t.Lent?
    ensures var end := Executed(x, h);
      && h in end.chain.landed && h !in end.written && Sound(end, vault) && end.allocations == x.allocations
      && OnChain(end.chain, t.series) == OnChain(x.chain, t.series) - t.principal
  {
    LandBalanced(x.allocations, vault, x.chain, x.written, h);
  }

  /** The guards of both settlements pass, and after the second was applied record and chain agree again. */
  lemma SecondAppliedAgrees(x: State, both: State, applied: State, vault: nat, k: nat,
                            p: Position, q: Position, principal: int, returned: int)
    requires Ready(x, vault, k, principal, returned)
    requires both == BothSent(x, x.allocations[k], p, q, principal, returned) && k < |both.allocations|
    requires applied == Applied(Executed(both, x.chain.nextHash + 1), k, principal, x.chain.nextHash + 1)
    ensures var a, h := x.allocations[k], x.chain.nextHash;
      && Agrees(x, vault, a.series) && Agrees(both, vault, a.series) && Agrees(applied, vault, a.series)
      && Sound(applied, vault) && h + 1 in applied.chain.landed && applied.chain.nextHash == h + 2
      && OnChain(applied.chain, a.series) == OnChain(x.chain, a.series) - principal
      && Flying(applied.chain, h) && applied.chain.submitted[h] == SettlementOf(a, p, principal, returned)
      && applied.allocations == x.allocations[k := PaidOff(a, principal)]
  {
    var a, h := x.allocations[k], x.chain.nextHash;
    BothGuardsPass(x, vault, k, p, q, principal, returned);
    FirstStillFlying(x, a, p, q, principal, returned);
    AppliedAgrees(both, vault, k, q, principal, returned, h + 1);
  }

  /** The amount is lent again, and the first settlement executes: the check of its receipt passes. */
  lemma FirstExecutesLate(applied: State, again: State, end: State, vault: nat, a: Allocation, h: TxHash, t: Transfer)
    requires Sound(applied, vault) && Flying(applied.chain, h) && applied.chain.submitted[h] == t
    requires t.Settled? && t.series == a.series && t.principal > 0 && t.returned > 0
    requires a.vault == vault && Agrees(applied, vault, a.series)
    requires Unused(applied.allocations, applied.chain.nextHash)
    requires again == LentAgain(applied, a, t.principal) && end == Executed(again, h)
    ensures h in end.chain.landed && h !in end.written && Sound(end, vault)
    ensures end.allocations == applied.allocations + [NewAllocation(applied.chain.nextHash, a, t.principal)]
    ensures OnChain(end.chain, a.series) == OnChain(applied.chain, a.series)
    ensures Exceeds(end, vault, a.series, t.principal)
  {
    LentAgainAgrees(applied, vault, a, t.principal);
    StillFlying(applied, a, t.principal, h);
    assert OnChain(applied.chain, a.series) >= 0;
    Late(again, vault, h, t);
  }

  /** If what came back is the principal, the other two balances the check reads are as expected, too. */
  lemma BalancesAsExpected(m: Market, a: Allocation, p: Position, q: Position, principal: int)
    requires 0 < principal <= m.makerBalance
    ensures var second := Paid(m, SettlementOf(a, q, principal, principal));
      var again := Paid(second, Lent(a.series, principal));
      var end := Paid(again, SettlementOf(a, p, principal, principal));
      LiquidOf(end, a.series) == LiquidOf(m, a.series) + principal && end.makerBalance == m.makerBalance - principal
  {
  }

  /**
   Two positions of one allocation settle the same principal.  The transaction of the first is
   slow; the guard of the second finds agreement, its transaction executes and is applied, the
   amount is lent again, and only then the first executes.  Its check finds the principal it
   expects and the allocation less its amount, so its receipt is confirmed; but that amount was
   taken off for the second, and from then on the record exceeds the chain by it.
   */
  lemma ConfirmedNotApplied(x: State, both: State, applied: State, again: State, end: State, vault: nat, k: nat,
                            p: Position, q: Position, principal: int, returned: int)
    requires Ready(x, vault, k, principal, returned) && Unused(x.allocations, x.chain.nextHash + 2)
    requires both == BothSent(x, x.allocations[k], p, q, principal, returned) && k < |both.allocations|
    requires applied == Applied(Executed(both, x.chain.nextHash + 1), k, principal, x.chain.nextHash + 1)
    requires again == LentAgain(applied, x.allocations[k], principal) && end == Executed(again, x.chain.nextHash)
    ensures var s := x.allocations[k].series;
      Agrees(x, vault, s) && Agrees(both, vault, s) && Agrees(applied, vault, s)
    ensures Sound(end, vault) && x.chain.nextHash in end.chain.landed && x.chain.nextHash !in end.written
    ensures OnChain(end.chain, x.allocations[k].series) == OnChain(x.chain, x.allocations[k].series) - principal
    ensures k < |end.allocations| && end.allocations[k] == PaidOff(x.allocations[k], principal)
    ensures Exceeds(end, vault, x.allocations[k].series, principal)
  {
    var a, h := x.allocations[k], x.chain.nextHash;
    SecondAppliedAgrees(x, both, applied, vault, k, p, q, principal, returned);
    FirstExecutesLate(applied, again, end, vault, a, h, SettlementOf(a, p, principal, returned));
  }
}
