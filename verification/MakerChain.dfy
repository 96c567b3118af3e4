/**
 The transfers the manager relays, as the network sees them.  One relay may submit its
 transaction several times, because the relayer runs its command again after a timeout
 (server/src/workers/relayer/relayer.service.ts:400-410), and a submitted transaction may
 execute at any later moment, or never.
 */
module MakerChain {
  import opened Common
  import opened VaultBacking
  import opened PositionReceipts
  import opened MakerFunding

  /** A relayed change of a series principal; Repaid with nothing returned is `record_loss`. */
  datatype Transfer =
    | Lent(series: nat, amount: int)
    | Repaid(id: nat, series: nat, principal: int, returned: int)
    | Settled(position: Position, id: nat, series: nat, principal: int, returned: int)

  /** How the principal of the series moves on the chain. */
  function Delta(t: Transfer): int {
    if t.Lent? then t.amount else -t.principal
  }

  /** Series principals, and every transaction submitted: executed, dead, or still in flight. */
  datatype Chain = Chain(
    principal: map<nat, int>,
    submitted: map<TxHash, Transfer>,
    landed: set<TxHash>,
    dead: set<TxHash>,
    nextHash: TxHash)

  function OnChain(c: Chain, series: nat): int {
    if series in c.principal then c.principal[series] else 0
  }

  predicate Flying(c: Chain, h: TxHash) {
    h in c.submitted && h !in c.landed && h !in c.dead
  }

  function InFlight(c: Chain, series: nat): set<TxHash> {
    set h | h in c.submitted && Flying(c, h) && c.submitted[h].series == series
  }

  /** Executed, but not written down yet. */
  function Unfinished(c: Chain, written: set<TxHash>, series: nat): set<TxHash> {
    set h | h in c.submitted && h in c.landed && h !in written && c.submitted[h].series == series
  }

  predicate IsPending(c: Chain, written: set<TxHash>, h: TxHash) {
    h in c.submitted && h !in written && h !in c.dead
  }

  /** Executed and not written down, or still in flight. */
  function Pendings(c: Chain, written: set<TxHash>, series: nat): set<TxHash> {
    set h | h in c.submitted && IsPending(c, written, h) && c.submitted[h].series == series
  }

  predicate AtMostOne(hs: set<TxHash>) {
    forall h, k | h in hs && k in hs :: h == k
  }

  // ----- What the network does -----

  /** So many submissions of one transaction. */
  function Submit(c: Chain, t: Transfer, copies: nat): Chain {
    c.(submitted := c.submitted + map h: TxHash | c.nextHash <= h < c.nextHash + copies && h !in c.submitted :: t,
       nextHash := c.nextHash + copies)
  }

  /**
   What the contract's guards read beside the principal: liquid assets, the series with shares
   and without requested withdrawals, the maker's balance, and the limit on lending.
   */
  datatype Market = Market(liquid: map<nat, int>, lending: set<nat>, makerBalance: nat, limitBps: int)

  function LiquidOf(m: Market, series: nat): int {
    if series in m.liquid then m.liquid[series] else 0
  }

  /** The guards of `allocate`, `settle` and `record_loss` that read the principal alone. */
  predicate Permitted(c: Chain, t: Transfer) {
    match t
    case Lent(_, amount) => amount > 0
    case Repaid(_, series, principal, returned) => 0 < principal <= OnChain(c, series) && returned >= 0
    case Settled(_, _, series, principal, returned) => 0 < principal <= OnChain(c, series) && returned > 0
  }

  /** The other guards.  The cap on the series implies the one on the vault (LiquidityVault.SeriesGuardSuffices). */
  predicate Funded(c: Chain, m: Market, t: Transfer) {
    if t.Lent? then
      var principal, liquid := OnChain(c, t.series), LiquidOf(m, t.series);
      t.series in m.lending && t.amount <= liquid && principal + t.amount <= Cap(principal + liquid, m.limitBps)
    else t.returned <= m.makerBalance
  }

  predicate Executable(c: Chain, m: Market, h: TxHash) {
    Flying(c, h) && Permitted(c, c.submitted[h]) && Funded(c, m, c.submitted[h])
  }

  /** The market after the tokens of a transfer moved. */
  function Paid(m: Market, t: Transfer): Market
    requires if t.Lent? then t.amount > 0 else t.returned <= m.makerBalance
  {
    if t.Lent? then
      m.(liquid := m.liquid[t.series := LiquidOf(m, t.series) - t.amount], makerBalance := m.makerBalance + t.amount)
    else
      m.(liquid := m.liquid[t.series := LiquidOf(m, t.series) + t.returned], makerBalance := m.makerBalance - t.returned)
  }

  function Land(c: Chain, h: TxHash): Chain
    requires Flying(c, h)
  {
    var t := c.submitted[h];
    c.(principal := c.principal[t.series := OnChain(c, t.series) + Delta(t)], landed := c.landed + {h})
  }

  function Drop(c: Chain, h: TxHash): Chain
    requires Flying(c, h)
  {
    c.(dead := c.dead + {h})
  }

  /** The same submissions, some of which executed or died meanwhile. */
  predicate Later(earlier: Chain, now: Chain) {
    && now.submitted == earlier.submitted && now.nextHash == earlier.nextHash
    && earlier.landed <= now.landed && earlier.dead <= now.dead
  }

  // ----- Sums of transfers -----

  /** What a set of transactions moved in a series. */
  ghost function Moved(txs: map<TxHash, Transfer>, hs: set<TxHash>, series: nat): int
    requires hs <= txs.Keys
  {
    if hs == {} then 0
    else
      var h :| h in hs;
      (if txs[h].series == series then Delta(txs[h]) else 0) + Moved(txs, hs - {h}, series)
  }

  function Share(t: Transfer, series: nat): int {
    if t.series == series then Delta(t) else 0
  }

  lemma {:induction false} MovedWithout(txs: map<TxHash, Transfer>, hs: set<TxHash>, h: TxHash, series: nat)
    requires hs <= txs.Keys && h in hs
    ensures Moved(txs, hs, series) == Share(txs[h], series) + Moved(txs, hs - {h}, series)
  {
    var k :| k in hs && Moved(txs, hs, series) == Share(txs[k], series) + Moved(txs, hs - {k}, series);
    if k != h {
      MovedWithout(txs, hs - {k}, h, series);
      MovedWithout(txs, hs - {h}, k, series);
      assert hs - {k} - {h} == hs - {h} - {k};
    }
  }

  lemma MovedWith(txs: map<TxHash, Transfer>, hs: set<TxHash>, h: TxHash, series: nat)
    requires hs <= txs.Keys && h in txs && h !in hs
    ensures Moved(txs, hs + {h}, series) == Moved(txs, hs, series) + Share(txs[h], series)
  {
    MovedWithout(txs, hs + {h}, h, series);
    assert hs + {h} - {h} == hs;
  }

  lemma {:induction false} MovedSame(txs: map<TxHash, Transfer>, more: map<TxHash, Transfer>, hs: set<TxHash>, series: nat)
    requires hs <= txs.Keys && forall h | h in txs :: h in more && more[h] == txs[h]
    ensures hs <= more.Keys && Moved(more, hs, series) == Moved(txs, hs, series)
  {
    if hs != {} {
      var h :| h in hs;
      MovedSame(txs, more, hs - {h}, series);
      MovedWithout(txs, hs, h, series);
      MovedWithout(more, hs, h, series);
    }
  }

  lemma {:induction false} MovedSplit(txs: map<TxHash, Transfer>, small: set<TxHash>, large: set<TxHash>, series: nat)
    requires small <= large <= txs.Keys
    ensures Moved(txs, large, series) == Moved(txs, small, series) + Moved(txs, large - small, series)
  {
    if small == {} {
      assert large - small == large;
    } else {
      var h :| h in small;
      MovedSplit(txs, small - {h}, large - {h}, series);
      MovedWithout(txs, small, h, series);
      MovedWithout(txs, large, h, series);
      assert large - {h} - (small - {h}) == large - small;
    }
  }

  lemma {:induction false} MovedElsewhere(txs: map<TxHash, Transfer>, hs: set<TxHash>, series: nat)
    requires hs <= txs.Keys && forall h | h in hs :: txs[h].series != series
    ensures Moved(txs, hs, series) == 0
  {
    if hs != {} {
      var h :| h in hs;
      MovedWithout(txs, hs, h, series);
      MovedElsewhere(txs, hs - {h}, series);
    }
  }

  /** One transfer of a series among a set moves exactly its own amount. */
  lemma MovedOnly(txs: map<TxHash, Transfer>, hs: set<TxHash>, h: TxHash, series: nat)
    requires hs <= txs.Keys && h in hs && txs[h].series == series
    requires forall k | k in hs && txs[k].series == series :: k == h
    ensures Moved(txs, hs, series) == Delta(txs[h])
  {
    MovedWithout(txs, hs, h, series);
    MovedElsewhere(txs, hs - {h}, series);
  }

  // ----- Record and chain -----

  predicate ChainOk(c: Chain, written: set<TxHash>) {
    && c.landed <= c.submitted.Keys && c.dead <= c.submitted.Keys && c.landed !! c.dead && written <= c.landed
    && (forall h | h in c.submitted :: h < c.nextHash && Delta(c.submitted[h]) != 0)
    && forall s | s in c.principal :: c.principal[s] >= 0
  }

  /** The chain is what executed, and the record is what was written down of it, in every series. */
  ghost predicate Balanced(allocations: seq<Allocation>, vault: nat, c: Chain, written: set<TxHash>) {
    && AllValid(allocations) && DistinctIds(allocations) && ChainOk(c, written)
    && (forall s: nat :: OnChain(c, s) == Moved(c.submitted, c.landed, s))
    && (forall s: nat :: RecordedSeriesPrincipal(allocations, vault, s) == Some(Moved(c.submitted, written, s)))
  }

  /** By how much the chain is ahead of the record: the executed transfers not written down. */
  ghost function Gap(c: Chain, written: set<TxHash>, series: nat): int
    requires ChainOk(c, written)
  {
    Moved(c.submitted, c.landed - written, series)
  }

  lemma GapIsUnfinished(allocations: seq<Allocation>, vault: nat, c: Chain, written: set<TxHash>, series: nat)
    requires Balanced(allocations, vault, c, written)
    ensures RecordedSeriesPrincipal(allocations, vault, series) == Some(OnChain(c, series) - Gap(c, written, series))
  {
    MovedSplit(c.submitted, written, c.landed, series);
  }

  lemma SubmitBalanced(allocations: seq<Allocation>, vault: nat, c: Chain, written: set<TxHash>, t: Transfer, copies: nat)
    requires Balanced(allocations, vault, c, written) && Delta(t) != 0
    ensures Balanced(allocations, vault, Submit(c, t, copies), written)
  {
    var next := Submit(c, t, copies);
    forall s: nat
      ensures OnChain(next, s) == Moved(next.submitted, next.landed, s)
      ensures RecordedSeriesPrincipal(allocations, vault, s) == Some(Moved(next.submitted, written, s))
    {
      MovedSame(c.submitted, next.submitted, c.landed, s);
      MovedSame(c.submitted, next.submitted, written, s);
    }
  }

  lemma LandBalanced(allocations: seq<Allocation>, vault: nat, c: Chain, written: set<TxHash>, h: TxHash)
    requires Balanced(allocations, vault, c, written) && Flying(c, h) && Permitted(c, c.submitted[h])
    ensures Balanced(allocations, vault, Land(c, h), written)
  {
    var next := Land(c, h);
    forall s: nat ensures OnChain(next, s) == Moved(next.submitted, next.landed, s) {
      MovedWith(c.submitted, c.landed, h, s);
    }
  }

  lemma DropBalanced(allocations: seq<Allocation>, vault: nat, c: Chain, written: set<TxHash>, h: TxHash)
    requires Balanced(allocations, vault, c, written) && Flying(c, h)
    ensures Balanced(allocations, vault, Drop(c, h), written)
  {
    var next := Drop(c, h);
    assert forall s: nat :: OnChain(next, s) == OnChain(c, s);
  }

  /** Recording the allocation of an executed transfer. */
  lemma RecordBalanced(allocations: seq<Allocation>, vault: nat, c: Chain, written: set<TxHash>, a: Allocation, h: TxHash)
    requires Balanced(allocations, vault, c, written)
    requires FindAllocation(allocations, a.id).None? && a.vault == vault && a.status == Outstanding
    requires h in c.landed && h !in written && c.submitted[h].series == a.series
    requires RemainingPrincipal(a) == Some(Delta(c.submitted[h]))
    ensures Balanced(allocations + [a], vault, c, written + {h})
  {
    forall s: nat
      ensures RecordedSeriesPrincipal(allocations + [a], vault, s) == Some(Moved(c.submitted, written + {h}, s))
    {
      RecordedAfterAppend(allocations, a, vault, s);
      MovedWith(c.submitted, written, h, s);
    }
  }

  /** Rewriting one document without changing what it contributes. */
  lemma RewriteBalanced(allocations: seq<Allocation>, vault: nat, c: Chain, written: set<TxHash>, k: nat, d: Allocation)
    requires Balanced(allocations, vault, c, written) && k < |allocations|
    requires d.id == allocations[k].id && RemainingPrincipal(d).Some?
    requires forall s: nat :: Contribution(d, vault, s) == Contribution(allocations[k], vault, s)
    ensures Balanced(allocations[k := d], vault, c, written)
  {
    forall s: nat ensures RecordedSeriesPrincipal(allocations[k := d], vault, s) == Some(Moved(c.submitted, written, s)) {
      RecordedAfterUpdate(allocations, k, d, vault, s);
    }
  }

  /** Writing down an executed transfer closes the gap it opened. */
  lemma WriteBalanced(allocations: seq<Allocation>, vault: nat, c: Chain, written: set<TxHash>, k: nat, d: Allocation,
                      h: TxHash)
    requires Balanced(allocations, vault, c, written) && k < |allocations|
    requires d.id == allocations[k].id && d.series == allocations[k].series && RemainingPrincipal(d).Some?
    requires h in c.landed && h !in written && c.submitted[h].series == d.series
    requires Contribution(d, vault, d.series) == Contribution(allocations[k], vault, d.series) + Delta(c.submitted[h])
    ensures Balanced(allocations[k := d], vault, c, written + {h})
  {
    forall s: nat
      ensures RecordedSeriesPrincipal(allocations[k := d], vault, s) == Some(Moved(c.submitted, written + {h}, s))
    {
      RecordedAfterUpdate(allocations, k, d, vault, s);
      MovedWith(c.submitted, written, h, s);
    }
  }

  // ----- How many transfers of a series are unfinished -----

  /** In flight when the principal was read, and not dead since: executed, or still in flight. */
  function Survivors(read: Chain, now: Chain, series: nat): set<TxHash> {
    set h | h in InFlight(read, series) && h !in now.dead
  }

  /** A relay that submits more than once, or after reading a principal that an earlier transfer may yet have changed. */
  predicate Doubles(read: Chain, now: Chain, series: nat, copies: nat) {
    copies > 1 || (copies == 1 && Survivors(read, now, series) != {})
  }

  /** In every series without such a relay, at most one transfer is unfinished or in flight. */
  ghost predicate Bounded(c: Chain, written: set<TxHash>, doubled: set<nat>) {
    forall s: nat | s !in doubled :: AtMostOne(Pendings(c, written, s))
  }

  /** Agreement of record and chain leaves no room for one unfinished transfer. */
  lemma AgreementMeansFinished(allocations: seq<Allocation>, vault: nat, c: Chain, written: set<TxHash>, series: nat)
    requires Balanced(allocations, vault, c, written) && AtMostOne(Unfinished(c, written, series))
    ensures RecordedSeriesPrincipal(allocations, vault, series) == Some(OnChain(c, series))
       <==> Unfinished(c, written, series) == {}
  {
    var open := c.landed - written;
    GapIsUnfinished(allocations, vault, c, written, series);
    if h :| h in Unfinished(c, written, series) {
      assert forall k | k in open && c.submitted[k].series == series :: k in Unfinished(c, written, series);
      MovedOnly(c.submitted, open, h, series);
    } else {
      forall k | k in open ensures c.submitted[k].series != series {
        assert c.submitted[k].series == series ==> k in Unfinished(c, written, series);
      }
      MovedElsewhere(c.submitted, open, series);
    }
  }

  /**
   The principal is read before the transfer is submitted, and what was in flight may execute
   in between: record and chain still agree at the submission exactly if that sums to nothing.
   */
  lemma AgreementAtSubmission(allocations: seq<Allocation>, vault: nat, read: Chain, now: Chain, written: set<TxHash>,
                              series: nat)
    requires Balanced(allocations, vault, read, written) && Balanced(allocations, vault, now, written) && Later(read, now)
    requires RecordedSeriesPrincipal(allocations, vault, series) == Some(OnChain(read, series))
    ensures var between := Moved(now.submitted, now.landed - read.landed, series);
      && OnChain(now, series) == OnChain(read, series) + between
      && (RecordedSeriesPrincipal(allocations, vault, series) == Some(OnChain(now, series)) <==> between == 0)
      && (InFlight(read, series) == {} ==> between == 0)
  {
    var between := now.landed - read.landed;
    MovedSplit(now.submitted, read.landed, now.landed, series);
    if InFlight(read, series) == {} {
      forall h | h in between ensures now.submitted[h].series != series {
        assert h !in InFlight(read, series);
      }
      MovedElsewhere(now.submitted, between, series);
    }
  }

  /** What is pending after a relay whose guard passed: what survived the guard's read, and the new submissions. */
  lemma PendingAfterRelay(allocations: seq<Allocation>, vault: nat, read: Chain, now: Chain, written: set<TxHash>,
                          t: Transfer, copies: nat)
    requires Balanced(allocations, vault, read, written) && AtMostOne(Pendings(read, written, t.series))
    requires Later(read, now) && ChainOk(now, written)
    requires RecordedSeriesPrincipal(allocations, vault, t.series) == Some(OnChain(read, t.series))
    ensures AtMostOne(Survivors(read, now, t.series))
    ensures forall h :: h in Pendings(Submit(now, t, copies), written, t.series)
                   <==> h in Survivors(read, now, t.series) || now.nextHash <= h < now.nextHash + copies
  {
    var s, next := t.series, Submit(now, t, copies);
    assert Unfinished(read, written, s) <= Pendings(read, written, s);
    AgreementMeansFinished(allocations, vault, read, written, s);
    assert InFlight(read, s) <= Pendings(read, written, s);
    assert Survivors(read, now, s) <= Pendings(read, written, s);
    forall h ensures h in Pendings(next, written, s)
                <==> h in Survivors(read, now, s) || now.nextHash <= h < now.nextHash + copies
    {
      assert h in Pendings(read, written, s) && h !in InFlight(read, s) ==> h in Unfinished(read, written, s);
      assert h in InFlight(read, s) ==> h in Pendings(read, written, s);
    }
  }

  /**
   After a relay whose guard read agreement, at most one transfer of the series is unfinished
   or in flight exactly if it submitted once at most, and nothing in flight at that read survived.
   */
  lemma BoundKeptExactly(allocations: seq<Allocation>, vault: nat, read: Chain, now: Chain, written: set<TxHash>,
                         t: Transfer, copies: nat)
    requires Balanced(allocations, vault, read, written) && AtMostOne(Pendings(read, written, t.series))
    requires Later(read, now) && ChainOk(now, written)
    requires RecordedSeriesPrincipal(allocations, vault, t.series) == Some(OnChain(read, t.series))
    ensures AtMostOne(Pendings(Submit(now, t, copies), written, t.series)) <==> !Doubles(read, now, t.series, copies)
  {
    var s, next := t.series, Submit(now, t, copies);
    PendingAfterRelay(allocations, vault, read, now, written, t, copies);
    if copies > 1 {
      assert now.nextHash in Pendings(next, written, s) && now.nextHash + 1 in Pendings(next, written, s);
    } else if copies == 1 && Survivors(read, now, s) != {} {
      var h :| h in Survivors(read, now, s);
      assert h in Pendings(next, written, s) && now.nextHash in Pendings(next, written, s);
    } else if copies == 0 {
      assert Pendings(next, written, s) <= Survivors(read, now, s);
    }
  }

  /** So every relay keeps the bound, in all series but those it doubles. */
  lemma SubmitBounded(allocations: seq<Allocation>, vault: nat, read: Chain, now: Chain, written: set<TxHash>,
                      doubled: set<nat>, t: Transfer, copies: nat)
    requires Balanced(allocations, vault, read, written) && Bounded(read, written, doubled)
    requires Later(read, now) && ChainOk(now, written) && Bounded(now, written, doubled)
    requires RecordedSeriesPrincipal(allocations, vault, t.series) == Some(OnChain(read, t.series))
    ensures Bounded(Submit(now, t, copies), written,
                    doubled + if Doubles(read, now, t.series, copies) then {t.series} else {})
  {
    var next := Submit(now, t, copies);
    forall s: nat | s !in doubled && (s == t.series ==> !Doubles(read, now, s, copies))
      ensures AtMostOne(Pendings(next, written, s))
    {
      if s == t.series {
        BoundKeptExactly(allocations, vault, read, now, written, t, copies);
      } else {
        assert AtMostOne(Pendings(now, written, s));
        assert Pendings(next, written, s) == Pendings(now, written, s);
      }
    }
  }

  lemma LandBounded(c: Chain, written: set<TxHash>, doubled: set<nat>, h: TxHash)
    requires Bounded(c, written, doubled) && Flying(c, h)
    ensures Bounded(Land(c, h), written, doubled) && Bounded(Drop(c, h), written, doubled)
  {
    forall s: nat | s !in doubled
      ensures AtMostOne(Pendings(Land(c, h), written, s)) && AtMostOne(Pendings(Drop(c, h), written, s))
    {
      assert AtMostOne(Pendings(c, written, s));
      assert Pendings(Land(c, h), written, s) == Pendings(c, written, s);
      assert Pendings(Drop(c, h), written, s) <= Pendings(c, written, s);
    }
  }

  // ----- Runs in which the bound fails -----

  lemma {:induction false} RecordedNotNegative(allocations: seq<Allocation>, n: nat, vault: nat, series: nat)
    requires AllValid(allocations) && n <= |allocations|
    ensures RecordedUpTo(allocations, n, vault, series).Some? && RecordedUpTo(allocations, n, vault, series).value >= 0
  {
    if n > 0 { RecordedNotNegative(allocations, n - 1, vault, series); }
  }

  /** Two documents of a series owe no more than its recorded principal. */
  lemma TwoOweAtMost(allocations: seq<Allocation>, vault: nat, series: nat, i: nat, j: nat)
    requires AllValid(allocations) && i < |allocations| && j < |allocations| && i != j
    requires Counts(allocations[i], vault, series) && Counts(allocations[j], vault, series)
    ensures RecordedSeriesPrincipal(allocations, vault, series).Some?
    ensures RemainingPrincipal(allocations[i]).value + RemainingPrincipal(allocations[j]).value
         <= RecordedSeriesPrincipal(allocations, vault, series).value
  {
    var paid := allocations[i].(remainingPrincipal := Some(0));
    var once := allocations[i := paid];
    RecordedAfterUpdate(allocations, i, paid, vault, series);
    RecordedAfterUpdate(once, j, allocations[j].(remainingPrincipal := Some(0)), vault, series);
    RecordedNotNegative(once[j := allocations[j].(remainingPrincipal := Some(0))], |once|, vault, series);
  }

  /** What is owed of a document, as the transfer that settles it. */
  function RepaymentOf(a: Allocation, returned: nat): Transfer
    requires RemainingPrincipal(a).Some?
  {
    Repaid(a.id, a.series, RemainingPrincipal(a).value, returned)
  }

  /**
   Two draining allocations of one series.  The relay of the first times out with its
   transaction in flight; record and chain still agree, so the second is relayed; then both
   execute and two transfers of the series are unfinished.
   */
  lemma TwoDrainsUnfinished(allocations: seq<Allocation>, vault: nat, c: Chain, m: Market, written: set<TxHash>,
                            i: nat, j: nat, returned: nat, alsoReturned: nat)
    requires Balanced(allocations, vault, c, written) && i < |allocations| && j < |allocations| && i != j
    requires allocations[i].status == Draining && allocations[j].status == Draining
    requires allocations[i].vault == vault && allocations[j].vault == vault
    requires allocations[i].series == allocations[j].series
    requires RemainingPrincipal(allocations[i]).value > 0 && RemainingPrincipal(allocations[j]).value > 0
    requires returned + alsoReturned <= m.makerBalance && Pendings(c, written, allocations[i].series) == {}
    ensures var s, h, k := allocations[i].series, c.nextHash, c.nextHash + 1;
      var t := RepaymentOf(allocations[i], returned);
      var first := Submit(c, t, 1);
      var both := Submit(first, RepaymentOf(allocations[j], alsoReturned), 1);
      && RecordedSeriesPrincipal(allocations, vault, s) == Some(OnChain(c, s))
      && RecordedSeriesPrincipal(allocations, vault, s) == Some(OnChain(first, s))
      && Executable(both, m, h) && Executable(Land(both, h), Paid(m, t), k)
      && {h, k} <= Unfinished(Land(Land(both, h), k), written, s)
  {
    var s := allocations[i].series;
    assert Unfinished(c, written, s) <= Pendings(c, written, s);
    AgreementMeansFinished(allocations, vault, c, written, s);
    TwoOweAtMost(allocations, vault, s, i, j);
  }

  /**
   One relay whose command is run twice, after a timeout that came too early: its transfer
   happens twice if the contract has room for twice the amount.
   */
  lemma RetriedRelayUnfinished(allocations: seq<Allocation>, vault: nat, c: Chain, m: Market, written: set<TxHash>,
                               t: Transfer)
    requires Balanced(allocations, vault, c, written) && t.Lent? && t.amount > 0
    requires Pendings(c, written, t.series) == {}
    requires t.series in m.lending && 2 * t.amount <= LiquidOf(m, t.series)
    requires var principal, liquid := OnChain(c, t.series), LiquidOf(m, t.series);
      principal + 2 * t.amount <= Cap(principal + liquid, m.limitBps)
    ensures var s, h, k := t.series, c.nextHash, c.nextHash + 1;
      var twice := Submit(c, t, 2);
      && RecordedSeriesPrincipal(allocations, vault, s) == Some(OnChain(c, s))
      && Executable(twice, m, h) && Executable(Land(twice, h), Paid(m, t), k)
      && {h, k} <= Unfinished(Land(Land(twice, h), k), written, s)
      && OnChain(Land(Land(twice, h), k), s) == OnChain(c, s) + 2 * t.amount
  {
    var s := t.series;
    assert Unfinished(c, written, s) <= Pendings(c, written, s);
    AgreementMeansFinished(allocations, vault, c, written, s);
  }

  /**
   An earlier transfer lands after the guard read the principal and before the new one is
   submitted: the guard passed, record and chain differ at the submission, nothing of the series
   is in flight then, the relay submits once, and still both transfers are unfinished.
   */
  lemma LandsBeforeRelay(allocations: seq<Allocation>, vault: nat, read: Chain, m: Market, written: set<TxHash>,
                         h: TxHash, t: Transfer, funds: Market)
    requires Balanced(allocations, vault, read, written) && Pendings(read, written, t.series) == {h}
    requires Executable(read, m, h)
    requires Permitted(Land(read, h), t) && Funded(Land(read, h), funds, t)
    ensures var s, now, k := t.series, Land(read, h), read.nextHash;
      var sent := Submit(now, t, 1);
      && RecordedSeriesPrincipal(allocations, vault, s) == Some(OnChain(read, s)) && Later(read, now)
      && RecordedSeriesPrincipal(allocations, vault, s) != Some(OnChain(now, s)) && InFlight(now, s) == {}
      && Executable(sent, funds, k) && {h, k} <= Unfinished(Land(sent, k), written, s)
      && Doubles(read, now, s, 1)
  {
    var s, now := t.series, Land(read, h);
    assert h in Pendings(read, written, s);
    assert Unfinished(read, written, s) <= Pendings(read, written, s);
    assert h !in Unfinished(read, written, s);
    AgreementMeansFinished(allocations, vault, read, written, s);
    assert now.submitted[h].series == s;
    forall k ensures k !in InFlight(now, s) {
      assert k in InFlight(now, s) ==> k in Pendings(read, written, s);
    }
    assert h in Survivors(read, now, s) by { assert h in InFlight(read, s); }
  }
}
