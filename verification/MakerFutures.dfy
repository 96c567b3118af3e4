/**
 What may still become of the transfers that were submitted: they execute when the contract
 lets them, die, or are written down, while the market moves.  The main result says exactly
 when two transfers of a series can both come to be executed without being written down,
 which is what record and chain in agreement are taken to exclude.
 */
module MakerFutures {
  import opened Common
  import opened VaultBacking
  import opened PositionReceipts
  import opened MakerFunding
  import opened MakerChain

  datatype Future = Future(chain: Chain, market: Market, written: set<TxHash>)

  datatype Move =
    | Landing(h: TxHash)
    | Dropping(h: TxHash)
    | Writing(h: TxHash)
    | Turning(market: Market)

  predicate Possible(f: Future, move: Move) {
    match move
    case Landing(h) => Executable(f.chain, f.market, h)
    case Dropping(h) => Flying(f.chain, h)
    case Writing(h) => h in f.chain.landed && h !in f.written
    case Turning(_) => true
  }

  function After(f: Future, move: Move): Future
    requires Possible(f, move)
  {
    match move
    case Landing(h) => f.(chain := Land(f.chain, h), market := Paid(f.market, f.chain.submitted[h]))
    case Dropping(h) => f.(chain := Drop(f.chain, h))
    case Writing(h) => f.(written := f.written + {h})
    case Turning(market) => f.(market := market)
  }

  /** These moves lead from f to g. */
  predicate Leads(f: Future, moves: seq<Move>, g: Future)
    decreases |moves|
  {
    if moves == [] then f == g
    else Possible(f, moves[0]) && Leads(After(f, moves[0]), moves[1..], g)
  }

  /** Some continuation leaves two transfers of the series executed and not written down. */
  ghost predicate CanReachTwo(f: Future, series: nat) {
    exists moves, g :: Leads(f, moves, g) && !AtMostOne(Unfinished(g.chain, g.written, series))
  }

  // ----- The condition -----

  /** Executed already, or the principal permits it. */
  predicate CanLand(c: Chain, h: TxHash) {
    h in c.submitted && (h in c.landed || (Flying(c, h) && Permitted(c, c.submitted[h])))
  }

  function Landed(c: Chain, h: TxHash): Chain
    requires CanLand(c, h)
  {
    if h in c.landed then c else Land(c, h)
  }

  /** One can execute, and the other after it. */
  predicate CanLandBoth(c: Chain, h: TxHash, k: TxHash) {
    CanLand(c, h) && CanLand(Landed(c, h), k)
  }

  /** Two pending transfers of the series can execute one after the other. */
  ghost predicate TwoCanLand(c: Chain, written: set<TxHash>, series: nat) {
    exists h, k | h in Pendings(c, written, series) && k in Pendings(c, written, series) ::
      h != k && CanLandBoth(c, h, k)
  }

  ghost predicate ChainSound(c: Chain) {
    c.landed <= c.submitted.Keys && c.landed !! c.dead && forall s | s in c.principal :: c.principal[s] >= 0
  }

  // ----- No continuation escapes the condition -----

  /** A transfer that executes first takes the place of one of the two. */
  lemma LandingBack(c: Chain, written: set<TxHash>, series: nat, g: TxHash)
    requires ChainSound(c) && written <= c.landed && Flying(c, g) && Permitted(c, c.submitted[g])
    requires TwoCanLand(Land(c, g), written, series)
    ensures TwoCanLand(c, written, series)
  {
    var next := Land(c, g);
    var h, k :| && h in Pendings(next, written, series) && k in Pendings(next, written, series)
                && h != k && CanLandBoth(next, h, k);
    assert h in Pendings(c, written, series) && k in Pendings(c, written, series);
    if c.submitted[g].series == series {
      assert g in Pendings(c, written, series);
      assert Landed(c, g) == next;
      if h == g {
        assert CanLandBoth(c, g, k);
      } else if h in c.landed {
        assert CanLandBoth(c, h, g);
      } else {
        assert CanLandBoth(c, g, h);
      }
    } else {
      assert OnChain(c, series) == OnChain(next, series);
      assert CanLand(c, h) && OnChain(Landed(c, h), series) == OnChain(Landed(next, h), series);
      assert CanLandBoth(c, h, k);
    }
  }

  lemma MoveBack(f: Future, move: Move, series: nat)
    requires ChainSound(f.chain) && f.written <= f.chain.landed && Possible(f, move)
    requires TwoCanLand(After(f, move).chain, After(f, move).written, series)
    ensures TwoCanLand(f.chain, f.written, series)
  {
    var c, next := f.chain, After(f, move);
    if move.Landing? {
      LandingBack(c, f.written, series, move.h);
    } else {
      var h, k :| && h in Pendings(next.chain, next.written, series) && k in Pendings(next.chain, next.written, series)
                  && h != k && CanLandBoth(next.chain, h, k);
      assert h in Pendings(c, f.written, series) && k in Pendings(c, f.written, series);
      assert CanLandBoth(c, h, k);
    }
  }

  lemma SoundKept(f: Future, move: Move)
    requires ChainSound(f.chain) && f.written <= f.chain.landed && Possible(f, move)
    ensures ChainSound(After(f, move).chain) && After(f, move).written <= After(f, move).chain.landed
  {
  }

  lemma {:induction false} ReachedBack(f: Future, moves: seq<Move>, g: Future, series: nat)
    requires ChainSound(f.chain) && f.written <= f.chain.landed && Leads(f, moves, g)
    requires !AtMostOne(Unfinished(g.chain, g.written, series))
    ensures TwoCanLand(f.chain, f.written, series)
    decreases |moves|
  {
    if moves == [] {
      var h, k :| h in Unfinished(f.chain, f.written, series) && k in Unfinished(f.chain, f.written, series) && h != k;
      assert h in Pendings(f.chain, f.written, series) && k in Pendings(f.chain, f.written, series);
      assert CanLandBoth(f.chain, h, k);
    } else {
      SoundKept(f, moves[0]);
      ReachedBack(After(f, moves[0]), moves[1..], g, series);
      MoveBack(f, moves[0], series);
    }
  }

  // ----- The condition is enough -----

  /** A market in which the contract funds one given transfer. */
  function MarketFor(c: Chain, t: Transfer): Market {
    if t.Lent? then Market(map[t.series := (OnChain(c, t.series) + t.amount) * 10_000], {t.series}, 0, 1)
    else Market(map[], {}, if t.returned >= 0 then t.returned else 0, 1)
  }

  lemma MarketFunds(c: Chain, t: Transfer)
    requires Permitted(c, t) && OnChain(c, t.series) >= 0
    ensures Funded(c, MarketFor(c, t), t)
  {
    if t.Lent? {
      var goal := OnChain(c, t.series) + t.amount;
      var assets := OnChain(c, t.series) + goal * 10_000;
      AtMostQuotient(goal, assets, 10_000);
      TruncIsFloor(assets, 10_000);
    }
  }

  /** Moves after which this transfer has executed, and nothing else has changed on the chain. */
  function LandMoves(c: Chain, h: TxHash): seq<Move>
    requires CanLand(c, h)
  {
    if h in c.landed then [] else [Turning(MarketFor(c, c.submitted[h])), Landing(h)]
  }

  lemma LandMovesLead(f: Future, h: TxHash) returns (g: Future)
    requires ChainSound(f.chain) && CanLand(f.chain, h)
    ensures Leads(f, LandMoves(f.chain, h), g) && g.chain == Landed(f.chain, h) && g.written == f.written
    ensures ChainSound(g.chain) && h in g.chain.landed && f.chain.landed <= g.chain.landed
  {
    g := f;
    if h !in f.chain.landed {
      var moves := LandMoves(f.chain, h);
      MarketFunds(f.chain, f.chain.submitted[h]);
      var turned := After(f, moves[0]);
      g := After(turned, moves[1]);
      assert moves[1..] == [moves[1]] && moves[1..][1..] == [];
      assert Leads(g, [], g) && Leads(turned, moves[1..], g);
    }
  }

  lemma {:induction false} LeadsOn(f: Future, first: seq<Move>, g: Future, second: seq<Move>, last: Future)
    requires Leads(f, first, g) && Leads(g, second, last)
    ensures Leads(f, first + second, last)
    decreases |first|
  {
    if first == [] {
      assert first + second == second;
    } else {
      LeadsOn(After(f, first[0]), first[1..], g, second, last);
      assert (first + second)[1..] == first[1..] + second;
    }
  }

  lemma BothReached(f: Future, series: nat, h: TxHash, k: TxHash)
    requires ChainSound(f.chain) && h != k && CanLandBoth(f.chain, h, k)
    requires h in Pendings(f.chain, f.written, series) && k in Pendings(f.chain, f.written, series)
    ensures CanReachTwo(f, series)
  {
    var once := LandMovesLead(f, h);
    var twice := LandMovesLead(once, k);
    LeadsOn(f, LandMoves(f.chain, h), once, LandMoves(once.chain, k), twice);
    assert h in Unfinished(twice.chain, twice.written, series) && k in Unfinished(twice.chain, twice.written, series);
  }

  /**
   Some continuation leaves two transfers of the series executed and not written down exactly
   if two of them that are pending now can execute one after the other.
   */
  lemma TwoUnfinishedExactly(f: Future, series: nat)
    requires ChainOk(f.chain, f.written)
    ensures CanReachTwo(f, series) <==> TwoCanLand(f.chain, f.written, series)
  {
    if CanReachTwo(f, series) {
      var moves, g :| Leads(f, moves, g) && !AtMostOne(Unfinished(g.chain, g.written, series));
      ReachedBack(f, moves, g, series);
    }
    if TwoCanLand(f.chain, f.written, series) {
      var h, k :| && h in Pendings(f.chain, f.written, series) && k in Pendings(f.chain, f.written, series)
                  && h != k && CanLandBoth(f.chain, h, k);
      BothReached(f, series, h, k);
    }
  }

  // ----- After a relay -----

  /** The contract lets the same transfer through twice. */
  predicate PermittedTwice(c: Chain, t: Transfer) {
    Permitted(c, t) && (t.Lent? || 2 * t.principal <= OnChain(c, t.series))
  }

  /** What survived the guard's read, and one submission of the new transfer, can execute in some order. */
  predicate Compatible(c: Chain, h: TxHash, k: TxHash) {
    CanLandBoth(c, h, k) || CanLandBoth(c, k, h)
  }

  /** Which of the copies it is makes no difference. */
  lemma AnyCopy(c: Chain, h: TxHash, j: TxHash, k: TxHash)
    requires Compatible(c, h, j) && h != j && h != k
    requires Flying(c, j) && Flying(c, k) && c.submitted[j] == c.submitted[k]
    ensures Compatible(c, h, k)
  {
    if CanLandBoth(c, h, j) {
      assert CanLandBoth(c, h, k);
    } else {
      assert CanLandBoth(c, k, h);
    }
  }

  /** The pending transfers are at most one old one, and copies of one transfer. */
  ghost predicate PendingAre(c: Chain, written: set<TxHash>, series: nat, earlier: set<TxHash>,
                             first: TxHash, copies: nat, t: Transfer)
  {
    && (forall h :: h in Pendings(c, written, series) <==> h in earlier || first <= h < first + copies)
    && AtMostOne(earlier) && (forall h | h in earlier :: h < first)
    && (forall h: TxHash | first <= h < first + copies :: Flying(c, h) && c.submitted[h] == t) && t.series == series
  }

  lemma TwoCanLandIf(c: Chain, written: set<TxHash>, series: nat, earlier: set<TxHash>, first: TxHash, copies: nat,
                     t: Transfer)
    requires PendingAre(c, written, series, earlier, first, copies, t)
    requires || (copies >= 2 && PermittedTwice(c, t))
             || (copies >= 1 && exists h | h in earlier :: Compatible(c, h, first))
    ensures TwoCanLand(c, written, series)
  {
    assert copies >= 1 ==> first in Pendings(c, written, series);
    if copies >= 2 && PermittedTwice(c, t) {
      assert first + 1 in Pendings(c, written, series);
      assert CanLandBoth(c, first, first + 1);
    } else {
      var h :| h in earlier && Compatible(c, h, first);
      assert h in Pendings(c, written, series);
    }
  }

  lemma TwoCanLandOnlyIf(c: Chain, written: set<TxHash>, series: nat, earlier: set<TxHash>, first: TxHash, copies: nat,
                         t: Transfer)
    requires PendingAre(c, written, series, earlier, first, copies, t) && TwoCanLand(c, written, series)
    ensures || (copies >= 2 && PermittedTwice(c, t))
            || (copies >= 1 && exists h | h in earlier :: Compatible(c, h, first))
  {
    var i, j :| && i in Pendings(c, written, series) && j in Pendings(c, written, series)
                && i != j && CanLandBoth(c, i, j);
    if i in earlier {
      assert j !in earlier;
      AnyCopy(c, i, j, first);
    } else if j in earlier {
      AnyCopy(c, j, i, first);
    } else {
      assert copies >= 2 && PermittedTwice(c, t);
    }
  }

  /**
   After a relay whose guard read agreement, some continuation leaves two transfers of the
   series unfinished exactly if the relay submitted at least twice what the contract lets through
   twice, or at least once what can execute beside a transfer that survived the guard's read.
   */
  lemma RelayReachesTwoExactly(allocations: seq<Allocation>, vault: nat, read: Chain, now: Chain, m: Market,
                               written: set<TxHash>, t: Transfer, copies: nat)
    requires Balanced(allocations, vault, read, written) && AtMostOne(Pendings(read, written, t.series))
    requires Later(read, now) && ChainOk(now, written) && Delta(t) != 0
    requires RecordedSeriesPrincipal(allocations, vault, t.series) == Some(OnChain(read, t.series))
    ensures var next := Submit(now, t, copies);
      CanReachTwo(Future(next, m, written), t.series) <==>
        || (copies >= 2 && PermittedTwice(now, t))
        || (copies >= 1 && exists h | h in Survivors(read, now, t.series) :: Compatible(next, h, now.nextHash))
  {
    var s, next, k := t.series, Submit(now, t, copies), now.nextHash;
    var survivors := Survivors(read, now, s);
    assert ChainOk(next, written);
    TwoUnfinishedExactly(Future(next, m, written), s);
    PendingAfterRelay(allocations, vault, read, now, written, t, copies);
    assert PendingAre(next, written, s, survivors, k, copies, t);
    assert PermittedTwice(next, t) == PermittedTwice(now, t);
    if TwoCanLand(next, written, s) {
      TwoCanLandOnlyIf(next, written, s, survivors, k, copies, t);
    } else if || (copies >= 2 && PermittedTwice(now, t))
              || (copies >= 1 && exists h | h in survivors :: Compatible(next, h, k)) {
      TwoCanLandIf(next, written, s, survivors, k, copies, t);
    }
  }

  /** With nothing in flight at the guard's read, and one submission, no continuation does. */
  lemma QuietRelayReachesOne(allocations: seq<Allocation>, vault: nat, read: Chain, now: Chain, m: Market,
                             written: set<TxHash>, t: Transfer)
    requires Balanced(allocations, vault, read, written) && AtMostOne(Pendings(read, written, t.series))
    requires Later(read, now) && ChainOk(now, written) && Delta(t) != 0 && MakerChain.InFlight(read, t.series) == {}
    requires RecordedSeriesPrincipal(allocations, vault, t.series) == Some(OnChain(read, t.series))
    ensures !CanReachTwo(Future(Submit(now, t, 1), m, written), t.series)
  {
    RelayReachesTwoExactly(allocations, vault, read, now, m, written, t, 1);
    assert Survivors(read, now, t.series) == {};
  }
}
