/**
 The liquidity-vault contract (contracts/liquidity-vault/src/lib.rs): liquidity series
 that take deposits, lend principal to the maker up to a cap, and pay out shares.

 A call that panics is a call that returns an error and changes nothing.
 */
module LiquidityVault {
  import opened Common
  import opened ShareMath

  type Owner = nat

  const MAX_ALLOCATION_BPS := 8_000
  const BPS := 10_000

  datatype Series = Series(
    liquid: int, principal: int, supply: int, pendingTotal: int,
    shares: map<Owner, int>, pending: map<Owner, int>)

  function Get(m: map<Owner, int>, owner: Owner): int {
    if owner in m then m[owner] else 0
  }

  function Assets(x: Series): int {
    x.liquid + x.principal
  }

  function PoolOf(x: Series): Pool {
    Pool(Assets(x), x.supply)
  }

  /** A series nobody has used yet. */
  function Blank(): Series {
    var nobody: set<Owner> := {};
    var none := map o | o in nobody :: 0;
    Series(0, 0, 0, 0, none, none)
  }

  // ----- Sums over owners and over series -----

  ghost function SumOf(m: map<Owner, int>, keys: set<Owner>): int {
    if keys == {} then 0 else var k :| k in keys; Get(m, k) + SumOf(m, keys - {k})
  }

  lemma {:induction false} SumOfPick(m: map<Owner, int>, keys: set<Owner>, k: Owner)
    requires k in keys
    ensures SumOf(m, keys) == Get(m, k) + SumOf(m, keys - {k})
  {
    var j :| j in keys && SumOf(m, keys) == Get(m, j) + SumOf(m, keys - {j});
    if j != k {
      SumOfPick(m, keys - {j}, k);
      SumOfPick(m, keys - {k}, j);
      assert keys - {j} - {k} == keys - {k} - {j};
    }
  }

  lemma {:induction false} SumOfSame(m: map<Owner, int>, n: map<Owner, int>, keys: set<Owner>)
    requires forall k | k in keys :: Get(m, k) == Get(n, k)
    ensures SumOf(m, keys) == SumOf(n, keys)
  {
    if keys != {} {
      var k :| k in keys;
      SumOfPick(m, keys, k);
      SumOfPick(n, keys, k);
      SumOfSame(m, n, keys - {k});
    }
  }

  ghost function Sum(m: map<Owner, int>): int {
    SumOf(m, m.Keys)
  }

  /** Storing one balance changes the sum by that balance's own change. */
  lemma SumAfterStore(m: map<Owner, int>, owner: Owner, value: int)
    ensures Sum(m[owner := value]) == Sum(m) - Get(m, owner) + value
  {
    var n, rest := m[owner := value], m.Keys - {owner};
    SumOfPick(n, n.Keys, owner);
    assert n.Keys - {owner} == rest;
    SumOfSame(n, m, rest);
    if owner in m { SumOfPick(m, m.Keys, owner); } else { assert rest == m.Keys; }
  }

  lemma {:induction false} PartOfSum(m: map<Owner, int>, keys: set<Owner>, owner: Owner)
    requires forall k | k in keys :: Get(m, k) >= 0
    ensures 0 <= SumOf(m, keys) && (owner in keys ==> Get(m, owner) <= SumOf(m, keys))
  {
    if keys != {} {
      var k := if owner in keys then owner else var j :| j in keys; j;
      SumOfPick(m, keys, k);
      PartOfSum(m, keys - {k}, owner);
    }
  }

  datatype Kind = Liquid | Principal | Supply

  function Amount(x: Series, kind: Kind): int {
    match kind
    case Liquid => x.liquid
    case Principal => x.principal
    case Supply => x.supply
  }

  function SumTo(book: seq<Series>, n: nat, kind: Kind): int
    requires n <= |book|
  {
    if n == 0 then 0 else SumTo(book, n - 1, kind) + Amount(book[n - 1], kind)
  }

  lemma {:induction false} SumToUpdate(book: seq<Series>, n: nat, k: nat, x: Series, kind: Kind)
    requires n <= |book| && k < |book|
    ensures SumTo(book[k := x], n, kind)
         == SumTo(book, n, kind) + if k < n then Amount(x, kind) - Amount(book[k], kind) else 0
  {
    if n > 0 { SumToUpdate(book, n - 1, k, x, kind); }
  }

  lemma {:induction false} SumToAppend(book: seq<Series>, n: nat, x: Series, kind: Kind)
    requires n <= |book|
    ensures SumTo(book + [x], n, kind) == SumTo(book, n, kind)
  {
    if n > 0 { SumToAppend(book, n - 1, x, kind); }
  }

  lemma {:induction false} SumToSplit(first: Series, others: seq<Series>, n: nat, kind: Kind)
    requires n <= |others|
    ensures SumTo([first] + others, n + 1, kind) == Amount(first, kind) + SumTo(others, n, kind)
  {
    if n > 0 { SumToSplit(first, others, n - 1, kind); }
  }

  // ----- What every series keeps -----

  /** The principal of a series is within its share of the cap. */
  predicate WithinCap(x: Series, bps: int) {
    x.principal * BPS <= Assets(x) * bps
  }

  ghost predicate AccountsOk(x: Series) {
    && (forall o | o in x.shares :: x.shares[o] >= 0)
    && (forall o: Owner :: 0 <= Get(x.pending, o) <= Get(x.shares, o))
    && x.supply == Sum(x.shares) && x.pendingTotal == Sum(x.pending)
  }

  ghost predicate SeriesOk(x: Series, bps: int) {
    && x.liquid >= 0 && x.principal >= 0 && x.supply >= 0
    && (x.supply == 0 ==> x.principal == 0)
    && WithinCap(x, bps) && AccountsOk(x)
  }

  /** No assets without an owner; in series 0 a plain token transfer can leave some. */
  predicate Owned(x: Series, s: nat) {
    s > 0 && x.supply == 0 ==> x.liquid == 0
  }

  ghost predicate BookOk(book: seq<Series>, bps: int) {
    && 0 < bps <= MAX_ALLOCATION_BPS
    && forall k | 0 <= k < |book| :: SeriesOk(book[k], bps) && Owned(book[k], k)
  }

  lemma BlankOk(x: Series, bps: int)
    requires x == Blank()
    ensures SeriesOk(x, bps) && x.principal == 0 && Amount(x, Liquid) == Amount(x, Supply) == 0
  {
    assert x.shares.Keys == {} && x.pending.Keys == {};
  }

  lemma BookExtended(book: seq<Series>, x: Series, bps: int)
    requires BookOk(book, bps) && SeriesOk(x, bps) && Owned(x, |book|)
    ensures BookOk(book + [x], bps)
  {
  }

  lemma BookStored(book: seq<Series>, s: nat, x: Series, bps: int)
    requires BookOk(book, bps) && s < |book| && SeriesOk(x, bps) && Owned(x, s)
    ensures BookOk(book[s := x], bps)
  {
  }

  /** Caps of the series add up to the cap of the vault. */
  lemma {:induction false} CapsAdd(book: seq<Series>, n: nat, bps: int)
    requires n <= |book| && forall k | 0 <= k < n :: WithinCap(book[k], bps)
    ensures SumTo(book, n, Principal) * BPS <= (SumTo(book, n, Liquid) + SumTo(book, n, Principal)) * bps
  {
    if n > 0 {
      CapsAdd(book, n - 1, bps);
      var liquid, principal, x := SumTo(book, n - 1, Liquid), SumTo(book, n - 1, Principal), book[n - 1];
      assert (liquid + principal + Assets(x)) * bps == (liquid + principal) * bps + Assets(x) * bps;
    }
  }

  /** `cap`: the most principal some assets may back. */
  function Cap(assets: int, bps: int): int {
    if assets < 0 || bps < 0 then 0 else assets * bps / BPS
  }

  function TotalOf(book: seq<Series>, kind: Kind): int {
    SumTo(book, |book|, kind)
  }

  /** The principal out is at most the vault-wide cap, whatever the series did. */
  lemma VaultWithinCap(book: seq<Series>, bps: int)
    requires BookOk(book, bps)
    ensures TotalOf(book, Principal) <= Cap(TotalOf(book, Liquid) + TotalOf(book, Principal), bps)
  {
    CapsAdd(book, |book|, bps);
    SumsNonNegative(book, |book|, bps);
    var total := TotalOf(book, Liquid) + TotalOf(book, Principal);
    MulMonotone(0, total, bps);
    AtMostQuotient(TotalOf(book, Principal), total * bps, BPS);
  }

  lemma {:induction false} SumsNonNegative(book: seq<Series>, n: nat, bps: int)
    requires n <= |book| && BookOk(book, bps)
    ensures SumTo(book, n, Liquid) >= 0 && SumTo(book, n, Principal) >= 0
  {
    if n > 0 { SumsNonNegative(book, n - 1, bps); }
  }

  predicate SeriesGuard(x: Series, amount: int, bps: int) {
    x.principal + amount <= Cap(Assets(x), bps)
  }

  predicate VaultGuard(book: seq<Series>, amount: int, bps: int) {
    TotalOf(book, Principal) + amount <= Cap(TotalOf(book, Liquid) + TotalOf(book, Principal), bps)
  }

  function AfterAllocate(x: Series, amount: int): Series {
    x.(principal := x.principal + amount, liquid := x.liquid - amount)
  }

  function AfterSettle(x: Series, principal: int, returned: int): Series {
    x.(principal := x.principal - principal, liquid := x.liquid + returned)
  }

  lemma AllocateKeeps(x: Series, amount: int, bps: int)
    requires SeriesOk(x, bps) && 0 < bps && x.supply != 0 && 0 < amount <= x.liquid && SeriesGuard(x, amount, bps)
    ensures SeriesOk(AfterAllocate(x, amount), bps)
  {
    AtMostQuotient(x.principal + amount, Assets(x) * bps, BPS);
  }

  /** Whatever comes back, nothing at all included, a settlement leaves the series within its cap. */
  lemma SettleKeeps(x: Series, principal: int, returned: int, bps: int)
    requires SeriesOk(x, bps) && 0 < bps <= BPS && 0 < principal <= x.principal && returned >= 0
    ensures SeriesOk(AfterSettle(x, principal, returned), bps)
  {
    var y := AfterSettle(x, principal, returned);
    assert y.principal * BPS == x.principal * BPS - principal * BPS;
    assert Assets(y) * bps == Assets(x) * bps - principal * bps + returned * bps;
    MulMonotone(bps, BPS, principal);
    MulMonotone(0, returned, bps);
  }

  /** The vault-wide guard of `allocate` never rejects what the guard of the series accepts. */
  lemma SeriesGuardSuffices(book: seq<Series>, s: nat, amount: int, bps: int)
    requires BookOk(book, bps) && s < |book| && book[s].supply != 0
    requires 0 < amount <= book[s].liquid && SeriesGuard(book[s], amount, bps)
    ensures VaultGuard(book, amount, bps)
  {
    var after := book[s := AfterAllocate(book[s], amount)];
    AllocateKeeps(book[s], amount, bps);
    SumToUpdate(book, |book|, s, after[s], Principal);
    SumToUpdate(book, |book|, s, after[s], Liquid);
    VaultWithinCap(after, bps);
  }

  // ----- Shares -----

  function AfterMint(x: Series, owner: Owner, amount: int, minted: int): Series {
    x.(liquid := x.liquid + amount, supply := x.supply + minted,
       shares := x.shares[owner := Get(x.shares, owner) + minted])
  }

  function AfterBurn(x: Series, owner: Owner, burned: int, paid: int): Series {
    x.(liquid := x.liquid - paid, supply := x.supply - burned,
       shares := x.shares[owner := Get(x.shares, owner) - burned])
  }

  function AfterRequest(x: Series, owner: Owner, delta: int): Series {
    x.(pending := x.pending[owner := Get(x.pending, owner) + delta], pendingTotal := x.pendingTotal + delta)
  }

  lemma MintKeeps(x: Series, owner: Owner, amount: int, minShares: int, bps: int)
    requires SeriesOk(x, bps) && 0 < bps && x.principal == 0 && Minted(PoolOf(x), amount, minShares).Some?
    ensures var minted := Minted(PoolOf(x), amount, minShares).value;
            SeriesOk(AfterMint(x, owner, amount, minted), bps) && minted > 0
  {
    var minted := Minted(PoolOf(x), amount, minShares).value;
    if x.supply != 0 {
      MulMonotone(0, amount, x.supply);
      AtMostQuotient(0, amount * x.supply, Assets(x));
    }
    SumAfterStore(x.shares, owner, Get(x.shares, owner) + minted);
    MulMonotone(0, x.liquid + amount, bps);
  }

  lemma RequestKeeps(x: Series, owner: Owner, delta: int, bps: int)
    requires SeriesOk(x, bps) && -Get(x.pending, owner) <= delta <= Get(x.shares, owner) - Get(x.pending, owner)
    ensures SeriesOk(AfterRequest(x, owner, delta), bps)
  {
    SumAfterStore(x.pending, owner, Get(x.pending, owner) + delta);
  }

  /** No owner holds more than the supply. */
  lemma HeldWithinSupply(x: Series, owner: Owner, bps: int)
    requires SeriesOk(x, bps)
    ensures 0 <= Get(x.shares, owner) <= x.supply
  {
    PartOfSum(x.shares, x.shares.Keys, owner);
  }

  lemma BurnKeeps(x: Series, owner: Owner, burned: int, minAssets: int, bps: int)
    requires SeriesOk(x, bps) && 0 < bps && x.principal == 0
    requires burned <= Get(x.shares, owner) - Get(x.pending, owner)
    requires Redeemed(PoolOf(x), burned, minAssets).Some?
    ensures var paid := Redeemed(PoolOf(x), burned, minAssets).value;
            && SeriesOk(AfterBurn(x, owner, burned, paid), bps) && 0 <= paid <= x.liquid
            && (burned == x.supply ==> paid == x.liquid)
  {
    var paid := Redeemed(PoolOf(x), burned, minAssets).value;
    HeldWithinSupply(x, owner, bps);
    PaidWithinAssets(PoolOf(x), burned, minAssets);
    SumAfterStore(x.shares, owner, Get(x.shares, owner) - burned);
    MulMonotone(0, x.liquid - paid, bps);
  }

  lemma PaidWithinAssets(p: Pool, burned: int, minAssets: int)
    requires Sound(p) && burned <= p.shares && Redeemed(p, burned, minAssets).Some?
    ensures 0 <= Redeemed(p, burned, minAssets).value <= p.assets
  {
    if burned != p.shares {
      MulMonotone(0, burned, p.assets);
      MulMonotone(burned, p.shares, p.assets);
      AtMostQuotient(0, burned * p.assets, p.shares);
      AtMostQuotient(p.assets + 1, burned * p.assets, p.shares);
    }
  }

  /** A claim pays the requested shares and forgets the request. */
  function AfterClaim(x: Series, owner: Owner, paid: int): Series {
    AfterRequest(AfterBurn(x, owner, Get(x.pending, owner), paid), owner, -Get(x.pending, owner))
  }

  lemma ClaimKeeps(x: Series, owner: Owner, minAssets: int, bps: int)
    requires SeriesOk(x, bps) && 0 < bps && x.principal == 0
    requires Redeemed(PoolOf(x), Get(x.pending, owner), minAssets).Some?
    ensures var paid := Redeemed(PoolOf(x), Get(x.pending, owner), minAssets).value;
            && SeriesOk(AfterClaim(x, owner, paid), bps)
            && (Get(x.pending, owner) == x.supply ==> paid == x.liquid)
  {
    var pending := Get(x.pending, owner);
    RequestKeeps(x, owner, -pending, bps);
    BurnKeeps(AfterRequest(x, owner, -pending), owner, pending, minAssets, bps);
  }

  /** With no shares and no principal anywhere, only series 0 can hold assets. */
  lemma {:induction false} NothingOwned(book: seq<Series>, n: nat, bps: int)
    requires n <= |book| && BookOk(book, bps) && SumTo(book, n, Supply) <= 0
    ensures SumTo(book, n, Supply) == 0 && forall k | 0 < k < n :: book[k].liquid == 0
  {
    if n > 0 {
      SupplyNonNegative(book, n - 1, bps);
      NothingOwned(book, n - 1, bps);
    }
  }

  lemma {:induction false} SupplyNonNegative(book: seq<Series>, n: nat, bps: int)
    requires n <= |book| && BookOk(book, bps)
    ensures SumTo(book, n, Supply) >= 0
  {
    if n > 0 { SupplyNonNegative(book, n - 1, bps); }
  }

  lemma {:induction false} OnlyLegacy(book: seq<Series>, n: nat)
    requires 0 < n <= |book| && forall k | 0 < k < n :: book[k].liquid == 0
    ensures SumTo(book, n, Liquid) == book[0].liquid
  {
    if n > 1 { OnlyLegacy(book, n - 1); }
  }

  lemma {:induction false} NothingDeployed(book: seq<Series>, n: nat, bps: int)
    requires n <= |book| && BookOk(book, bps) && SumTo(book, n, Principal) <= 0
    ensures forall k | 0 <= k < n :: book[k].principal == 0
  {
    if n > 0 {
      SumsNonNegative(book, n - 1, bps);
      NothingDeployed(book, n - 1, bps);
    }
  }

  // ----- Assets per share -----

  /** Deposits and payouts of the contract are the steps of a pool, and never lower what a share is worth. */
  lemma SharesKeepPrice(x: Series, owner: Owner, amount: int, minShares: int, burned: int, minAssets: int)
    requires Funded(PoolOf(x))
    ensures var p := PoolOf(x);
      && (Minted(p, amount, minShares).Some? ==>
            PriceNotLower(p, PoolOf(AfterMint(x, owner, amount, Minted(p, amount, minShares).value))))
      && (burned <= x.supply && Redeemed(p, burned, minAssets).Some? ==>
            PriceNotLower(p, PoolOf(AfterBurn(x, owner, burned, Redeemed(p, burned, minAssets).value))))
  {
    var p := PoolOf(x);
    if Minted(p, amount, minShares).Some? {
      DepositKeepsPrice(p, amount, minShares);
      var minted := Minted(p, amount, minShares).value;
      assert PoolOf(AfterMint(x, owner, amount, minted)) == AfterDeposit(p, amount, minted);
    }
    if burned <= x.supply && Redeemed(p, burned, minAssets).Some? {
      RedeemKeepsPrice(p, burned, minAssets);
      var paid := Redeemed(p, burned, minAssets).value;
      assert PoolOf(AfterBurn(x, owner, burned, paid)) == AfterRedeem(p, burned, paid);
    }
  }

  /** Lending leaves the price alone; a settlement lowers it exactly when less comes back than was lent. */
  lemma LendingAndPrice(x: Series, amount: int, principal: int, returned: int)
    requires x.supply > 0
    ensures PoolOf(AfterAllocate(x, amount)) == PoolOf(x)
    ensures PriceNotLower(PoolOf(x), PoolOf(AfterSettle(x, principal, returned))) <==> returned >= principal
  {
    var change := returned - principal;
    assert Assets(AfterSettle(x, principal, returned)) == Assets(x) + change;
    assert (Assets(x) + change) * x.supply == Assets(x) * x.supply + change * x.supply;
    if change >= 0 { MulMonotone(0, change, x.supply); } else { MulStrict(change, 0, x.supply); }
  }
}
