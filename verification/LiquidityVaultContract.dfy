/** The storage and the calls of the liquidity-vault contract (contracts/liquidity-vault/src/lib.rs). */
module LiquidityVaultContract {
  import opened Common
  import opened ShareMath
  import opened LiquidityVault

  function Available(x: Series, owner: Owner): int {
    Get(x.shares, owner) - Get(x.pending, owner)
  }

  predicate CanDeposit(x: Series, amount: int, minShares: int) {
    Minted(PoolOf(x), amount, minShares).Some?
  }

  predicate CanWithdraw(x: Series, owner: Owner, shares: int, minAssets: int) {
    x.principal == 0 && shares <= Available(x, owner) && Redeemed(PoolOf(x), shares, minAssets).Some?
  }

  predicate CanClaim(x: Series, owner: Owner, minAssets: int) {
    x.principal == 0 && Redeemed(PoolOf(x), Get(x.pending, owner), minAssets).Some?
  }

  /** Only the guards of the series itself: the vault-wide cap follows from them. */
  predicate CanAllocate(x: Series, amount: int, bps: int) {
    amount > 0 && x.supply != 0 && x.pendingTotal == 0 && SeriesGuard(x, amount, bps) && amount <= x.liquid
  }

  /** The calls of the contract, and a token transfer to it; `funds` is the token balance of whoever pays. */
  datatype Call =
    | SetPause(paused: bool)
    | Limit(bps: int)
    | Receive(amount: int)
    | Recover
    | DepositCall(owner: Owner, series: nat, amount: int, minShares: int, funds: int)
    | WithdrawCall(owner: Owner, series: nat, shares: int, minAssets: int)
    | Request(owner: Owner, series: nat, shares: int)
    | Cancel(owner: Owner, series: nat, shares: int)
    | Claim(owner: Owner, series: nat, minAssets: int)
    | Lend(series: nat, amount: int)
    | Return(series: nat, principal: int, returned: int, funds: int)
    | Lose(series: nat, principal: int)

  class Vault {
    /** The contract's token balance; the liquid assets of series 0 are what the other series do not own. */
    var balance: int
    var paused: bool
    var limitBps: int
    /** Series 0, whose `liquid` field is not stored. */
    var legacy: Series
    /** Series 1 and later. */
    var later: seq<Series>
    var otherLiquid: int
    var otherPrincipal: int
    var otherShares: int

    function SeriesAt(s: nat): Series
      requires s <= |later|
      reads this
    {
      if s == 0 then legacy.(liquid := balance - otherLiquid) else later[s - 1]
    }

    /** Every series, as the contract's readers report it. */
    ghost function Book(): (book: seq<Series>)
      reads this
      ensures |book| == |later| + 1 && forall s | 0 <= s < |book| :: book[s] == SeriesAt(s)
    {
      [SeriesAt(0)] + later
    }

    /** The running totals are the sums they stand for, and every series is sound. */
    ghost predicate Valid()
      reads this
    {
      && otherLiquid == SumTo(later, |later|, Liquid)
      && otherPrincipal == SumTo(later, |later|, Principal)
      && otherShares == SumTo(later, |later|, Supply)
      && BookOk(Book(), limitBps)
    }

    function DeployedPrincipal(): int
      reads this
    {
      legacy.principal + otherPrincipal
    }

    function TotalShares(): int
      reads this
    {
      legacy.supply + otherShares
    }

    function TotalAssets(): int
      reads this
    {
      balance + DeployedPrincipal()
    }

    /** The incremental totals report what summing over all series would. */
    lemma TotalsAreSums()
      requires Valid()
      ensures balance == TotalOf(Book(), Liquid) && DeployedPrincipal() == TotalOf(Book(), Principal)
      ensures TotalShares() == TotalOf(Book(), Supply)
    {
      SumToSplit(SeriesAt(0), later, |later|, Liquid);
      SumToSplit(SeriesAt(0), later, |later|, Principal);
      SumToSplit(SeriesAt(0), later, |later|, Supply);
    }

    /** In every reachable state the principal out is within the vault's cap on total assets. */
    lemma DeployedWithinCap()
      requires Valid()
      ensures DeployedPrincipal() <= Cap(TotalAssets(), limitBps)
    {
      TotalsAreSums();
      VaultWithinCap(Book(), limitBps);
    }

    constructor (allocationLimitBps: int)
      requires 0 < allocationLimitBps <= MAX_ALLOCATION_BPS
      ensures Valid() && Book() == [Blank()] && paused && limitBps == allocationLimitBps
    {
      balance, paused, limitBps := 0, true, allocationLimitBps;
      legacy, later := Blank(), [];
      otherLiquid, otherPrincipal, otherShares := 0, 0, 0;
      new;
      BlankOk(Blank(), limitBps);
      assert Book() == [Blank()];
    }

    /** `set_series_*` and the token transfer of one call: series s becomes x. */
    method Store(s: nat, x: Series)
      requires Valid() && s <= |later| && SeriesOk(x, limitBps) && LiquidityVault.Owned(x, s)
      modifies this`balance, this`legacy, this`later, this`otherLiquid, this`otherPrincipal, this`otherShares
      ensures Valid() && Book() == old(Book())[s := x]
      ensures balance == old(balance) + x.liquid - old(SeriesAt(s)).liquid
    {
      BookStored(Book(), s, x, limitBps);
      balance := balance + x.liquid - SeriesAt(s).liquid;
      if s == 0 {
        legacy := x;
      } else {
        SumToUpdate(later, |later|, s - 1, x, Liquid);
        SumToUpdate(later, |later|, s - 1, x, Principal);
        SumToUpdate(later, |later|, s - 1, x, Supply);
        otherLiquid := otherLiquid + x.liquid - later[s - 1].liquid;
        otherPrincipal := otherPrincipal + x.principal - later[s - 1].principal;
        otherShares := otherShares + x.supply - later[s - 1].supply;
        later := later[s - 1 := x];
      }
      assert Book() == old(Book())[s := x];
    }

    /** A token transfer to the contract outside any call lands in series 0. */
    method Donate(amount: int)
      requires Valid() && amount >= 0
      modifies this`balance
      ensures Valid() && balance == old(balance) + amount
      ensures Book() == old(Book())[0 := old(SeriesAt(0)).(liquid := old(SeriesAt(0)).liquid + amount)]
    {
      ghost var x := SeriesAt(0);
      MulMonotone(Assets(x), Assets(x) + amount, limitBps);
      BookStored(Book(), 0, x.(liquid := x.liquid + amount), limitBps);
      balance := balance + amount;
      assert Book() == old(Book())[0 := x.(liquid := x.liquid + amount)];
    }

    /** A deposit into a series that does not exist yet makes it current. */
    method OpenSeries(x: Series)
      requires Valid() && x == Blank()
      modifies this`later
      ensures Valid() && Book() == old(Book()) + [x]
    {
      SumToAppend(later, |later|, x, Liquid);
      SumToAppend(later, |later|, x, Principal);
      SumToAppend(later, |later|, x, Supply);
      BlankOk(x, limitBps);
      BookExtended(Book(), x, limitBps);
      later := later + [x];
      assert Book() == old(Book()) + [x];
    }

    method SetPaused(value: bool)
      requires Valid()
      modifies this`paused
      ensures Valid() && paused == value
    {
      paused := value;
    }

    method SetAllocationLimit(bps: int) returns (r: Result<int>)
      requires Valid()
      modifies this`limitBps
      ensures Valid()
      ensures r.Ok? <==> old(paused) && old(DeployedPrincipal()) == 0 && 0 < bps <= MAX_ALLOCATION_BPS
      ensures limitBps == if r.Ok? then bps else old(limitBps)
    {
      if !paused || DeployedPrincipal() != 0 { return Err("vault must be settled and paused"); }
      if bps <= 0 || bps > MAX_ALLOCATION_BPS { return Err("invalid allocation limit"); }
      TotalsAreSums();
      NothingDeployed(Book(), |Book()|, limitBps);
      forall k | 0 <= k < |Book()| ensures SeriesOk(Book()[k], bps) {
        MulMonotone(0, Assets(Book()[k]), bps);
      }
      limitBps := bps;
      return Ok(0);
    }

    /** Unowned tokens may be taken out only when there is no other owner: never another series' assets. */
    method RecoverUnowned() returns (r: Result<int>)
      requires Valid()
      modifies this`balance
      ensures Valid()
      ensures r.Ok? <==> old(TotalShares()) == 0 && old(DeployedPrincipal()) == 0
      ensures r.Err? ==> balance == old(balance)
      ensures r.Ok? ==> r.value == old(SeriesAt(0)).liquid && balance == 0
      ensures r.Ok? ==> Book() == old(Book())[0 := old(SeriesAt(0)).(liquid := 0)]
    {
      if TotalShares() != 0 || DeployedPrincipal() != 0 { return Err("shares outstanding"); }
      TotalsAreSums();
      NothingOwned(Book(), |Book()|, limitBps);
      NothingDeployed(Book(), |Book()|, limitBps);
      OnlyLegacy(Book(), |Book()|);
      BookStored(Book(), 0, SeriesAt(0).(liquid := 0), limitBps);
      r := Ok(balance);
      balance := 0;
      assert Book() == old(Book())[0 := old(SeriesAt(0)).(liquid := 0)];
    }

    /** `deposit_series`: the current series, or the next one once the current one has principal out. */
    function DepositSeries(): nat
      reads this
    {
      if SeriesAt(|later|).principal == 0 then |later| else |later| + 1
    }

    /** The series a deposit goes to; not stored yet when it opens the next one. */
    function Target(s: nat): Series
      reads this
    {
      if s <= |later| then SeriesAt(s) else Blank()
    }

    method Mint(s: nat, x: Series, from: Owner, amount: int, minShares: int) returns (minted: int)
      requires Valid() && s < |Book()| && Book()[s] == x && x.principal == 0 && CanDeposit(x, amount, minShares)
      modifies this`balance, this`legacy, this`later, this`otherLiquid, this`otherPrincipal, this`otherShares
      ensures Valid() && Minted(PoolOf(x), amount, minShares) == Some(minted)
      ensures Book() == old(Book())[s := AfterMint(x, from, amount, minted)]
    {
      minted := Minted(PoolOf(x), amount, minShares).value;
      MintKeeps(x, from, amount, minShares, limitBps);
      Store(s, AfterMint(x, from, amount, minted));
    }

    method MintNext(x: Series, from: Owner, amount: int, minShares: int) returns (minted: int)
      requires Valid() && x == Blank() && CanDeposit(x, amount, minShares)
      modifies this`balance, this`legacy, this`later, this`otherLiquid, this`otherPrincipal, this`otherShares
      ensures Valid() && Minted(PoolOf(x), amount, minShares) == Some(minted)
      ensures Book() == old(Book()) + [AfterMint(x, from, amount, minted)]
    {
      OpenSeries(x);
      minted := Mint(|later|, x, from, amount, minShares);
    }

    /** What a deposit of s goes to, and the book once it holds y instead. */
    ghost function With(s: nat, y: Series): seq<Series>
      reads this
    {
      if s <= |later| then Book()[s := y] else Book() + [y]
    }

    /** The depositor pays out of this many tokens. */
    method Deposit(from: Owner, s: nat, amount: int, minShares: int, funds: int) returns (r: Result<int>)
      requires Valid()
      modifies this
      ensures Valid() && limitBps == old(limitBps) && paused == old(paused)
      ensures r.Ok? <==> !old(paused) && s == old(DepositSeries())
                         && CanDeposit(old(Target(s)), amount, minShares) && amount <= funds
      ensures r.Err? ==> Book() == old(Book())
      ensures r.Ok? ==> Minted(PoolOf(old(Target(s))), amount, minShares) == Some(r.value)
      ensures r.Ok? ==> Book() == old(With(s, AfterMint(Target(s), from, amount, r.value)))
    {
      if paused || s != DepositSeries() { return Err("vault paused"); }
      var x := Target(s);
      if !CanDeposit(x, amount, minShares) { return Err("insufficient shares"); }
      if amount > funds { return Err("insufficient token balance"); }
      var minted;
      if s > |later| {
        minted := MintNext(x, from, amount, minShares);
      } else {
        minted := Mint(s, x, from, amount, minShares);
      }
      return Ok(minted);
    }

    method Withdraw(owner: Owner, s: nat, shares: int, minAssets: int) returns (r: Result<int>)
      requires Valid()
      modifies this
      ensures Valid() && limitBps == old(limitBps) && paused == old(paused)
      ensures r.Ok? <==> s <= old(|later|) && CanWithdraw(old(SeriesAt(s)), owner, shares, minAssets)
      ensures r.Err? ==> Book() == old(Book())
      ensures r.Ok? ==>
        var x := old(SeriesAt(s));
        Redeemed(PoolOf(x), shares, minAssets) == Some(r.value) &&
        Book() == old(Book())[s := AfterBurn(x, owner, shares, r.value)]
    {
      if s > |later| { return Err("unknown series"); }
      var x := SeriesAt(s);
      if shares > Available(x, owner) { return Err("shares requested for withdrawal"); }
      if x.principal != 0 { return Err("allocation outstanding"); }
      var paid := Redeemed(PoolOf(x), shares, minAssets);
      if paid.None? { return Err("insufficient assets"); }
      BurnKeeps(x, owner, shares, minAssets, limitBps);
      Store(s, AfterBurn(x, owner, shares, paid.value));
      return Ok(paid.value);
    }

    method RequestWithdraw(owner: Owner, s: nat, shares: int) returns (r: Result<int>)
      requires Valid()
      modifies this
      ensures Valid() && limitBps == old(limitBps) && paused == old(paused) && balance == old(balance)
      ensures r.Ok? <==> s <= old(|later|) && 0 < shares <= Available(old(SeriesAt(s)), owner)
      ensures Book() == if r.Ok? then old(Book())[s := AfterRequest(old(SeriesAt(s)), owner, shares)] else old(Book())
    {
      if s > |later| { return Err("unknown series"); }
      var x := SeriesAt(s);
      if shares <= 0 || shares > Available(x, owner) { return Err("insufficient shares"); }
      RequestKeeps(x, owner, shares, limitBps);
      Store(s, AfterRequest(x, owner, shares));
      return Ok(0);
    }

    method CancelWithdrawRequest(owner: Owner, s: nat, shares: int) returns (r: Result<int>)
      requires Valid()
      modifies this
      ensures Valid() && limitBps == old(limitBps) && paused == old(paused) && balance == old(balance)
      ensures r.Ok? <==> s <= old(|later|) && 0 < shares <= Get(old(SeriesAt(s)).pending, owner)
      ensures Book() == if r.Ok? then old(Book())[s := AfterRequest(old(SeriesAt(s)), owner, -shares)] else old(Book())
    {
      if s > |later| { return Err("unknown series"); }
      var x := SeriesAt(s);
      if shares <= 0 || shares > Get(x.pending, owner) { return Err("insufficient pending shares"); }
      RequestKeeps(x, owner, -shares, limitBps);
      Store(s, AfterRequest(x, owner, -shares));
      return Ok(0);
    }

    method ClaimWithdrawal(owner: Owner, s: nat, minAssets: int) returns (r: Result<int>)
      requires Valid()
      modifies this
      ensures Valid() && limitBps == old(limitBps) && paused == old(paused)
      ensures r.Ok? <==> s <= old(|later|) && CanClaim(old(SeriesAt(s)), owner, minAssets)
      ensures r.Err? ==> Book() == old(Book())
      ensures r.Ok? ==>
        var x := old(SeriesAt(s));
        Redeemed(PoolOf(x), Get(x.pending, owner), minAssets) == Some(r.value) &&
        Book() == old(Book())[s := AfterClaim(x, owner, r.value)]
    {
      if s > |later| { return Err("unknown series"); }
      var x := SeriesAt(s);
      if x.principal != 0 { return Err("allocation outstanding"); }
      var pending := Get(x.pending, owner);
      var paid := Redeemed(PoolOf(x), pending, minAssets);
      if paid.None? { return Err("insufficient assets"); }
      ClaimKeeps(x, owner, minAssets, limitBps);
      Store(s, AfterClaim(x, owner, paid.value));
      return Ok(paid.value);
    }

    method Allocate(s: nat, amount: int) returns (r: Result<int>)
      requires Valid()
      modifies this
      ensures Valid() && limitBps == old(limitBps) && paused == old(paused)
      ensures r.Ok? <==> s <= old(|later|) && CanAllocate(old(SeriesAt(s)), amount, limitBps)
      ensures Book() == if r.Ok? then old(Book())[s := AfterAllocate(old(SeriesAt(s)), amount)] else old(Book())
    {
      if s > |later| || amount <= 0 || SeriesAt(s).supply == 0 || SeriesAt(s).pendingTotal != 0 {
        return Err("allocation unavailable");
      }
      var x := SeriesAt(s);
      TotalsAreSums();
      if SeriesGuard(x, amount, limitBps) && amount <= x.liquid {
        SeriesGuardSuffices(Book(), s, amount, limitBps);
      }
      if DeployedPrincipal() + amount > Cap(TotalAssets(), limitBps) ||
         x.principal + amount > Cap(Assets(x), limitBps) || amount > x.liquid {
        return Err("allocation exceeds limit");
      }
      AllocateKeeps(x, amount, limitBps);
      Store(s, AfterAllocate(x, amount));
      return Ok(0);
    }

    /** The maker pays what is returned out of this many tokens. */
    method Settle(s: nat, principal: int, returned: int, funds: int) returns (r: Result<int>)
      requires Valid()
      modifies this
      ensures Valid() && limitBps == old(limitBps) && paused == old(paused)
      ensures r.Ok? <==> s <= old(|later|) && 0 < principal <= old(SeriesAt(s)).principal && 0 < returned <= funds
      ensures Book() == if r.Ok? then old(Book())[s := AfterSettle(old(SeriesAt(s)), principal, returned)] else old(Book())
    {
      if s > |later| { return Err("unknown series"); }
      var x := SeriesAt(s);
      if principal <= 0 || principal > x.principal || returned <= 0 { return Err("invalid settlement"); }
      if returned > funds { return Err("insufficient token balance"); }
      SettleKeeps(x, principal, returned, limitBps);
      Store(s, AfterSettle(x, principal, returned));
      return Ok(0);
    }

    method RecordLoss(s: nat, principal: int) returns (r: Result<int>)
      requires Valid()
      modifies this
      ensures Valid() && limitBps == old(limitBps) && paused == old(paused) && balance == old(balance)
      ensures r.Ok? <==> s <= old(|later|) && 0 < principal <= old(SeriesAt(s)).principal
      ensures Book() == if r.Ok? then old(Book())[s := AfterSettle(old(SeriesAt(s)), principal, 0)] else old(Book())
    {
      if s > |later| { return Err("unknown series"); }
      var x := SeriesAt(s);
      if principal <= 0 || principal > x.principal { return Err("invalid loss"); }
      SettleKeeps(x, principal, 0, limitBps);
      Store(s, AfterSettle(x, principal, 0));
      return Ok(0);
    }

    // ----- Runs -----

    /** One call; a call that panics changes nothing. */
    method Perform(call: Call)
      requires Valid()
      modifies this
      ensures Valid() && |later| >= old(|later|)
    {
      var r: Result<int>;
      match call
      case SetPause(value) => SetPaused(value);
      case Limit(bps) => r := SetAllocationLimit(bps);
      case Receive(amount) => if amount >= 0 { Donate(amount); }
      case Recover => r := RecoverUnowned();
      case DepositCall(owner, s, amount, minShares, funds) => r := Deposit(owner, s, amount, minShares, funds);
      case WithdrawCall(owner, s, shares, minAssets) => r := Withdraw(owner, s, shares, minAssets);
      case Request(owner, s, shares) => r := RequestWithdraw(owner, s, shares);
      case Cancel(owner, s, shares) => r := CancelWithdrawRequest(owner, s, shares);
      case Claim(owner, s, minAssets) => r := ClaimWithdrawal(owner, s, minAssets);
      case Lend(s, amount) => r := Allocate(s, amount);
      case Return(s, principal, returned, funds) => r := Settle(s, principal, returned, funds);
      case Lose(s, principal) => r := RecordLoss(s, principal);
      assert |Book()| >= |old(Book())|;
    }

    /**
     Any sequence of calls from any reachable state: the totals stay the sums over all series,
     no series disappears, and the principal out stays within the cap, total losses included.
     */
    method Run(calls: seq<Call>)
      requires Valid()
      modifies this
      ensures Valid() && |later| >= old(|later|)
      ensures DeployedPrincipal() <= Cap(TotalAssets(), limitBps)
      ensures balance == TotalOf(Book(), Liquid) && DeployedPrincipal() == TotalOf(Book(), Principal)
      ensures TotalShares() == TotalOf(Book(), Supply)
    {
      for i := 0 to |calls|
        invariant Valid() && |later| >= old(|later|)
      {
        Perform(calls[i]);
      }
      DeployedWithinCap();
      TotalsAreSums();
    }
  }

  /** A new vault takes no deposit; once it is not paused any more, it takes every mintable one that is paid for. */
  method FirstDeposit(limitBps: int, from: Owner, amount: int, minShares: int, funds: int)
    returns (vault: Vault, refused: Result<int>, taken: Result<int>)
    requires 0 < limitBps <= MAX_ALLOCATION_BPS
    ensures fresh(vault) && vault.Valid() && refused.Err?
    ensures taken.Ok? <==> CanDeposit(Blank(), amount, minShares) && amount <= funds
    ensures taken.Ok? ==> vault.Book() == [AfterMint(Blank(), from, amount, taken.value)]
  {
    vault := new Vault(limitBps);
    assert vault.Target(0) == vault.Book()[0];
    refused := vault.Deposit(from, 0, amount, minShares, funds);
    vault.SetPaused(false);
    assert vault.Target(0) == vault.Book()[0];
    assert vault.DepositSeries() == 0;
    taken := vault.Deposit(from, 0, amount, minShares, funds);
    if taken.Ok? { assert vault.Book() == [AfterMint(Blank(), from, amount, taken.value)]; }
  }
}
