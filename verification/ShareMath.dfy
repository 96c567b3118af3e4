/**
 The arithmetic of one liquidity series: what a deposit mints and a redemption
 pays, in the contract (contracts/liquidity-vault/src/lib.rs) and as the client
 quotes it (client/src/lib/liquidity-vault.ts).
 */
module ShareMath {
  import opened Common

  /** Assets at cost and share supply of one series. */
  datatype Pool = Pool(assets: int, shares: int)

  predicate Sound(p: Pool) {
    p.assets >= 0 && p.shares >= 0
  }

  /** Shares exist exactly when assets do. */
  predicate Funded(p: Pool) {
    Sound(p) && (p.shares == 0 <==> p.assets == 0)
  }

  /** `mul_div_floor`: None where it panics. */
  function MulDivFloor(left: int, right: int, denominator: int): Option<int> {
    if left < 0 || right < 0 || denominator <= 0 then None else Some(left * right / denominator)
  }

  /** The shares `deposit` mints; None where the call panics. */
  function Minted(p: Pool, amount: int, minShares: int): Option<int> {
    if amount <= 0 || minShares < 0 then None
    else if p.shares == 0 && p.assets != 0 then None
    else if p.shares != 0 && p.assets <= 0 then None
    else
      var minted := if p.shares == 0 then Some(amount) else MulDivFloor(amount, p.shares, p.assets);
      if minted.None? || minted.value == 0 || minted.value < minShares then None else minted
  }

  /** The assets `redeem` pays for shares of a series with no principal out; None where it panics. */
  function Redeemed(p: Pool, shares: int, minAssets: int): Option<int> {
    if shares <= 0 || minAssets < 0 then None
    else
      var amount := if shares == p.shares then Some(p.assets) else MulDivFloor(shares, p.assets, p.shares);
      if amount.None? || (amount.value == 0 && p.assets > 0) || amount.value < minAssets then None else amount
  }

  function AfterDeposit(p: Pool, amount: int, minted: int): Pool {
    Pool(p.assets + amount, p.shares + minted)
  }

  function AfterRedeem(p: Pool, shares: int, paid: int): Pool {
    Pool(p.assets - paid, p.shares - shares)
  }

  // ----- The client's quotes -----

  datatype Quote = Quote(estimated: int, minimum: int)

  function MaxOne(value: int): int {
    if value > 0 then value else 1
  }

  function WithSlippage(estimated: int): int {
    TruncDiv(estimated * 995, 1000)
  }

  function QuoteDeposit(p: Pool, paused: bool, amount: int): Result<Quote> {
    if paused then Err("Deposits are not open right now")
    else if p.shares == 0 && p.assets != 0 then Err("Pool deposits are unavailable")
    else if p.shares > 0 && p.assets <= 0 then Err("Pool assets are unavailable")
    else
      var estimated := if p.shares == 0 then amount
                       else if p.assets == 0 then 0 // the source divides by zero and throws
                       else TruncDiv(amount * p.shares, p.assets);
      if estimated <= 0 then Err("Amount is too small to mint shares")
      else Ok(Quote(estimated, MaxOne(WithSlippage(estimated))))
  }

  function QuoteWithdraw(p: Pool, open: bool, available: int, amount: int): Result<Quote> {
    if !open then Err("Select a settled liquidity position")
    else if amount > available then Err("Amount exceeds available shares")
    else if p.shares <= 0 then Err("Pool has no shares")
    else
      var estimated := if amount == p.shares then p.assets else TruncDiv(amount * p.assets, p.shares);
      if estimated <= 0 then Err("Amount is too small to withdraw USDC")
      else Ok(Quote(estimated, MaxOne(WithSlippage(estimated))))
  }

  function QuoteClaim(p: Pool, open: bool, pending: int): Result<Quote> {
    if !open || pending <= 0 then Err("Withdrawal is not ready to claim")
    else if p.shares <= 0 then Err("Pool has no shares")
    else
      var estimated := TruncDiv(pending * p.assets, p.shares);
      Ok(Quote(estimated, if estimated > 0 then WithSlippage(estimated) else 0))
  }

  /** No quote asks for more than it estimates. */
  lemma SlippageLowers(estimated: int)
    requires estimated > 0
    ensures 0 <= WithSlippage(estimated) <= estimated && 1 <= MaxOne(WithSlippage(estimated)) <= estimated
  {
  }

  /** A quoted deposit, executed on the pool it was quoted for, mints exactly the estimate. */
  lemma QuotedDepositMints(p: Pool, amount: int)
    requires Sound(p) && QuoteDeposit(p, false, amount).Ok?
    ensures var q := QuoteDeposit(p, false, amount).value;
            0 < q.minimum <= q.estimated && Minted(p, amount, q.minimum) == Some(q.estimated)
  {
    SlippageLowers(QuoteDeposit(p, false, amount).value.estimated);
    if amount <= 0 { MulMonotone(amount, 0, p.shares); } else { MulMonotone(0, amount, p.shares); }
  }

  /** A quoted withdrawal, executed on the pool it was quoted for, pays exactly the estimate. */
  lemma {:induction false} QuotedWithdrawalPays(p: Pool, available: int, amount: int)
    requires Sound(p) && QuoteWithdraw(p, true, available, amount).Ok?
    ensures var q := QuoteWithdraw(p, true, available, amount).value;
            0 < q.minimum <= q.estimated && Redeemed(p, amount, q.minimum) == Some(q.estimated)
  {
    SlippageLowers(QuoteWithdraw(p, true, available, amount).value.estimated);
    if amount <= 0 { MulMonotone(amount, 0, p.assets); } else { MulMonotone(0, amount, p.assets); }
  }

  lemma WholeSupplyPaysAll(p: Pool)
    requires Sound(p) && p.shares > 0
    ensures p.shares * p.assets / p.shares == p.assets
  {
    QuotientUnique(p.shares * p.assets, p.shares, p.assets);
  }

  lemma ClaimEstimate(p: Pool, pending: int)
    requires Sound(p) && p.shares > 0 && pending > 0
    ensures var estimated := TruncDiv(pending * p.assets, p.shares);
      && estimated == pending * p.assets / p.shares >= 0
      && (estimated > 0 <==> pending * p.assets >= p.shares)
      && (pending == p.shares ==> estimated == p.assets)
  {
    MulMonotone(0, pending, p.assets);
    TruncIsFloor(pending * p.assets, p.shares);
    AtMostQuotient(0, pending * p.assets, p.shares);
    AtMostQuotient(1, pending * p.assets, p.shares);
    if pending == p.shares { WholeSupplyPaysAll(p); }
  }

  /** A quoted claim pays the estimate, exactly when that is not a payment of nothing out of something. */
  lemma {:induction false} QuotedClaimPays(p: Pool, pending: int)
    requires Sound(p) && QuoteClaim(p, true, pending).Ok?
    ensures var q := QuoteClaim(p, true, pending).value;
            && 0 <= q.minimum <= q.estimated
            && (Redeemed(p, pending, q.minimum).Some? <==> (pending * p.assets >= p.shares || p.assets == 0))
            && (Redeemed(p, pending, q.minimum).Some? ==> Redeemed(p, pending, q.minimum) == Some(q.estimated))
  {
    var estimated := QuoteClaim(p, true, pending).value.estimated;
    ClaimEstimate(p, pending);
    if estimated > 0 { SlippageLowers(estimated); }
  }

  // ----- Share price -----

  /** Assets per share of q are no lower than of p. */
  predicate PriceNotLower(p: Pool, q: Pool) {
    q.assets * p.shares >= p.assets * q.shares
  }

  lemma DepositKeepsPrice(p: Pool, amount: int, minShares: int)
    requires Funded(p) && Minted(p, amount, minShares).Some?
    ensures var q := AfterDeposit(p, amount, Minted(p, amount, minShares).value);
            Funded(q) && q.shares > 0 && PriceNotLower(p, q)
  {
    if p.shares > 0 {
      var minted := Minted(p, amount, minShares).value;
      assert amount * p.shares >= 0;
      QuotientBounds(amount * p.shares, p.assets);
      calc {
        (p.assets + amount) * p.shares - p.assets * (p.shares + minted);
        amount * p.shares - minted * p.assets;
      }
    }
  }

  lemma RedeemKeepsPrice(p: Pool, shares: int, minAssets: int)
    requires Funded(p) && shares <= p.shares && Redeemed(p, shares, minAssets).Some?
    ensures var q := AfterRedeem(p, shares, Redeemed(p, shares, minAssets).value);
            Funded(q) && PriceNotLower(p, q)
  {
    var paid := Redeemed(p, shares, minAssets).value;
    if shares < p.shares {
      assert shares * p.assets >= 0;
      QuotientBounds(shares * p.assets, p.shares);
      calc {
        (p.assets - paid) * p.shares - p.assets * (p.shares - shares);
        shares * p.assets - paid * p.shares;
      }
      AtMostQuotient(p.assets, shares * p.assets, p.shares);
      if p.assets > 0 { MulStrict(shares, p.shares, p.assets); }
    }
  }

  lemma PriceTransitive(p: Pool, q: Pool, r: Pool)
    requires Sound(p) && Sound(q) && Sound(r) && q.shares > 0
    requires PriceNotLower(p, q) && PriceNotLower(q, r)
    ensures PriceNotLower(p, r)
  {
    calc {
      r.assets * p.shares * q.shares;
      (r.assets * q.shares) * p.shares;
    >= { MulMonotone(q.assets * r.shares, r.assets * q.shares, p.shares); }
      (q.assets * r.shares) * p.shares;
      (q.assets * p.shares) * r.shares;
    >= { MulMonotone(p.assets * q.shares, q.assets * p.shares, r.shares); }
      (p.assets * q.shares) * r.shares;
      p.assets * r.shares * q.shares;
    }
    if r.assets * p.shares < p.assets * r.shares {
      MulStrict(r.assets * p.shares, p.assets * r.shares, q.shares);
    }
  }

  // ----- Runs -----

  datatype Op = Deposit(amount: int, minShares: int) | Redeem(shares: int, minAssets: int)

  /** A call that panics leaves the pool as it was. */
  function Apply(p: Pool, op: Op): Pool {
    match op
    case Deposit(amount, minShares) =>
      var minted := Minted(p, amount, minShares);
      if minted.Some? then AfterDeposit(p, amount, minted.value) else p
    case Redeem(shares, minAssets) =>
      if shares > p.shares then p
      else
        var paid := Redeemed(p, shares, minAssets);
        if paid.Some? then AfterRedeem(p, shares, paid.value) else p
  }

  function Run(p: Pool, ops: seq<Op>): Pool
    decreases |ops|
  {
    if ops == [] then p else Apply(Run(p, ops[..|ops| - 1]), ops[|ops| - 1])
  }

  lemma ApplyKeeps(p: Pool, op: Op)
    requires Funded(p)
    ensures Funded(Apply(p, op)) && PriceNotLower(p, Apply(p, op))
  {
    match op
    case Deposit(amount, minShares) =>
      if Minted(p, amount, minShares).Some? { DepositKeepsPrice(p, amount, minShares); }
    case Redeem(shares, minAssets) =>
      if shares <= p.shares && Redeemed(p, shares, minAssets).Some? { RedeemKeepsPrice(p, shares, minAssets); }
  }

  /** Over every run of deposits and redemptions, shares are gone exactly when the assets are. */
  lemma {:induction false} RunFunded(p: Pool, ops: seq<Op>)
    requires Funded(p)
    ensures Funded(Run(p, ops))
  {
    if ops != [] {
      RunFunded(p, ops[..|ops| - 1]);
      ApplyKeeps(Run(p, ops[..|ops| - 1]), ops[|ops| - 1]);
    }
  }

  /** Shares stay outstanding after every prefix of the run. */
  ghost predicate NeverEmpty(p: Pool, ops: seq<Op>) {
    forall k | 0 <= k <= |ops| :: Run(p, ops[..k]).shares > 0
  }

  /** Assets per share never fall while any share is outstanding. */
  lemma {:induction false} RunKeepsPrice(p: Pool, ops: seq<Op>)
    requires Funded(p) && NeverEmpty(p, ops)
    ensures PriceNotLower(p, Run(p, ops))
  {
    assert ops[..|ops|] == ops;
    if ops != [] {
      var before := ops[..|ops| - 1];
      forall k | 0 <= k <= |before| ensures Run(p, before[..k]).shares > 0 {
        assert before[..k] == ops[..k];
      }
      RunKeepsPrice(p, before);
      RunFunded(p, before);
      RunFunded(p, ops);
      ApplyKeeps(Run(p, before), ops[|ops| - 1]);
      assert before[..|before|] == before;
      PriceTransitive(p, Run(p, before), Run(p, ops));
    }
  }

  /**
   One owner who starts with no shares and is the only one to act gains nothing: what was
   taken out beyond what was put in, plus the shares still held at the final price, is at most zero.
   */
  lemma {:induction false} ActingAloneGainsNothing(p: Pool, ops: seq<Op>)
    requires Funded(p) && NeverEmpty(p, ops)
    ensures var q := Run(p, ops);
            (p.assets - q.assets) * q.shares + (q.shares - p.shares) * q.assets <= 0
  {
    var q := Run(p, ops);
    RunKeepsPrice(p, ops);
    CrossTerms(p.assets, p.shares, q.assets, q.shares);
  }

  lemma CrossTerms(a: int, s: int, b: int, t: int)
    requires b * s >= a * t
    ensures (a - b) * t + (t - s) * b <= 0
  {
  }

  /** A deposit whose shares are redeemed at once never returns more than was put in. */
  lemma RoundTripNeverGains(p: Pool, amount: int, minShares: int, minAssets: int)
    requires Funded(p) && Minted(p, amount, minShares).Some?
    requires var minted := Minted(p, amount, minShares).value;
             Redeemed(AfterDeposit(p, amount, minted), minted, minAssets).Some?
    ensures var minted := Minted(p, amount, minShares).value;
            Redeemed(AfterDeposit(p, amount, minted), minted, minAssets).value <= amount
  {
    var minted := Minted(p, amount, minShares).value;
    var q := AfterDeposit(p, amount, minted);
    if p.shares > 0 {
      var paid := Redeemed(q, minted, minAssets).value;
      assert amount * p.shares >= 0;
      QuotientBounds(amount * p.shares, p.assets);
      assert minted * q.assets >= 0;
      QuotientBounds(minted * q.assets, q.shares);
      assert minted * (p.assets + amount) <= amount * (p.shares + minted);
      if paid > amount { MulStrict(amount, paid, q.shares); }
    }
  }
}
