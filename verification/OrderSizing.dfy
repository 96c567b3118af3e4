/** How large an order a margin can carry (`protocolOrderSize` in client/src/lib/trade-submit.ts). */
module OrderSizing {
  import opened Common

  const PRICE_SCALE := 100_000_000
  const LEVERAGE_SCALE := 1_000_000
  const ROUNDING_RESERVE := 32

  /** The market's rate scale and taker fee, from another package of the repository. */
  datatype Rates = Rates(scale: nat, takerFee: nat)

  predicate RatesOk(r: Rates) {
    r.scale > 0
  }

  function EffectiveMargin(margin: int): nat {
    if margin > ROUNDING_RESERVE then margin - ROUNDING_RESERVE else 0
  }

  function Denominator(leverage: nat, r: Rates): (d: nat)
    requires RatesOk(r)
    ensures d > 0
  {
    LEVERAGE_SCALE * r.scale + leverage * r.takerFee
  }

  /** A product of non-negative numbers. */
  lemma Product(a: int, b: int)
    requires a >= 0 && b >= 0
    ensures a * b >= 0
  {
  }

  lemma NatQuotient(a: int, d: nat)
    requires a >= 0 && d > 0
    ensures a / d >= 0
  {
    AtMostQuotient(0, a, d);
  }

  function Notional(effective: nat, leverage: nat, r: Rates): nat
    requires RatesOk(r)
  {
    Product(effective, leverage);
    Product(effective * leverage, r.scale);
    NatQuotient(effective * leverage * r.scale, Denominator(leverage, r));
    effective * leverage * r.scale / Denominator(leverage, r)
  }

  /** The size in protocol units; leverage and price are the scaled integers. */
  function OrderSize(margin: int, leverage: int, price: int, r: Rates): nat
    requires RatesOk(r)
  {
    if margin <= 0 || leverage <= 0 || price <= 0 then 0
    else SizeFor(Notional(EffectiveMargin(margin), leverage, r), price)
  }

  /**
   Notional divided by leverage, plus the taker fee on it, is at most the margin without the
   reserve, and one unit of notional more would exceed it.  Multiplied out by leverage and the
   rate scale, so that it is exact.
   */
  lemma NotionalFits(margin: int, leverage: nat, r: Rates)
    requires RatesOk(r) && leverage > 0
    ensures var n := Notional(EffectiveMargin(margin), leverage, r);
      && n * LEVERAGE_SCALE * r.scale + n * leverage * r.takerFee <= EffectiveMargin(margin) * leverage * r.scale
      && EffectiveMargin(margin) * leverage * r.scale < (n + 1) * Denominator(leverage, r)
  {
    var e, d := EffectiveMargin(margin), Denominator(leverage, r);
    var n := Notional(e, leverage, r);
    QuotientBounds(e * leverage * r.scale, d);
    calc {
      n * d;
      n * (LEVERAGE_SCALE * r.scale) + n * (leverage * r.takerFee);
      n * LEVERAGE_SCALE * r.scale + n * leverage * r.takerFee;
    }
    assert (n + 1) * d == n * d + d;
  }

  /** The sized order is worth at most its notional, and one unit more would be worth more. */
  lemma SizeIsLargest(margin: int, leverage: int, price: int, r: Rates)
    requires RatesOk(r) && margin > 0 && leverage > 0 && price > 0
    ensures var size, n := OrderSize(margin, leverage, price, r), Notional(EffectiveMargin(margin), leverage, r);
      size * price <= n * PRICE_SCALE < (size + 1) * price
  {
    QuotientBounds(Notional(EffectiveMargin(margin), leverage, r) * PRICE_SCALE, price);
  }

  /** The order and its fee together stay within the margin, 32 units short of it. */
  lemma OrderFits(margin: int, leverage: int, price: int, r: Rates)
    requires RatesOk(r) && leverage > 0 && price > 0 && margin > ROUNDING_RESERVE
    ensures var value := OrderSize(margin, leverage, price, r) * price;
      value * Denominator(leverage, r) <= (margin - 32) * leverage * r.scale * PRICE_SCALE
  {
    var n, d := Notional(EffectiveMargin(margin), leverage, r), Denominator(leverage, r);
    SizeIsLargest(margin, leverage, price, r);
    QuotientBounds(EffectiveMargin(margin) * leverage * r.scale, d);
    calc {
      OrderSize(margin, leverage, price, r) * price * d;
    <= { MulMonotone(OrderSize(margin, leverage, price, r) * price, n * PRICE_SCALE, d); }
      n * PRICE_SCALE * d;
    == { Swap(n, PRICE_SCALE, d); }
      n * d * PRICE_SCALE;
    <=
      EffectiveMargin(margin) * leverage * r.scale * PRICE_SCALE;
    }
  }

  lemma Swap(a: int, b: int, c: int)
    ensures a * b * c == a * c * b
  {
  }

  // ----- Splitting a margin over fragments -----

  /** Quotients of parts never add up to more than the quotient of the whole. */
  lemma QuotientsAdd(a: nat, b: nat, d: nat)
    requires d > 0
    ensures a / d + b / d <= (a + b) / d
  {
    QuotientBounds(a, d);
    QuotientBounds(b, d);
    assert (a / d + b / d) * d == a / d * d + b / d * d;
    AtMostQuotient(a / d + b / d, a + b, d);
  }

  lemma QuotientMonotone(a: nat, b: nat, d: nat)
    requires d > 0 && a <= b
    ensures a / d <= b / d
  {
    QuotientBounds(a, d);
    AtMostQuotient(a / d, b, d);
  }

  lemma NotionalsAdd(a: nat, b: nat, c: nat, leverage: nat, r: Rates)
    requires RatesOk(r) && a + b <= c
    ensures Notional(a, leverage, r) + Notional(b, leverage, r) <= Notional(c, leverage, r)
  {
    var k, d := leverage * r.scale, Denominator(leverage, r);
    assert a * leverage * r.scale == a * k && b * leverage * r.scale == b * k && c * leverage * r.scale == c * k;
    Product(a, k);
    Product(b, k);
    QuotientsAdd(a * k, b * k, d);
    assert a * k + b * k == (a + b) * k;
    MulMonotone(a + b, c, k);
    QuotientMonotone((a + b) * k, c * k, d);
  }

  /** The size a notional buys. */
  function SizeFor(notional: nat, price: nat): nat
    requires price > 0
  {
    notional * PRICE_SCALE / price
  }

  lemma SizesAdd(m: nat, n: nat, w: nat, price: nat)
    requires price > 0 && m + n <= w
    ensures SizeFor(m, price) + SizeFor(n, price) <= SizeFor(w, price)
  {
    QuotientsAdd(m * PRICE_SCALE, n * PRICE_SCALE, price);
    QuotientMonotone((m + n) * PRICE_SCALE, w * PRICE_SCALE, price);
  }

  /** Two fragments never carry more than one order for both margins. */
  lemma TwoFragments(a: int, b: int, leverage: int, price: int, r: Rates)
    requires RatesOk(r) && a >= 0 && b >= 0
    ensures OrderSize(a, leverage, price, r) + OrderSize(b, leverage, price, r) <= OrderSize(a + b, leverage, price, r)
  {
    if leverage > 0 && price > 0 {
      var x, y, z := EffectiveMargin(a), EffectiveMargin(b), EffectiveMargin(a + b);
      NotionalsAdd(x, y, z, leverage, r);
      SizesAdd(Notional(x, leverage, r), Notional(y, leverage, r), Notional(z, leverage, r), price);
    }
  }

  function Sum(xs: seq<int>, n: nat): int
    requires n <= |xs|
  {
    if n == 0 then 0 else Sum(xs, n - 1) + xs[n - 1]
  }

  function SizesSum(margins: seq<int>, n: nat, leverage: int, price: int, r: Rates): nat
    requires n <= |margins| && RatesOk(r)
  {
    if n == 0 then 0
    else SizesSum(margins, n - 1, leverage, price, r) + OrderSize(margins[n - 1], leverage, price, r)
  }

  /** However a margin is split over fragments, their sizes never add up to more than the unsplit order. */
  lemma {:induction false} FragmentsNeverExceed(margins: seq<int>, n: nat, leverage: int, price: int, r: Rates)
    requires RatesOk(r) && n <= |margins| && forall i | 0 <= i < n :: margins[i] >= 0
    ensures Sum(margins, n) >= 0 && SizesSum(margins, n, leverage, price, r) <= OrderSize(Sum(margins, n), leverage, price, r)
  {
    if n > 0 {
      FragmentsNeverExceed(margins, n - 1, leverage, price, r);
      TwoFragments(Sum(margins, n - 1), margins[n - 1], leverage, price, r);
    }
  }
}
