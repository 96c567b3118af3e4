/** What closing a position pays (`settleClose` and `expectedFundingPayment` in client/src/lib/position-close.ts). */
module CloseSettlement {
  import opened Common

  const PRICE_SCALE := 100_000_000

  datatype Side = Long | Short

  datatype Close = Close(newMargin: int, realizedPnl: int)

  function ExpectedFundingPayment(size: int, current: int, index: int, side: Side): int {
    var payment := TruncDiv(size * (current - index), PRICE_SCALE);
    if side == Long then payment else -payment
  }

  function RealizedPnl(closeSize: int, entry: int, mark: int, side: Side): int {
    TruncDiv(closeSize * (if side == Long then mark - entry else entry - mark), PRICE_SCALE)
  }

  function SettleClose(closeSize: int, entry: int, fee: int, funding: int, margin: int, mark: int, side: Side): Result<Close> {
    var pnl := RealizedPnl(closeSize, entry, mark, side);
    var newMargin := margin + pnl - funding - fee;
    if newMargin < 0 then Err("Position is insolvent and must be liquidated") else Ok(Close(newMargin, pnl))
  }

  /** Truncation is odd: it treats both signs alike. */
  lemma TruncOdd(a: int, d: int)
    requires d > 0
    ensures TruncDiv(-a, d) == -TruncDiv(a, d)
  {
  }

  /** What one side gains the other loses, to the unit. */
  lemma PnlCancels(size: int, entry: int, mark: int)
    ensures RealizedPnl(size, entry, mark, Long) + RealizedPnl(size, entry, mark, Short) == 0
  {
    assert size * (entry - mark) == -(size * (mark - entry));
    TruncOdd(size * (mark - entry), PRICE_SCALE);
  }

  /** Closing both legs of a pair at the same mark and index pays out the two margins less the fees. */
  lemma PairConserves(size: int, entry: int, mark: int, current: int, index: int,
                      longMargin: int, longFee: int, shortMargin: int, shortFee: int)
    requires SettleClose(size, entry, longFee, ExpectedFundingPayment(size, current, index, Long), longMargin, mark, Long).Ok?
    requires SettleClose(size, entry, shortFee, ExpectedFundingPayment(size, current, index, Short), shortMargin, mark, Short).Ok?
    ensures
      SettleClose(size, entry, longFee, ExpectedFundingPayment(size, current, index, Long), longMargin, mark, Long).value.newMargin
      + SettleClose(size, entry, shortFee, ExpectedFundingPayment(size, current, index, Short), shortMargin, mark, Short).value.newMargin
      == longMargin + shortMargin - longFee - shortFee
  {
    PnlCancels(size, entry, mark);
  }

  // ----- Closing in parts -----

  function SizeSum(sizes: seq<nat>, n: nat): nat
    requires n <= |sizes|
  {
    if n == 0 then 0 else SizeSum(sizes, n - 1) + sizes[n - 1]
  }

  function PnlSum(sizes: seq<nat>, n: nat, entry: int, mark: int, side: Side): int
    requires n <= |sizes|
  {
    if n == 0 then 0 else PnlSum(sizes, n - 1, entry, mark, side) + RealizedPnl(sizes[n - 1], entry, mark, side)
  }

  /** Adding one part to a truncated sum loses less than one unit, and gains nothing. */
  lemma TruncAdds(a: nat, b: nat, d: nat)
    requires d > 0
    ensures a / d + b / d <= (a + b) / d <= a / d + b / d + 1
  {
    QuotientBounds(a, d);
    QuotientBounds(b, d);
    assert (a / d + b / d) * d == a / d * d + b / d * d;
    AtMostQuotient(a / d + b / d, a + b, d);
    assert (a / d + b / d + 2) * d == a / d * d + b / d * d + 2 * d;
    AtMostQuotient(a / d + b / d + 2, a + b, d);
  }

  /** The profit of one leg of a given size, as a signed quotient of its magnitude. */
  lemma PnlMagnitude(size: nat, entry: int, mark: int, side: Side)
    ensures var d := if side == Long then mark - entry else entry - mark;
      && size * Abs(d) >= 0
      && RealizedPnl(size, entry, mark, side) == if d >= 0 then size * Abs(d) / PRICE_SCALE else -(size * Abs(d) / PRICE_SCALE)
  {
    var d := if side == Long then mark - entry else entry - mark;
    MulMonotone(0, size, Abs(d));
    if d < 0 {
      assert size * d == -(size * Abs(d));
      TruncOdd(size * Abs(d), PRICE_SCALE);
    }
  }

  lemma LegJoins(done: nat, size: nat, entry: int, mark: int, side: Side)
    ensures var whole, parts := RealizedPnl(done + size, entry, mark, side),
                RealizedPnl(done, entry, mark, side) + RealizedPnl(size, entry, mark, side);
      (0 <= parts <= whole <= parts + 1) || (0 >= parts >= whole >= parts - 1)
  {
    var d := Abs(if side == Long then mark - entry else entry - mark);
    PnlMagnitude(done, entry, mark, side);
    PnlMagnitude(size, entry, mark, side);
    PnlMagnitude(done + size, entry, mark, side);
    assert (done + size) * d == done * d + size * d;
    TruncAdds(done * d, size * d, PRICE_SCALE);
  }

  predicate Gains(entry: int, mark: int, side: Side) {
    if side == Long then mark >= entry else entry >= mark
  }

  /**
   Closing n legs of one entry separately: the parts never exceed the whole in magnitude, and
   fall short of it by at most n - 1 units.
   */
  lemma {:induction false} LegsNearWhole(sizes: seq<nat>, n: nat, entry: int, mark: int, side: Side)
    requires 0 < n <= |sizes|
    ensures var whole, parts := RealizedPnl(SizeSum(sizes, n), entry, mark, side), PnlSum(sizes, n, entry, mark, side);
      && Abs(parts) <= Abs(whole) <= Abs(parts) + n - 1
      && (if Gains(entry, mark, side) then 0 <= parts else parts <= 0)
  {
    PnlMagnitude(sizes[n - 1], entry, mark, side);
    PnlMagnitude(SizeSum(sizes, n), entry, mark, side);
    if n > 1 {
      LegsNearWhole(sizes, n - 1, entry, mark, side);
      PnlMagnitude(SizeSum(sizes, n - 1), entry, mark, side);
      LegJoins(SizeSum(sizes, n - 1), sizes[n - 1], entry, mark, side);
    }
  }
}
