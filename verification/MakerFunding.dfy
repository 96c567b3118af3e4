/** How much the manager lends at once (makerTopUpAmount, makerReserveTarget, fundingEpoch). */
module MakerFunding {
  import opened Common

  const MAX_SAFE_INTEGER := 9_007_199_254_740_991

  /** What the manager reads of the vault before it tops up its notes. */
  datatype VaultReads = VaultReads(
    seriesLiquid: int,
    seriesPrincipal: int,
    seriesShares: int,
    seriesPending: int,
    deployedPrincipal: int,
    totalAssets: int,
    limitBps: int)

  function Cap(assets: int, limitBps: int): int {
    TruncDiv(assets * limitBps, 10_000)
  }

  function TopUpAmount(v: VaultReads, seriesAssets: int, ready: int, target: int): int {
    if target <= ready then 0
    else
      var vaultCapacity := Cap(v.totalAssets, v.limitBps) - v.deployedPrincipal;
      var seriesCapacity := Cap(seriesAssets, v.limitBps) - v.seriesPrincipal;
      Min(Min(Min(target - ready, vaultCapacity), seriesCapacity), v.seriesLiquid)
  }

  /** The amount guards of `allocate`. */
  predicate AmountGuards(v: VaultReads, amount: int) {
    && v.seriesLiquid >= amount
    && v.deployedPrincipal + amount <= Cap(v.totalAssets, v.limitBps)
    && v.seriesPrincipal + amount <= Cap(v.seriesPrincipal + v.seriesLiquid, v.limitBps)
  }

  predicate AllocateGuards(v: VaultReads, amount: int) {
    v.seriesPending == 0 && v.seriesShares != 0 && AmountGuards(v, amount)
  }

  /** The top-up is the largest needed amount that `allocate` accepts. */
  lemma TopUpIsLargestAccepted(v: VaultReads, ready: int, target: int, amount: int)
    requires amount > 0
    ensures amount <= TopUpAmount(v, v.seriesPrincipal + v.seriesLiquid, ready, target)
       <==> amount <= target - ready && AmountGuards(v, amount)
  {
  }

  function ReserveTarget(totalAssets: int, limitBps: int, minimum: int): Result<int> {
    if totalAssets < 0 || limitBps < 0 || limitBps > 10_000 || minimum < 0 then
      Err("invalid maker reserve target inputs")
    else
      var poolTarget := totalAssets * limitBps / 10_000;
      Ok(if poolTarget > minimum then poolTarget else minimum)
  }

  /** The target never asks for more of the pool than the cap on it, unless the configured minimum does. */
  lemma ReserveTargetWithinCap(totalAssets: int, limitBps: int, minimum: int, amount: int)
    requires ReserveTarget(totalAssets, limitBps, minimum).Ok?
    ensures amount <= ReserveTarget(totalAssets, limitBps, minimum).value
       <==> amount <= minimum || amount * 10_000 <= totalAssets * limitBps
  {
    AtMostQuotient(amount, totalAssets * limitBps, 10_000);
  }

  predicate SafeInteger(n: int) {
    -MAX_SAFE_INTEGER <= n <= MAX_SAFE_INTEGER
  }

  function FundingEpoch(nowMs: int, intervalMinutes: int): Result<nat> {
    if !SafeInteger(nowMs) || nowMs < 0 || !SafeInteger(intervalMinutes) || intervalMinutes <= 0 ||
       !SafeInteger(intervalMinutes * 60_000) then Err("invalid maker funding interval")
    else
      var width: nat := intervalMinutes * 60_000;
      AtMostQuotient(0, nowMs, width);
      Ok(nowMs / width)
  }

  /** Two moments share an epoch exactly when no boundary lies between them. */
  lemma {:induction false} EpochsSplitAtBoundaries(earlier: int, later: int, intervalMinutes: int)
    requires earlier <= later
    requires FundingEpoch(earlier, intervalMinutes).Ok? && FundingEpoch(later, intervalMinutes).Ok?
    ensures var a, b := FundingEpoch(earlier, intervalMinutes).value, FundingEpoch(later, intervalMinutes).value;
      a <= b && (a < b <==> later >= (a + 1) * (intervalMinutes * 60_000))
  {
    var width := intervalMinutes * 60_000;
    AtMostQuotient(earlier / width, later, width);
    AtMostQuotient(earlier / width + 1, later, width);
    QuotientBounds(earlier, width);
  }
}
