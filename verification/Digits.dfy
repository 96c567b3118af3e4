/** Positional numbers: most significant digit first. */
module Digits {
  import opened Common

  function Pow(base: nat, n: nat): (p: nat)
    requires base > 0
    ensures p > 0
  {
    if n == 0 then 1 else
      var rest := Pow(base, n - 1);
      MulStrict(0, base, rest);
      base * rest
  }

  ghost predicate AreDigits(ds: seq<nat>, base: nat) {
    forall i | 0 <= i < |ds| :: ds[i] < base
  }

  function FromDigits(ds: seq<nat>, base: nat): nat {
    if ds == [] then 0
    else
      var front := FromDigits(ds[..|ds| - 1], base);
      MulMonotone(0, front, base);
      front * base + ds[|ds| - 1]
  }

  /** Quotient of natural numbers, with what defines it. */
  function Quotient(value: nat, base: nat): (q: nat)
    requires base > 0
    ensures q == value / base && q * base <= value < q * base + base
  {
    QuotientBounds(value, base);
    AtMostQuotient(0, value, base);
    value / base
  }

  /** The last n digits of a number. */
  function ToDigits(value: nat, base: nat, n: nat): (ds: seq<nat>)
    requires base > 0
    ensures |ds| == n
    decreases n
  {
    if n == 0 then []
    else
      var q := Quotient(value, base);
      ToDigits(q, base, n - 1) + [value - q * base]
  }

  lemma {:induction false} ToDigitsAreDigits(value: nat, base: nat, n: nat)
    requires base > 0
    ensures AreDigits(ToDigits(value, base, n), base)
    decreases n
  {
    if n > 0 { ToDigitsAreDigits(Quotient(value, base), base, n - 1); }
  }

  lemma {:induction false} FromToDigits(value: nat, base: nat, n: nat)
    requires base > 0 && value < Pow(base, n)
    ensures FromDigits(ToDigits(value, base, n), base) == value
    decreases n
  {
    if n > 0 {
      var q := Quotient(value, base);
      if q >= Pow(base, n - 1) { MulMonotone(Pow(base, n - 1), q, base); }
      FromToDigits(q, base, n - 1);
      var ds := ToDigits(value, base, n);
      assert ds[..|ds| - 1] == ToDigits(q, base, n - 1);
    }
  }

  /** Digits of one length and one value are the same digits. */
  lemma {:induction false} SameValueSameDigits(a: seq<nat>, b: seq<nat>, base: nat)
    requires base > 0 && AreDigits(a, base) && AreDigits(b, base) && |a| == |b|
    requires FromDigits(a, base) == FromDigits(b, base)
    ensures a == b
  {
    if a != [] {
      var x, y := a[..|a| - 1], b[..|b| - 1];
      var d, e := a[|a| - 1], b[|b| - 1];
      QuotientUnique(FromDigits(x, base) * base + d, base, FromDigits(x, base));
      QuotientUnique(FromDigits(y, base) * base + e, base, FromDigits(y, base));
      SameValueSameDigits(x, y, base);
      assert a == x + [d] && b == y + [e];
    }
  }

  lemma {:induction false} FromDigitsBound(ds: seq<nat>, base: nat)
    requires base > 0 && AreDigits(ds, base)
    ensures FromDigits(ds, base) < Pow(base, |ds|)
  {
    if ds != [] {
      var front := ds[..|ds| - 1];
      FromDigitsBound(front, base);
      MulMonotone(FromDigits(front, base) + 1, Pow(base, |front|), base);
      assert (FromDigits(front, base) + 1) * base == FromDigits(front, base) * base + base;
    }
  }
}
