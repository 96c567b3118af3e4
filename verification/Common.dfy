/** Datatypes shared by every module of the model. */
module Common {

  /** A value that a lookup may not find. */
  datatype Option<+T> = None | Some(value: T)

  /** A computation that ends with a value or with a thrown error. */
  datatype Result<+T> = Ok(value: T) | Err(error: string)

  function Min(a: int, b: int): int {
    if a <= b then a else b
  }

  function Max(a: int, b: int): int {
    if a >= b then a else b
  }

  function Abs(a: int): nat {
    if a >= 0 then a else -a
  }

  /** Division of JavaScript big integers and of Rust's i128: the quotient is truncated toward zero. */
  function TruncDiv(a: int, b: int): int
    requires b != 0
  {
    if (a >= 0) == (b > 0) then Abs(a) / Abs(b) else -(Abs(a) / Abs(b))
  }

  /** Division rounded up, for a positive divisor. */
  function CeilDiv(a: nat, b: nat): nat
    requires b > 0
  {
    (a + b - 1) / b
  }

  lemma TruncIsFloor(a: nat, b: nat)
    requires b > 0
    ensures TruncDiv(a, b) == a / b
  {
  }

  lemma MulMonotone(a: int, b: int, c: int)
    requires a <= b && c >= 0
    ensures a * c <= b * c
  {
  }

  lemma MulStrict(a: int, b: int, c: int)
    requires a < b && c > 0
    ensures a * c < b * c
  {
  }

  lemma QuotientBounds(a: int, b: nat)
    requires b > 0
    ensures a / b * b <= a < a / b * b + b
  {
  }

  /** A product is at most the dividend exactly when its factor is at most the quotient. */
  lemma AtMostQuotient(q: int, a: int, b: nat)
    requires b > 0
    ensures q <= a / b <==> q * b <= a
  {
    QuotientBounds(a, b);
    if q > a / b { MulMonotone(a / b + 1, q, b); } else { MulMonotone(q, a / b, b); }
  }

  /** The quotient is the only integer between these bounds. */
  lemma QuotientUnique(a: int, b: nat, q: int)
    requires b > 0 && q * b <= a < q * b + b
    ensures q == a / b
  {
    AtMostQuotient(q, a, b);
    AtMostQuotient(q + 1, a, b);
    assert (q + 1) * b == q * b + b;
  }
}
