/** The base32 decoder of scripts/smoke/custody.ts, against section 6 of RFC 4648. */
module Base32 {
  import opened Common
  import opened Digits

  const ALPHABET := "ABCDEFGHIJKLMNOPQRSTUVWXYZ234567"

  function UpperChar(c: char): char {
    if 'a' <= c <= 'z' then (c as int - 32) as char else c
  }

  /** `indexOf` in the alphabet: -1 when absent. */
  function IndexOf(c: char): (index: int)
    ensures -1 <= index < 32 && (index >= 0 ==> ALPHABET[index] == c)
  {
    if 'A' <= c <= 'Z' then c as int - 'A' as int
    else if '2' <= c <= '7' then c as int - '2' as int + 26
    else -1
  }

  /** The text without trailing padding. */
  function Strip(value: string): string {
    if value != [] && value[|value| - 1] == '=' then Strip(value[..|value| - 1]) else value
  }

  predicate Decodable(value: string) {
    forall i | 0 <= i < |Strip(value)| :: IndexOf(UpperChar(Strip(value)[i])) >= 0
  }

  function Symbols(value: string): (s: seq<nat>)
    requires Decodable(value)
    ensures AreDigits(s, 32)
  {
    seq(|Strip(value)|, i requires 0 <= i < |Strip(value)| => IndexOf(UpperChar(Strip(value)[i])))
  }

  function PowerOfTwo(k: nat): nat
    requires k <= 12
  {
    if k == 0 then 1 else if k == 1 then 2 else if k == 2 then 4 else if k == 3 then 8
    else if k == 4 then 16 else if k == 5 then 32 else if k == 6 then 64 else if k == 7 then 128
    else if k == 8 then 256 else if k == 9 then 512 else if k == 10 then 1024 else if k == 11 then 2048 else 4096
  }

  /**
   What the bytes of n symbols are: the first 5n - 5n % 8 bits, read as a number; the bits
   that do not fill a byte are dropped.
   */
  ghost predicate IsDecoding(symbols: seq<nat>, bytes: seq<nat>) {
    && |bytes| == 5 * |symbols| / 8 && AreDigits(bytes, 256)
    && FromDigits(bytes, 256) == FromDigits(symbols, 32) / PowerOfTwo(5 * |symbols| % 8)
  }

  /** A number of symbols has one decoding. */
  lemma DecodingUnique(symbols: seq<nat>, a: seq<nat>, b: seq<nat>)
    requires IsDecoding(symbols, a) && IsDecoding(symbols, b)
    ensures a == b
  {
    SameValueSameDigits(a, b, 256);
  }

  // ----- The 32-bit accumulator -----

  /** A JavaScript number after a bitwise operation: the low 32 bits, with their sign. */
  function Wrap32(x: int): int {
    (x + 0x8000_0000) % 0x1_0000_0000 - 0x8000_0000
  }

  /** `(bits << 5) | index`. */
  function Accumulate(bits: int, index: nat): int {
    Wrap32(bits * 32) + index
  }

  /** How many turns a number is wrapped by. */
  function Turns(x: int): (q: int)
    ensures Wrap32(x) == x - q * 0x1_0000_0000 && -0x8000_0000 <= Wrap32(x) < 0x8000_0000
  {
    (x + 0x8000_0000) / 0x1_0000_0000
  }

  lemma WrapIs(x: int, q: int)
    requires -0x8000_0000 <= x - q * 0x1_0000_0000 < 0x8000_0000
    ensures Wrap32(x) == x - q * 0x1_0000_0000
  {
    QuotientUnique(x + 0x8000_0000, 0x1_0000_0000, q);
  }

  lemma AccumulateWraps(value: int, index: nat)
    requires index < 32
    ensures Accumulate(Wrap32(value), index) == Wrap32(value * 32 + index)
  {
    var q, p := Turns(value), Turns(Wrap32(value) * 32);
    var shifted := Wrap32(Wrap32(value) * 32);
    var units := value - q * 0x1_0000_0000 - p * 0x800_0000;
    assert shifted == 32 * units;
    WrapIs(value * 32 + index, q * 32 + p);
  }

  /** `(bits >> k) & 0xff`. */
  function ByteAt(bits: int, k: nat): (b: nat)
    requires k <= 4
    ensures b < 256
  {
    bits / PowerOfTwo(k) % 256
  }

  lemma DropMultiple(x: int, turns: int, d: nat)
    requires d > 0
    ensures (x - turns * 256 * d) / d % 256 == x / d % 256
  {
    QuotientBounds(x, d);
    assert (x / d - turns * 256) * d == x / d * d - turns * 256 * d;
    QuotientUnique(x - turns * 256 * d, d, x / d - turns * 256);
  }

  /** The wrapped-around bits are never looked at. */
  lemma {:induction false} ByteOfWrapped(value: int, k: nat)
    requires k <= 4
    ensures ByteAt(Wrap32(value), k) == value / PowerOfTwo(k) % 256
  {
    var q := Turns(value);
    DropMultiple(value, q * PowerOfTwo(4 - k) * 0x10_0000, PowerOfTwo(k));
  }

  /** Five more bits of which none fills a byte. */
  lemma NoByte(value: nat, index: nat, bitCount: nat)
    requires index < 32 && bitCount < 3
    ensures (value * 32 + index) / PowerOfTwo(bitCount + 5) == value / PowerOfTwo(bitCount)
  {
  }

  /** Five more bits that fill a byte. */
  lemma OneByte(value: nat, index: nat, bitCount: nat)
    requires index < 32 && 3 <= bitCount < 8
    ensures var next := (value * 32 + index) / PowerOfTwo(bitCount - 3);
      next == value / PowerOfTwo(bitCount) * 256 + next % 256
  {
  }

  lemma FromDigitsAppend(ds: seq<nat>, d: nat, base: nat)
    ensures FromDigits(ds + [d], base) == FromDigits(ds, base) * base + d
  {
    assert (ds + [d])[..|ds|] == ds;
  }

  /** What the accumulator, its bit count and the bytes so far say about the symbols read. */
  ghost predicate Reading(bits: int, bitCount: nat, bytes: seq<nat>, symbols: seq<nat>) {
    && bitCount < 8 && 5 * |symbols| == 8 * |bytes| + bitCount && AreDigits(bytes, 256)
    && bits == Wrap32(FromDigits(symbols, 32))
    && FromDigits(bytes, 256) == FromDigits(symbols, 32) / PowerOfTwo(bitCount)
  }

  /** One symbol: the inner loop runs at most once. */
  method Push(bits: int, bitCount: nat, bytes: seq<nat>, index: nat, ghost symbols: seq<nat>)
    returns (nextBits: int, nextCount: nat, nextBytes: seq<nat>)
    requires index < 32 && Reading(bits, bitCount, bytes, symbols)
    ensures Reading(nextBits, nextCount, nextBytes, symbols + [index])
  {
    ghost var before := FromDigits(symbols, 32);
    FromDigitsAppend(symbols, index, 32);
    AccumulateWraps(before, index);
    nextBits, nextCount, nextBytes := Accumulate(bits, index), bitCount + 5, bytes;
    while nextCount >= 8
      invariant || (nextCount == bitCount + 5 && nextBytes == bytes)
                || (nextCount < 8 && Reading(nextBits, nextCount, nextBytes, symbols + [index]))
      invariant nextBits == Accumulate(bits, index)
      decreases nextCount
    {
      var byte := ByteAt(nextBits, nextCount - 8);
      OneByte(before, index, bitCount);
      ByteOfWrapped(before * 32 + index, nextCount - 8);
      FromDigitsAppend(bytes, byte, 256);
      nextBytes := nextBytes + [byte];
      nextCount := nextCount - 8;
    }
    if bitCount < 3 { NoByte(before, index, bitCount); }
  }

  /** `base32Decode`. */
  method Base32Decode(value: string) returns (r: Result<seq<nat>>)
    ensures r.Ok? <==> Decodable(value)
    ensures r.Ok? ==> IsDecoding(Symbols(value), r.value)
  {
    var text := Strip(value);
    var bits, bitCount: nat := 0, 0;
    var bytes: seq<nat> := [];
    ghost var symbols: seq<nat> := [];
    for i := 0 to |text|
      invariant |symbols| == i && forall j | 0 <= j < i :: symbols[j] == IndexOf(UpperChar(text[j]))
      invariant Reading(bits, bitCount, bytes, symbols)
    {
      var index := IndexOf(UpperChar(text[i]));
      if index < 0 { return Err("invalid stellar secret character"); }
      bits, bitCount, bytes := Push(bits, bitCount, bytes, index, symbols);
      symbols := symbols + [index];
    }
    assert symbols == Symbols(value);
    return Ok(bytes);
  }

  // ----- The encoder of the RFC -----

  /** How many symbols the RFC needs for some bytes, without padding. */
  function SymbolCount(length: nat): nat {
    (8 * length + 4) / 5
  }

  /** The bytes as one number, shifted to fill whole symbols. */
  function Encode(bytes: seq<nat>): seq<nat> {
    var n := SymbolCount(|bytes|);
    ToDigits(FromDigits(bytes, 256) * PowerOfTwo(5 * n - 8 * |bytes|), 32, n)
  }

  /** Five bytes are eight symbols. */
  lemma FiveBytes(length: nat)
    ensures Pow(256, length + 5) == Pow(256, length) * 0x100_0000_0000
    ensures Pow(32, SymbolCount(length + 5)) == Pow(32, SymbolCount(length)) * 0x100_0000_0000
  {
    PowSplit(256, length, 5);
    PowSplit(32, SymbolCount(length), 8);
    SmallPowers();
  }

  lemma {:induction false} PowersMatch(length: nat)
    ensures Pow(256, length) * PowerOfTwo(5 * SymbolCount(length) - 8 * length) <= Pow(32, SymbolCount(length))
  {
    if length >= 5 {
      var less := length - 5;
      var shift := PowerOfTwo(5 * SymbolCount(length) - 8 * length);
      PowersMatch(less);
      FiveBytes(less);
      assert shift == PowerOfTwo(5 * SymbolCount(less) - 8 * less);
      MulMonotone(Pow(256, less) * shift, Pow(32, SymbolCount(less)), 0x100_0000_0000);
      Regroup(Pow(256, less), shift, 0x100_0000_0000);
    } else {
      SmallPowers();
    }
  }

  lemma Regroup(a: int, b: int, c: int)
    ensures a * b * c == a * c * b
  {
  }

  lemma {:induction false} PowSplit(base: nat, m: nat, n: nat)
    requires base > 0
    ensures Pow(base, m + n) == Pow(base, m) * Pow(base, n)
  {
    if n > 0 {
      PowSplit(base, m, n - 1);
      assert Pow(base, m + n) == base * Pow(base, m + n - 1);
      assert base * (Pow(base, m) * Pow(base, n - 1)) == Pow(base, m) * (base * Pow(base, n - 1));
    }
  }

  lemma SmallPowers()
    ensures Pow(256, 0) == 1 && Pow(256, 1) == 0x100 && Pow(256, 2) == 0x1_0000 && Pow(256, 3) == 0x100_0000
    ensures Pow(256, 4) == 0x1_0000_0000 && Pow(256, 5) == 0x100_0000_0000
    ensures Pow(32, 0) == 1 && Pow(32, 2) == 0x400 && Pow(32, 4) == 0x10_0000 && Pow(32, 5) == 0x200_0000
    ensures Pow(32, 7) == 0x8_0000_0000 && Pow(32, 8) == 0x100_0000_0000
  {
    assert Pow(32, 1) == 32 && Pow(32, 3) == 0x8000 && Pow(32, 6) == 0x4000_0000;
  }

  /** Decoding what the RFC encodes gives the bytes back, for inputs of every length. */
  lemma RoundTrip(bytes: seq<nat>, decoded: seq<nat>)
    requires AreDigits(bytes, 256) && IsDecoding(Encode(bytes), decoded)
    ensures decoded == bytes
  {
    var n, value := SymbolCount(|bytes|), FromDigits(bytes, 256);
    var shift := PowerOfTwo(5 * n - 8 * |bytes|);
    FromDigitsBound(bytes, 256);
    PowersMatch(|bytes|);
    MulStrict(value, Pow(256, |bytes|), shift);
    FromToDigits(value * shift, 32, n);
    QuotientUnique(value * shift, shift, value);
    assert 5 * n % 8 == 5 * n - 8 * |bytes| && 5 * n / 8 == |bytes|;
    SameValueSameDigits(decoded, bytes, 256);
  }
}
