/** The CRC-16/XMODEM of scripts/smoke/custody.ts. */
module Crc16 {
  import opened Common

  type Byte = bv8

  /** One bit step of the register. */
  function BitStep(crc: bv16): bv16 {
    if crc & 0x8000 != 0 then (crc << 1) ^ 0x1021 else crc << 1
  }

  function FourSteps(crc: bv16): bv16 {
    BitStep(BitStep(BitStep(BitStep(crc))))
  }

  function EightSteps(crc: bv16): bv16 {
    FourSteps(FourSteps(crc))
  }

  function High(b: Byte): bv16 {
    (b as bv16) << 8
  }

  function Mix(crc: bv16, b: Byte): bv16 {
    crc ^ High(b)
  }

  function ByteStep(crc: bv16, b: Byte): bv16 {
    EightSteps(Mix(crc, b))
  }

  /** The register after some bytes. */
  function Crc(start: bv16, message: seq<Byte>): bv16 {
    if message == [] then start else ByteStep(Crc(start, message[..|message| - 1]), message[|message| - 1])
  }

  // ----- One bit -----

  predicate Top(crc: bv16) {
    crc & 0x8000 != 0
  }

  lemma BothTop(a: bv16, b: bv16)
    requires Top(a) && Top(b)
    ensures BitStep(a ^ b) == BitStep(a) ^ BitStep(b)
  {
  }

  lemma OneTop(a: bv16, b: bv16)
    requires Top(a) && !Top(b)
    ensures BitStep(a ^ b) == BitStep(a) ^ BitStep(b) && BitStep(b ^ a) == BitStep(b) ^ BitStep(a)
  {
  }

  lemma NoTop(a: bv16, b: bv16)
    requires !Top(a) && !Top(b)
    ensures BitStep(a ^ b) == BitStep(a) ^ BitStep(b)
  {
  }

  /** Every bit step is linear. */
  lemma {:induction false} BitStepLinear(a: bv16, b: bv16)
    ensures BitStep(a ^ b) == BitStep(a) ^ BitStep(b)
  {
    if Top(a) {
      if Top(b) { BothTop(a, b); } else { OneTop(a, b); }
    } else {
      if Top(b) { OneTop(b, a); } else { NoTop(a, b); }
    }
  }

  /** A register whose step is zero is zero: the polynomial ends in 1. */
  lemma StepToZero(a: bv16)
    ensures BitStep(a) == 0 ==> a == 0
  {
  }

  lemma XorZero(a: bv16, b: bv16)
    ensures a ^ b == 0 <==> a == b
  {
  }

  /** Every bit step is injective, because it is linear and only zero steps to zero. */
  lemma {:induction false} BitStepInjective(a: bv16, b: bv16)
    ensures BitStep(a) == BitStep(b) ==> a == b
  {
    BitStepLinear(a, b);
    StepToZero(a ^ b);
    XorZero(a, b);
    XorZero(BitStep(a), BitStep(b));
  }

  // ----- One byte, and two -----

  lemma FourStepsInjective(a: bv16, b: bv16)
    ensures FourSteps(a) == FourSteps(b) ==> a == b
  {
    BitStepInjective(a, b);
    var c, d := BitStep(a), BitStep(b);
    BitStepInjective(c, d);
    var e, f := BitStep(c), BitStep(d);
    BitStepInjective(e, f);
    BitStepInjective(BitStep(e), BitStep(f));
  }

  lemma EightStepsInjective(a: bv16, b: bv16)
    ensures EightSteps(a) == EightSteps(b) ==> a == b
  {
    FourStepsInjective(a, b);
    FourStepsInjective(FourSteps(a), FourSteps(b));
  }

  lemma MixInjective(a: bv16, b: bv16, byte: Byte)
    ensures Mix(a, byte) == Mix(b, byte) ==> a == b
  {
  }

  /** Bytes mixed into one register only touch its high half. */
  lemma MixLow(crc: bv16, a: Byte, b: Byte)
    ensures Mix(crc, a) & 0xff == Mix(crc, b) & 0xff
    ensures Mix(crc, a) == Mix(crc, b) ==> a == b
  {
  }

  lemma MixMeets(x: bv16, y: bv16, a: Byte, b: Byte)
    requires Mix(x, a) == Mix(y, b)
    ensures x & 0xff == y & 0xff
  {
  }

  /** A difference in the high half spreads into the low half within eight steps. */
  lemma HighReachesLow(u: bv16, v: bv16)
    requires u & 0xff == v & 0xff && EightSteps(u) & 0xff == EightSteps(v) & 0xff
    ensures u == v
  {
  }

  lemma ByteStepInjective(x: bv16, y: bv16, byte: Byte)
    ensures ByteStep(x, byte) == ByteStep(y, byte) ==> x == y
  {
    var a, b := Mix(x, byte), Mix(y, byte);
    EightStepsInjective(a, b);
    MixInjective(x, y, byte);
  }

  lemma SecondByte(x: bv16, y: bv16, b: Byte, d: Byte)
    requires ByteStep(x, b) == ByteStep(y, d)
    ensures Mix(x, b) == Mix(y, d)
  {
    var a, c := Mix(x, b), Mix(y, d);
    EightStepsInjective(a, c);
  }

  lemma FirstByte(start: bv16, a: Byte, c: Byte)
    requires ByteStep(start, a) & 0xff == ByteStep(start, c) & 0xff
    ensures a == c
  {
    var u, v := Mix(start, a), Mix(start, c);
    MixLow(start, a, c);
    HighReachesLow(u, v);
  }

  /** Registers that start alike and meet after two bytes read the same two bytes. */
  lemma TwoBytes(start: bv16, a: Byte, b: Byte, c: Byte, d: Byte)
    requires ByteStep(ByteStep(start, a), b) == ByteStep(ByteStep(start, c), d)
    ensures a == c && b == d
  {
    var x, y := ByteStep(start, a), ByteStep(start, c);
    SecondByte(x, y, b, d);
    MixMeets(x, y, b, d);
    FirstByte(start, a, c);
    MixLow(x, b, d);
  }

  // ----- Messages -----

  lemma {:induction false} CrcInjective(a: bv16, b: bv16, message: seq<Byte>)
    ensures Crc(a, message) == Crc(b, message) ==> a == b
  {
    if message != [] {
      var front, last := message[..|message| - 1], message[|message| - 1];
      CrcInjective(a, b, front);
      ByteStepInjective(Crc(a, front), Crc(b, front), last);
    }
  }

  lemma {:induction false} CrcAppend(start: bv16, m: seq<Byte>, n: seq<Byte>)
    ensures Crc(start, m + n) == Crc(Crc(start, m), n)
  {
    if n == [] {
      assert m + n == m;
    } else {
      CrcAppend(start, m, n[..|n| - 1]);
      assert (m + n)[..|m + n| - 1] == m + n[..|n| - 1];
    }
  }

  lemma CrcOfTwo(start: bv16, a: Byte, b: Byte)
    ensures Crc(start, [a, b]) == ByteStep(ByteStep(start, a), b)
  {
    assert [a, b][..1] == [a] && [a][..0] == [];
    assert Crc(start, [a]) == ByteStep(start, a);
  }

  /** Messages of one length that differ only within two adjacent bytes have different checksums. */
  lemma DetectsAdjacentBytes(prefix: seq<Byte>, a: Byte, b: Byte, c: Byte, d: Byte, suffix: seq<Byte>)
    requires a != c || b != d
    ensures Crc(0, prefix + [a, b] + suffix) != Crc(0, prefix + [c, d] + suffix)
  {
    var start := Crc(0, prefix);
    CrcAppend(0, prefix + [a, b], suffix);
    CrcAppend(0, prefix + [c, d], suffix);
    CrcAppend(0, prefix, [a, b]);
    CrcAppend(0, prefix, [c, d]);
    CrcOfTwo(start, a, b);
    CrcOfTwo(start, c, d);
    CrcInjective(Crc(start, [a, b]), Crc(start, [c, d]), suffix);
    if ByteStep(ByteStep(start, a), b) == ByteStep(ByteStep(start, c), d) { TwoBytes(start, a, b, c, d); }
  }

  // ----- The loops -----

  function Steps(crc: bv16, n: nat): bv16 {
    if n == 0 then crc else BitStep(Steps(crc, n - 1))
  }

  lemma StepsOfByte(crc: bv16)
    ensures Steps(crc, 8) == EightSteps(crc)
  {
    assert Steps(crc, 2) == BitStep(Steps(crc, 1));
    assert Steps(crc, 4) == BitStep(Steps(crc, 3));
    assert Steps(crc, 6) == BitStep(Steps(crc, 5));
  }

  /** The bit loop of one byte. */
  method ShiftByte(mixed: bv16) returns (crc: bv16)
    ensures crc == EightSteps(mixed)
  {
    crc := mixed;
    for bit := 0 to 8
      invariant crc == Steps(mixed, bit)
    {
      crc := BitStep(crc);
    }
    StepsOfByte(mixed);
  }

  /** `crc16Xmodem`. */
  method Crc16Xmodem(message: seq<Byte>) returns (crc: bv16)
    ensures crc == Crc(0, message)
  {
    crc := 0;
    for i := 0 to |message|
      invariant crc == Crc(0, message[..i])
    {
      assert message[..i + 1][..i] == message[..i];
      crc := ShiftByte(Mix(crc, message[i]));
    }
    assert message[..|message|] == message;
  }
}
