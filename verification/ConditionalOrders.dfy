/** The conditional-order contract (contracts/conditional-order/src/lib.rs). */
module ConditionalOrders {
  import opened Common
  import opened Digits

  /** 32 bytes, most significant first. */
  type Bytes32 = b: seq<nat> | |b| == 32 && AreDigits(b, 256) witness seq(32, i => 0)

  /** The scalar modulus of BN254. */
  const MODULUS_BYTES: seq<nat> := [
    0x30, 0x64, 0x4e, 0x72, 0xe1, 0x31, 0xa0, 0x29, 0xb8, 0x50, 0x45, 0xb6, 0x81, 0x81, 0x58, 0x5d,
    0x28, 0x33, 0xe8, 0x48, 0x79, 0xb9, 0x70, 0x91, 0x43, 0xe1, 0xf5, 0x93, 0xf0, 0x00, 0x00, 0x01]

  function Modulus(): (m: nat)
    ensures m > 0
  {
    FromDigits(MODULUS_BYTES[..31], 256) * 256 + MODULUS_BYTES[31]
  }

  /** Remainder of natural numbers, with what defines it. */
  function Remainder(value: nat, d: nat): (r: nat)
    requires d > 0
    ensures r < d && r == value - value / d * d
  {
    QuotientBounds(value, d);
    value - value / d * d
  }

  // ----- The public inputs of a close proof -----

  /** `field_bytes`: the value reduced modulo the field, in 32 bytes. */
  function FieldBytes(value: Bytes32): (b: seq<nat>)
    ensures |b| == 32
  {
    ToDigits(Remainder(FromDigits(value, 256), Modulus()), 256, 32)
  }

  /** The 96 bytes that are hashed. */
  function PublicInputs(markPrice: nat, nullifier: Bytes32, commitment: Bytes32): (b: seq<nat>)
    ensures |b| == 96
  {
    ToDigits(markPrice, 256, 32) + FieldBytes(nullifier) + FieldBytes(commitment)
  }

  predicate SameField(a: Bytes32, b: Bytes32) {
    Remainder(FromDigits(a, 256), Modulus()) == Remainder(FromDigits(b, 256), Modulus())
  }

  lemma {:induction false} PowMonotone(base: nat, m: nat, n: nat)
    requires base > 0 && m <= n
    ensures Pow(base, m) <= Pow(base, n)
  {
    if m < n {
      PowMonotone(base, m, n - 1);
      MulMonotone(1, base, Pow(base, n - 1));
    }
  }

  lemma DigitsInjective(a: nat, b: nat, n: nat)
    requires a < Pow(256, n) && b < Pow(256, n)
    ensures ToDigits(a, 256, n) == ToDigits(b, 256, n) <==> a == b
  {
    FromToDigits(a, 256, n);
    FromToDigits(b, 256, n);
  }

  /** The modulus fits 32 bytes. */
  lemma ModulusFits()
    ensures Modulus() < Pow(256, 32)
  {
    var front := MODULUS_BYTES[..31];
    assert AreDigits(front, 256);
    FromDigitsBound(front, 256);
    assert Pow(256, 32) == 256 * Pow(256, 31);
  }

  lemma FieldBytesInjective(a: Bytes32, b: Bytes32)
    ensures FieldBytes(a) == FieldBytes(b) <==> SameField(a, b)
  {
    ModulusFits();
    DigitsInjective(Remainder(FromDigits(a, 256), Modulus()), Remainder(FromDigits(b, 256), Modulus()), 32);
  }

  /** A price the contract can pass on: an unsigned 128-bit number. */
  predicate FitsU128(price: int) {
    0 <= price < Pow(256, 16)
  }

  /** Two inputs have the same 96 bytes exactly if the prices agree and the other two fields agree in the field. */
  lemma {:induction false} PublicInputsInjective(p: nat, n: Bytes32, c: Bytes32, q: nat, m: Bytes32, d: Bytes32)
    requires FitsU128(p) && FitsU128(q)
    ensures PublicInputs(p, n, c) == PublicInputs(q, m, d) <==> p == q && SameField(n, m) && SameField(c, d)
  {
    PowMonotone(256, 16, 32);
    DigitsInjective(p, q, 32);
    FieldBytesInjective(n, m);
    FieldBytesInjective(c, d);
    var x, y := PublicInputs(p, n, c), PublicInputs(q, m, d);
    assert x[..32] == ToDigits(p, 256, 32) && x[32..64] == FieldBytes(n) && x[64..] == FieldBytes(c);
    assert y[..32] == ToDigits(q, 256, 32) && y[32..64] == FieldBytes(m) && y[64..] == FieldBytes(d);
    if x[..32] == y[..32] && x[32..64] == y[32..64] && x[64..] == y[64..] {
      assert x == x[..32] + x[32..64] + x[64..] && y == y[..32] + y[32..64] + y[64..];
    }
  }

  // ----- The contract -----

  datatype Order = Order(market: Bytes32, nullifier: Bytes32)

  datatype Proof = Proof(circuitId: Bytes32, circuitHash: Bytes32, verifierHash: Bytes32,
                         publicInputHash: Bytes32, proofDigest: Bytes32)

  datatype Trigger = Trigger(market: Bytes32, markPrice: int, nullifier: Bytes32, proof: Proof)

  /** What the market, governance and proof-ledger contracts answer during one call. */
  datatype Answers = Answers(marketActive: bool, oraclePrice: int, paused: bool, verifier: Bytes32, hasProof: bool)

  predicate IsZero(b: Bytes32) {
    forall i | 0 <= i < 32 :: b[i] == 0
  }

  predicate ProofAccepted(proof: Proof, circuit: Bytes32, answers: Answers) {
    && !IsZero(proof.circuitId) && !IsZero(proof.circuitHash) && !IsZero(proof.verifierHash)
    && !IsZero(proof.publicInputHash) && !IsZero(proof.proofDigest)
    && proof.circuitId == circuit && !answers.paused && proof.verifierHash == answers.verifier && answers.hasProof
  }

  /** Entries are only ever added. */
  ghost predicate Grows<V>(before: map<Bytes32, V>, after: map<Bytes32, V>) {
    forall c | c in before :: c in after && after[c] == before[c]
  }

  datatype Call =
    | Init(circuit: Bytes32)
    | Register(market: Bytes32, nullifier: Bytes32, commitment: Bytes32)
    | TriggerOrder(market: Bytes32, nullifier: Bytes32, commitment: Bytes32, markPrice: int, proof: Proof, answers: Answers)

  /** A trigger carries its order's terms and a proof about exactly its inputs. */
  predicate TriggerSound(sha256: seq<nat> -> Bytes32, order: Order, t: Trigger, commitment: Bytes32) {
    && order == Order(t.market, t.nullifier) && t.markPrice > 0
    && t.proof.publicInputHash == sha256(PublicInputs(t.markPrice, t.nullifier, commitment))
  }

  class Contract {
    /** The hash function of the host. */
    const sha256: seq<nat> -> Bytes32
    var circuit: Option<Bytes32>
    var orders: map<Bytes32, Order>
    var triggers: map<Bytes32, Trigger>

    /** A trigger is of a registered order, with its terms, and of a proof about exactly its inputs. */
    ghost predicate Valid()
      reads this
    {
      forall c | c in triggers :: c in orders && TriggerSound(sha256, orders[c], triggers[c], c)
    }

    constructor (sha256: seq<nat> -> Bytes32)
      ensures Valid() && this.sha256 == sha256 && orders == map[] && triggers == map[] && circuit.None?
    {
      this.sha256 := sha256;
      circuit, orders, triggers := None, map[], map[];
    }

    method Initialize(circuitId: Bytes32) returns (ok: bool)
      requires Valid()
      modifies this`circuit
      ensures Valid() && (ok <==> !IsZero(circuitId) && old(circuit).None?)
      ensures circuit == if ok then Some(circuitId) else old(circuit)
    {
      if IsZero(circuitId) || circuit.Some? { return false; }
      circuit := Some(circuitId);
      return true;
    }

    method RegisterOrder(market: Bytes32, nullifier: Bytes32, commitment: Bytes32) returns (ok: bool)
      requires Valid()
      modifies this`orders
      ensures Valid() && Grows(old(orders), orders)
      ensures ok <==> && circuit.Some? && !IsZero(market) && !IsZero(nullifier) && !IsZero(commitment)
                      && commitment !in old(orders)
      ensures orders == if ok then old(orders)[commitment := Order(market, nullifier)] else old(orders)
    {
      if circuit.None? || IsZero(market) || IsZero(nullifier) || IsZero(commitment) { return false; }
      if commitment in orders { return false; }
      orders := orders[commitment := Order(market, nullifier)];
      return true;
    }

    /** The checks on the order named by a call, and that it was not triggered before. */
    predicate MatchesOrder(market: Bytes32, nullifier: Bytes32, commitment: Bytes32)
      reads this
    {
      && !IsZero(market) && !IsZero(nullifier) && !IsZero(commitment)
      && commitment in orders && orders[commitment] == Order(market, nullifier) && commitment !in triggers
    }

    /** The checks on the price and the proof. */
    predicate Proves(nullifier: Bytes32, commitment: Bytes32, markPrice: int, proof: Proof, answers: Answers)
      reads this
    {
      && markPrice > 0 && answers.marketActive && answers.oraclePrice == markPrice
      && circuit.Some? && ProofAccepted(proof, circuit.value, answers)
      && proof.publicInputHash == sha256(PublicInputs(markPrice, nullifier, commitment))
    }

    method TriggerFor(market: Bytes32, nullifier: Bytes32, commitment: Bytes32, markPrice: int, proof: Proof, answers: Answers)
      returns (ok: bool)
      requires Valid()
      modifies this`triggers
      ensures Valid() && Grows(old(triggers), triggers)
      ensures ok <==> old(MatchesOrder(market, nullifier, commitment)) &&
                      old(Proves(nullifier, commitment, markPrice, proof, answers))
      ensures triggers == if ok then old(triggers)[commitment := Trigger(market, markPrice, nullifier, proof)] else old(triggers)
    {
      if !MatchesOrder(market, nullifier, commitment) { return false; }
      if !Proves(nullifier, commitment, markPrice, proof, answers) { return false; }
      triggers := triggers[commitment := Trigger(market, markPrice, nullifier, proof)];
      return true;
    }

    predicate IsRegistered(commitment: Bytes32)
      reads this
    {
      commitment in orders
    }

    predicate IsTriggeredFor(market: Bytes32, nullifier: Bytes32, commitment: Bytes32)
      reads this
    {
      commitment in triggers && triggers[commitment].market == market && triggers[commitment].nullifier == nullifier
    }

    /** What `is_triggered_for` confirms was registered, with exactly those terms. */
    lemma {:induction false} TriggeredMeansRegistered(market: Bytes32, nullifier: Bytes32, commitment: Bytes32)
      requires Valid() && IsTriggeredFor(market, nullifier, commitment)
      ensures IsRegistered(commitment) && orders[commitment] == Order(market, nullifier)
    {
      assert commitment in triggers;
    }

    /** Any sequence of calls: what was registered or triggered stays so, unchanged. */
    method Run(calls: seq<Call>)
      requires Valid()
      modifies this
      ensures Valid() && Grows(old(orders), orders) && Grows(old(triggers), triggers)
      ensures forall m, n, c | old(IsTriggeredFor(m, n, c)) :: IsTriggeredFor(m, n, c) && orders[c] == Order(m, n)
    {
      for i := 0 to |calls|
        invariant Valid() && Grows(old(orders), orders) && Grows(old(triggers), triggers)
      {
        var ok: bool;
        match calls[i]
        case Init(circuitId) => ok := Initialize(circuitId);
        case Register(m, n, c) => ok := RegisterOrder(m, n, c);
        case TriggerOrder(m, n, c, price, proof, answers) => ok := TriggerFor(m, n, c, price, proof, answers);
      }
    }
  }
}
