/** The packet hash of the ring lookup. Words are numbers below 2 to the 32nd, as everywhere in the model. */
module PacketHash {
  import opened XdpTypes
  import opened PacketPath
  import NumberTheory

  const SEED: nat := 0x5737a28c
  const FIRST_FACTOR: nat := 0x9e3779b9
  const SECOND_FACTOR: nat := 0x85ebca6b

  function PowerOfTwo(bits: nat): (r: nat)
    ensures r > 0
  {
    if bits == 0 then 1 else 2 * PowerOfTwo(bits - 1)
  }

  /** Exclusive or of the lowest bits. */
  function Xor(a: nat, b: nat, bits: nat): (r: nat)
    ensures r < PowerOfTwo(bits)
  {
    if bits == 0 then 0 else 2 * Xor(a / 2, b / 2, bits - 1) + (a + b) % 2
  }

  lemma HalfAndBit(x: nat, bit: nat)
    requires bit < 2
    ensures (2 * x + bit) / 2 == x && (2 * x + bit) % 2 == bit
  {
  }

  lemma BitTwice(a: nat, b: nat, c: nat)
    requires c % 2 == (b + a) % 2
    ensures (b + c) % 2 == a % 2
  {
  }

  lemma {:induction false} XorTwice(a: nat, b: nat, bits: nat)
    requires a < PowerOfTwo(bits)
    ensures Xor(b, Xor(b, a, bits), bits) == a
  {
    if bits > 0 {
      var (x, bit) := (Xor(b / 2, a / 2, bits - 1), (b + a) % 2);
      assert Xor(b, a, bits) == 2 * x + bit;
      HalfAndBit(x, bit);
      HalfAndBit(a / 2, a % 2);
      BitTwice(a, b, 2 * x + bit);
      XorTwice(a / 2, b / 2, bits - 1);
    }
  }

  lemma {:induction false} XorCommutes(a: nat, b: nat, bits: nat)
    ensures Xor(a, b, bits) == Xor(b, a, bits)
  {
    if bits > 0 {
      XorCommutes(a / 2, b / 2, bits - 1);
    }
  }

  function Xor32(a: nat, b: nat): (r: nat)
    ensures r < U32
  {
    Width32();
    Xor(a, b, 32)
  }

  lemma Width32()
    ensures PowerOfTwo(15) == 0x8000 && PowerOfTwo(17) == 0x2_0000 && PowerOfTwo(32) == U32
  {
    assert PowerOfTwo(5) == 32 && PowerOfTwo(10) == 1024 && PowerOfTwo(15) == 0x8000;
    assert PowerOfTwo(17) == 0x2_0000 && PowerOfTwo(22) == 0x40_0000 && PowerOfTwo(27) == 0x800_0000;
  }

  function Times32(a: nat, b: nat): nat { a * b % U32 }

  /** Left by 13 bits, the bits pushed out coming back on the right. */
  function Rotated(x: nat): nat {
    x % 0x8_0000 * 0x2000 + x / 0x8_0000
  }

  /** Shifted right. */
  function Shifted(x: nat, bits: nat): nat {
    if bits == 0 then x else Shifted(x / 2, bits - 1)
  }

  function Folded(x: nat): (r: nat)
    ensures r < U32
  {
    Xor32(x, Shifted(x, 17))
  }

  function Hash(key: nat): (hash: nat)
    ensures hash < U32
  {
    Times32(Folded(Rotated(Times32(Xor32(SEED, key), FIRST_FACTOR))), SECOND_FACTOR)
  }

  // ---- Each step undone ----

  const FIRST_INVERSE: nat := 0x144cbc89
  const SECOND_INVERSE: nat := 0xa5cb9243

  lemma FactorUndone(x: nat, factor: nat, inverse: nat, k: nat)
    requires x < U32 && factor * inverse == k * U32 + 1
    ensures Times32(Times32(x, inverse), factor) == x
  {
    var q := x * inverse / U32;
    var r := x * inverse % U32;
    assert x * inverse == q * U32 + r;
    assert r * factor == (x * k - q * factor) * U32 + x by {
      assert r * factor == x * inverse * factor - q * U32 * factor;
      assert x * inverse * factor == x * (factor * inverse);
    }
    NumberTheory.DivModUnique(r * factor, U32, x * k - q * factor, x);
  }

  function RotatedBack(x: nat): nat {
    x % 0x2000 * 0x8_0000 + x / 0x2000
  }

  lemma RotationUndone(x: nat)
    requires x < U32
    ensures RotatedBack(x) < U32 && Rotated(RotatedBack(x)) == x
  {
  }

  lemma {:induction false} XorShifted(a: nat, b: nat, bits: nat, k: nat)
    requires k <= bits
    ensures Shifted(Xor(a, b, bits), k) == Xor(Shifted(a, k), Shifted(b, k), bits - k)
  {
    if k > 0 {
      XorShifted(a / 2, b / 2, bits - 1, k - 1);
    }
  }

  lemma {:induction false} ShiftedBelow(x: nat, bits: nat, k: nat)
    requires x < PowerOfTwo(bits) && k <= bits
    ensures Shifted(x, k) < PowerOfTwo(bits - k)
  {
    if k > 0 {
      ShiftedBelow(x / 2, bits - 1, k - 1);
    }
  }

  lemma {:induction false} XorZero(a: nat, bits: nat)
    requires a < PowerOfTwo(bits)
    ensures Xor(a, 0, bits) == a
  {
    if bits > 0 {
      XorZero(a / 2, bits - 1);
    }
  }

  /** Shifting by more than half the width, the fold is its own inverse. */
  lemma FoldUndone(x: nat)
    requires x < U32
    ensures Folded(Folded(x)) == x
  {
    Width32();
    var s := Shifted(x, 17);
    XorShifted(x, s, 32, 17);
    ShiftedBelow(x, 32, 17);
    ShiftedBelow(s, 17, 17);
    assert PowerOfTwo(0) == 1;
    XorZero(s, 15);
    XorCommutes(x, s, 32);
    XorTwice(x, s, 32);
    XorCommutes(Xor(s, x, 32), s, 32);
    hide Xor, PowerOfTwo;
  }

  /** The key with this hash. */
  function KeyWith(hash: nat): (key: nat)
    ensures key < U32
  {
    Xor32(SEED, Times32(RotatedBack(Folded(Times32(hash, SECOND_INVERSE))), FIRST_INVERSE))
  }

  lemma EveryHashHasAKey(hash: nat)
    requires hash < U32
    ensures Hash(KeyWith(hash)) == hash
  {
    var c := Times32(hash, SECOND_INVERSE);
    var a := RotatedBack(Folded(c));
    var z := Times32(a, FIRST_INVERSE);
    Width32();
    FactorUndone(hash, SECOND_FACTOR, SECOND_INVERSE, 1455126516);
    FoldUndone(c);
    RotationUndone(Folded(c));
    FactorUndone(a, FIRST_FACTOR, FIRST_INVERSE, 210485888);
    XorTwice(z, SEED, 32);
    hide Xor, Rotated, RotatedBack, Folded, Times32, PowerOfTwo;
  }

  // ---- Flows ----

  /** Addresses of 32 bits and ports of 16. */
  predicate InRange(flow: SessionKey) {
    flow.src < U32 && flow.dst < U32 && flow.sport < 0x1_0000 && flow.dport < 0x1_0000
  }

  function FlowHash(flow: SessionKey): (hash: nat)
    ensures hash < U32
  {
    Hash(Xor32(Xor32(Xor32(flow.src, flow.dst), flow.sport * 0x1_0000), flow.dport))
  }

  lemma XorUndone(a: nat, b: nat)
    requires a < U32
    ensures Xor32(Xor32(a, b), b) == a
  {
    Width32();
    XorCommutes(a, b, 32);
    XorCommutes(Xor(b, a, 32), b, 32);
    XorTwice(a, b, 32);
  }

  /** To whatever destination and from whatever source port, some source address has this hash. */
  lemma EveryHashIsSomeFlows(hash: nat, dst: nat, sport: nat, dport: nat) returns (src: nat)
    requires hash < U32
    ensures src < U32 && FlowHash(SessionKey(src, dst, sport, dport)) == hash
  {
    var key := KeyWith(hash);
    var a := Xor32(key, dport);
    var b := Xor32(a, sport * 0x1_0000);
    src := Xor32(b, dst);
    EveryHashHasAKey(hash);
    XorUndone(key, dport);
    XorUndone(a, sport * 0x1_0000);
    XorUndone(b, dst);
    hide Xor32, Hash, KeyWith;
  }

  // ---- Known answers ----

  lemma {:induction false} XorSelf(a: nat, bits: nat)
    ensures Xor(a, a, bits) == 0
  {
    if bits > 0 {
      XorSelf(a / 2, bits - 1);
    }
  }

  lemma XorDigit(a: nat, b: nat, p: nat, q: nat, bits: nat)
    requires p < 2 && q < 2
    ensures Xor(2 * a + p, 2 * b + q, bits + 1) == 2 * Xor(a, b, bits) + (p + q) % 2
  {
    HalfAndBit(a, p);
    HalfAndBit(b, q);
    assert (2 * a + p + (2 * b + q)) % 2 == (p + q) % 2;
  }

  function ShiftedLeft(x: nat, bits: nat): nat {
    if bits == 0 then x else 2 * ShiftedLeft(x, bits - 1)
  }

  lemma {:induction false} ShiftedLeftIs(x: nat, bits: nat)
    ensures ShiftedLeft(x, bits) == x * PowerOfTwo(bits)
  {
    if bits > 0 {
      ShiftedLeftIs(x, bits - 1);
      assert x * (2 * PowerOfTwo(bits - 1)) == 2 * (x * PowerOfTwo(bits - 1));
    }
  }

  /** Upper bits that only one number has stay as they are. */
  lemma {:induction false} XorBelow(high: nat, low: nat, other: nat, bits: nat, k: nat)
    requires k <= bits && low < PowerOfTwo(k) && other < PowerOfTwo(k) && high < PowerOfTwo(bits - k)
    ensures Xor(ShiftedLeft(high, k) + low, other, bits) == ShiftedLeft(high, k) + Xor(low, other, k)
  {
    if k == 0 {
      XorZero(high, bits);
    } else {
      XorBelow(high, low / 2, other / 2, bits - 1, k - 1);
      hide Xor;
      XorDigitBelow(ShiftedLeft(high, k - 1), low, other, bits, k);
    }
  }

  lemma XorDigitBelow(h: nat, low: nat, other: nat, bits: nat, k: nat)
    requires 0 < k <= bits && Xor(h + low / 2, other / 2, bits - 1) == h + Xor(low / 2, other / 2, k - 1)
    ensures Xor(2 * h + low, other, bits) == 2 * h + Xor(low, other, k)
  {
    hide Xor;
    XorDigit(h + low / 2, other / 2, low % 2, other % 2, bits - 1);
    XorDigit(low / 2, other / 2, low % 2, other % 2, k - 1);
    assert 2 * (low / 2) + low % 2 == low && 2 * (other / 2) + other % 2 == other;
  }

  /** With source and destination alike, the key is the two ports side by side. */
  lemma KeyOfPorts(a: nat, sport: nat, dport: nat)
    requires a < U32 && sport < 0x1_0000 && dport < 0x1_0000
    ensures FlowHash(SessionKey(a, a, sport, dport)) == Hash(sport * 0x1_0000 + dport)
  {
    Width32();
    assert PowerOfTwo(16) == 0x1_0000;
    XorSelf(a, 32);
    XorCommutes(0, sport * 0x1_0000, 32);
    XorZero(sport * 0x1_0000, 32);
    XorBelow(sport, 0, dport, 32, 16);
    ShiftedLeftIs(sport, 16);
    XorCommutes(0, dport, 16);
    XorZero(dport, 16);
    hide Xor, Hash, PowerOfTwo, ShiftedLeft;
  }

  lemma FoldedZero(zero: nat)
    requires zero == 0
    ensures Folded(zero) == 0
  {
    hide Xor;
    ShiftedBelow(zero, 17, 17);
    XorSelf(zero, 32);
  }

  /** The seed itself hashes to nothing, and so does every flow whose ports spell it. */
  lemma SeedHashesToZero(a: nat)
    requires a < U32
    ensures Hash(0x5737_a28c) == 0 && FlowHash(SessionKey(a, a, 0x5737, 0xa28c)) == 0
  {
    hide Xor, FlowHash, Folded;
    KeyOfPorts(a, 0x5737, 0xa28c);
    XorSelf(0x5737_a28c, 32);
    FoldedZero(0);
  }

  lemma FirstFiveBits()
    ensures Xor(0xc, 0x1d, 5) == 0x11
  {
    hide Xor;
    XorSelf(0, 0);
    XorDigit(0x0, 0x0, 0, 1, 0);
    XorDigit(0x0, 0x1, 1, 1, 1);
    XorDigit(0x1, 0x3, 1, 1, 2);
    XorDigit(0x3, 0x7, 0, 0, 3);
    XorDigit(0x6, 0xe, 0, 1, 4);
  }

  lemma TenBits()
    ensures Xor(0x19e, 0x3bc, 10) == 0x222
  {
    hide Xor;
    FirstFiveBits();
    XorDigit(0xc, 0x1d, 1, 1, 5);
    XorDigit(0x19, 0x3b, 1, 1, 6);
    XorDigit(0x33, 0x77, 1, 1, 7);
    XorDigit(0x67, 0xef, 1, 0, 8);
    XorDigit(0xcf, 0x1de, 0, 0, 9);
  }

  lemma LowBitsOfTheAnswer()
    ensures Xor(0x33c6, 0x779b, 15) == 0x445d
  {
    hide Xor;
    TenBits();
    XorDigit(0x19e, 0x3bc, 0, 1, 10);
    XorDigit(0x33c, 0x779, 0, 1, 11);
    XorDigit(0x678, 0xef3, 1, 0, 12);
    XorDigit(0xcf1, 0x1de6, 1, 1, 13);
    XorDigit(0x19e3, 0x3bcd, 0, 1, 14);
  }

  lemma {:induction false} ShiftedIs(q: nat, r: nat, k: nat)
    requires r < PowerOfTwo(k)
    ensures Shifted(q * PowerOfTwo(k) + r, k) == q
  {
    if k > 0 {
      var p := PowerOfTwo(k - 1);
      assert q * (2 * p) == 2 * (q * p);
      ShiftedIs(q, r / 2, k - 1);
    }
  }

  lemma FoldOfTheAnswer()
    ensures Folded(0xef3733c6) == 0xef37445d
  {
    hide Xor, Shifted, ShiftedLeft;
    Width32();
    assert PowerOfTwo(17) == 2 * PowerOfTwo(16) == 4 * PowerOfTwo(15);
    hide PowerOfTwo;
    ShiftedIs(0x779b, 0x133c6, 17);
    XorBelow(0x1de6e, 0x33c6, 0x779b, 32, 15);
    ShiftedLeftIs(0x1de6e, 15);
    LowBitsOfTheAnswer();
  }

  /** The hash of the key that differs from the seed in the last bit. */
  lemma NextKeyHashesTo()
    ensures Hash(Xor32(0x5737_a28c, 1)) == 0xaa69_f4df
  {
    hide Xor, Folded;
    Width32();
    XorTwice(1, SEED, 32);
    assert Times32(1, FIRST_FACTOR) == 0x9e3779b9;
    assert Rotated(0x9e3779b9) == 0xef3733c6;
    FoldOfTheAnswer();
    assert Times32(0xef37445d, SECOND_FACTOR) == 0xaa69f4df;
  }
}
