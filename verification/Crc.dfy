/** CRC-32 (section 8 of RFC 1952): the table-free byte-at-a-time form refines the bit-at-a-time definition.
The proof is that the division is linear: eight steps of a sum are the sum of eight steps. */
module Crc {
  import opened Bytes

  const POLY: bv32 := 0xEDB88320

  function Shr(x: bv32, n: bv6): bv32
    requires n <= 32
  {
    x >> n
  }

  /** The sum of two remainders. */
  function Plus(a: bv32, b: bv32): bv32 {
    a ^ b
  }

  /** One step of the reflected division. */
  function Bit(crc: bv32): bv32 {
    if crc & 1 == 1 then Plus(Shr(crc, 1), POLY) else Shr(crc, 1)
  }

  function Bits(crc: bv32, n: nat): bv32
    decreases n
  {
    if n == 0 then crc else Bits(Bit(crc), n - 1)
  }

  function Mix(crc: bv32, b: byte): bv32 {
    crc ^ (b as bv32)
  }

  /** The register after a message. */
  function Register(crc: bv32, message: seq<byte>): bv32 {
    if message == [] then crc
    else
      var n := |message| - 1;
      Bits(Mix(Register(crc, message[..n]), message[n]), 8)
  }

  /** The CRC-32 of a message, bit by bit. */
  function Crc32(message: seq<byte>): bv32 {
    !Register(0xFFFF_FFFF, message)
  }

  // ----- the code's form -----

  const G0: bv32 := POLY
  const G1: bv32 := 0x76DC4190
  const G2: bv32 := 0x3B6E20C8
  const G3: bv32 := 0x1DB71064
  const G4: bv32 := 0x0EDB8832
  const G5: bv32 := 0x076DC419
  const G6: bv32 := 0xEE0E612C
  const G7: bv32 := 0x77073096

  /** The constants are those the code computes by shifting. */
  lemma Constants()
    ensures G1 == Shr(G0, 1) && G2 == Shr(G0, 2) && G3 == Shr(G0, 3) && G4 == Shr(G0, 4) && G5 == Shr(G0, 5)
    ensures G6 == Plus(Shr(G0, 6), G0) && G7 == Shr(Plus(Shr(G0, 6), G0), 1)
  {
  }

  /** C's `(crc << 31 - k >> 31) & g` on a signed word: `g` when bit `k` is set, else zero.  `unit` is that bit. */
  function If(crc: bv32, unit: bv32, g: bv32): bv32 {
    if crc & unit == unit then g else 0
  }

  /** Eight steps at once. */
  function Fast(crc: bv32): bv32 {
    Plus(Plus(Plus(Plus(Plus(Plus(Plus(Plus(Shr(crc, 8),
      If(crc, 0x01, G7)), If(crc, 0x02, G6)), If(crc, 0x04, G5)), If(crc, 0x08, G4)),
      If(crc, 0x10, G3)), If(crc, 0x20, G2)), If(crc, 0x40, G1)), If(crc, 0x80, G0))
  }

  // ----- linearity -----

  lemma ShrLinear(a: bv32, b: bv32)
    ensures Shr(Plus(a, b), 1) == Plus(Shr(a, 1), Shr(b, 1))
  {
  }

  lemma LowLinear(a: bv32, b: bv32)
    ensures Plus(a, b) & 1 == (a & 1) ^ (b & 1)
    ensures (a & 1 == 0 || a & 1 == 1) && (b & 1 == 0 || b & 1 == 1)
  {
  }

  lemma PlusIs(a: bv32, b: bv32)
    ensures Plus(a, b) == a ^ b
  {
  }

  lemma XorAssoc(a: bv32, b: bv32, c: bv32, ab: bv32, bc: bv32)
    requires ab == a ^ b && bc == b ^ c
    ensures ab ^ c == a ^ bc
  {
  }

  lemma PlusAssoc(a: bv32, b: bv32, c: bv32)
    ensures Plus(Plus(a, b), c) == Plus(a, Plus(b, c))
  {
    hide Plus;
    var ab, bc := Plus(a, b), Plus(b, c);
    PlusIs(a, b);
    PlusIs(b, c);
    PlusIs(ab, c);
    PlusIs(a, bc);
    XorAssoc(a, b, c, ab, bc);
  }

  lemma PlusLaws(a: bv32, b: bv32)
    ensures Plus(a, b) == Plus(b, a) && Plus(a, a) == 0 && Plus(a, 0) == a
  {
  }

  lemma PlusPoly(x: bv32, y: bv32)
    ensures Plus(Plus(x, POLY), Plus(y, POLY)) == Plus(x, y)
    ensures Plus(Plus(x, POLY), y) == Plus(Plus(x, y), POLY) && Plus(x, Plus(y, POLY)) == Plus(Plus(x, y), POLY)
  {
    hide Plus;
    PlusAssoc(x, y, POLY);
    PlusAssoc(x, POLY, y);
    PlusLaws(y, POLY);
    PlusAssoc(x, POLY, Plus(POLY, y));
    PlusAssoc(POLY, POLY, y);
    PlusLaws(POLY, POLY);
    PlusLaws(y, 0);
    PlusLaws(0, y);
  }

  lemma BitLinear(a: bv32, b: bv32)
    ensures Bit(Plus(a, b)) == Plus(Bit(a), Bit(b))
  {
    hide Plus, Shr;
    ShrLinear(a, b);
    LowLinear(a, b);
    PlusPoly(Shr(a, 1), Shr(b, 1));
  }

  lemma {:induction false} BitsLinear(a: bv32, b: bv32, n: nat)
    ensures Bits(Plus(a, b), n) == Plus(Bits(a, n), Bits(b, n))
    decreases n
  {
    hide Bit, Plus;
    if n > 0 {
      BitLinear(a, b);
      BitsLinear(Bit(a), Bit(b), n - 1);
    }
  }

  lemma BitOfZero()
    ensures Bit(0) == 0
  {
  }

  lemma {:induction false} BitsZero(n: nat)
    ensures Bits(0, n) == 0
  {
    hide Bit;
    BitOfZero();
    if n > 0 { BitsZero(n - 1); }
  }

  lemma EightSteps(x0: bv32, x1: bv32, x2: bv32, x3: bv32, x4: bv32, x5: bv32, x6: bv32, x7: bv32, x8: bv32)
    requires Bit(x0) == x1 && Bit(x1) == x2 && Bit(x2) == x3 && Bit(x3) == x4
    requires Bit(x4) == x5 && Bit(x5) == x6 && Bit(x6) == x7 && Bit(x7) == x8
    ensures Bits(x0, 8) == x8
  {
    hide Bit;
    assert Bits(x0, 8) == Bits(x1, 7) == Bits(x2, 6) == Bits(x3, 5) == Bits(x4, 4);
    assert Bits(x4, 4) == Bits(x5, 3) == Bits(x6, 2) == Bits(x7, 1) == Bits(x8, 0);
  }

  /** A bit of the low byte goes through eight steps into one of the constants. */
  lemma BitsUnit()
    ensures Bits(0x01, 8) == G7 && Bits(0x02, 8) == G6 && Bits(0x04, 8) == G5 && Bits(0x08, 8) == G4
    ensures Bits(0x10, 8) == G3 && Bits(0x20, 8) == G2 && Bits(0x40, 8) == G1 && Bits(0x80, 8) == G0
  {
    hide Bits;
    EightSteps(0x80, 0x40, 0x20, 0x10, 0x08, 0x04, 0x02, 0x01, G0);
    EightSteps(0x40, 0x20, 0x10, 0x08, 0x04, 0x02, 0x01, G0, G1);
    EightSteps(0x20, 0x10, 0x08, 0x04, 0x02, 0x01, G0, G1, G2);
    EightSteps(0x10, 0x08, 0x04, 0x02, 0x01, G0, G1, G2, G3);
    EightSteps(0x08, 0x04, 0x02, 0x01, G0, G1, G2, G3, G4);
    EightSteps(0x04, 0x02, 0x01, G0, G1, G2, G3, G4, G5);
    EightSteps(0x02, 0x01, G0, G1, G2, G3, G4, G5, G6);
    EightSteps(0x01, G0, G1, G2, G3, G4, G5, G6, G7);
  }

  lemma BitEven(y: bv32)
    requires y & 1 == 0
    ensures Bit(y) == Shr(y, 1)
  {
    hide Shr, Plus;
  }

  lemma ShrLow(x: bv32, n: bv6)
    requires n < 8 && x & 0xFF == 0
    ensures Shr(x, n) & 1 == 0 && Shr(Shr(x, n), 1) == Shr(x, n + 1) && Shr(x, 0) == x
  {
    if n == 0 { } else if n == 1 { } else if n == 2 { } else if n == 3 { }
    else if n == 4 { } else if n == 5 { } else if n == 6 { } else { assert n == 7; }
  }

  lemma HighSteps(x: bv32)
    requires x & 0xFF == 0
    ensures Bit(x) == Shr(x, 1) && Bit(Shr(x, 1)) == Shr(x, 2) && Bit(Shr(x, 2)) == Shr(x, 3) && Bit(Shr(x, 3)) == Shr(x, 4)
    ensures Bit(Shr(x, 4)) == Shr(x, 5) && Bit(Shr(x, 5)) == Shr(x, 6) && Bit(Shr(x, 6)) == Shr(x, 7) && Bit(Shr(x, 7)) == Shr(x, 8)
  {
    hide Shr, Plus, Bit;
    ShrLow(x, 0); ShrLow(x, 1); ShrLow(x, 2); ShrLow(x, 3);
    ShrLow(x, 4); ShrLow(x, 5); ShrLow(x, 6); ShrLow(x, 7);
    BitEven(x); BitEven(Shr(x, 1)); BitEven(Shr(x, 2)); BitEven(Shr(x, 3));
    BitEven(Shr(x, 4)); BitEven(Shr(x, 5)); BitEven(Shr(x, 6)); BitEven(Shr(x, 7));
  }

  lemma High(x: bv32)
    ensures And(x, 0xFFFF_FF00) & 0xFF == 0 && Shr(And(x, 0xFFFF_FF00), 8) == Shr(x, 8)
  {
  }

  /** The high bits are only shifted. */
  lemma BitsHigh(x: bv32)
    ensures Bits(And(x, 0xFFFF_FF00), 8) == Shr(x, 8)
  {
    hide Bit, Bits, Shr, And;
    High(x);
    var h := And(x, 0xFFFF_FF00);
    HighSteps(h);
    EightSteps(h, Shr(h, 1), Shr(h, 2), Shr(h, 3), Shr(h, 4), Shr(h, 5), Shr(h, 6), Shr(h, 7), Shr(h, 8));
  }

  function Low(x: bv32, unit: bv32): bv32 {
    x & unit
  }

  /** One bit more under a mask. */
  lemma Peel(x: bv32, mask: bv32, unit: bv32, both: bv32)
    requires mask & unit == 0 && both == mask | unit
    ensures And(x, both) == Plus(And(x, mask), Low(x, unit))
  {
    hide Plus, And, Low;
    var a, l, b := And(x, mask), Low(x, unit), And(x, both);
    AndMeans(x, mask);
    AndMeans(x, both);
    LowMeans(x, unit);
    PlusIs(a, l);
    XorOfParts(x, mask, unit, both, a, l, b);
  }

  function And(x: bv32, mask: bv32): bv32 {
    x & mask
  }

  lemma AndMeans(x: bv32, mask: bv32)
    ensures And(x, mask) == x & mask
  {
  }

  lemma XorOfParts(x: bv32, mask: bv32, unit: bv32, both: bv32, a: bv32, l: bv32, b: bv32)
    requires mask & unit == 0 && both == mask | unit && a == x & mask && l == x & unit && b == x & both
    ensures b == a ^ l
  {
  }

  lemma AndAll(x: bv32)
    ensures And(x, 0xFFFF_FFFF) == x
  {
  }

  lemma Splits(x: bv32)
    ensures x == Plus(Plus(Plus(Plus(Plus(Plus(Plus(Plus(And(x, 0xFFFF_FF00),
                   Low(x, 0x01)), Low(x, 0x02)), Low(x, 0x04)), Low(x, 0x08)),
                   Low(x, 0x10)), Low(x, 0x20)), Low(x, 0x40)), Low(x, 0x80))
  {
    hide Plus, Low, And;
    Peel(x, 0xFFFF_FF00, 0x01, 0xFFFF_FF01);
    Peel(x, 0xFFFF_FF01, 0x02, 0xFFFF_FF03);
    Peel(x, 0xFFFF_FF03, 0x04, 0xFFFF_FF07);
    Peel(x, 0xFFFF_FF07, 0x08, 0xFFFF_FF0F);
    Peel(x, 0xFFFF_FF0F, 0x10, 0xFFFF_FF1F);
    Peel(x, 0xFFFF_FF1F, 0x20, 0xFFFF_FF3F);
    Peel(x, 0xFFFF_FF3F, 0x40, 0xFFFF_FF7F);
    Peel(x, 0xFFFF_FF7F, 0x80, 0xFFFF_FFFF);
    AndAll(x);
  }

  lemma LowMeans(x: bv32, unit: bv32)
    ensures Low(x, unit) == x & unit
  {
  }

  predicate Unit(unit: bv32) {
    unit == 0x01 || unit == 0x02 || unit == 0x04 || unit == 0x08 || unit == 0x10 || unit == 0x20 || unit == 0x40 || unit == 0x80
  }

  lemma LowIs(x: bv32, unit: bv32)
    requires Unit(unit)
    ensures Low(x, unit) == If(x, unit, unit)
  {
  }

  lemma BitsLow(x: bv32, unit: bv32, g: bv32)
    requires Unit(unit) && Bits(unit, 8) == g
    ensures Bits(Low(x, unit), 8) == If(x, unit, g)
  {
    hide Bit, Bits, Low;
    LowIs(x, unit);
    BitsZero(8);
  }

  lemma BitsSum(a: bv32, b: bv32, p: bv32, q: bv32)
    requires Bits(a, 8) == p && Bits(b, 8) == q
    ensures Bits(Plus(a, b), 8) == Plus(p, q)
  {
    hide Bits, Plus;
    BitsLinear(a, b, 8);
  }

  /** Eight bits at once are eight bits one by one. */
  lemma FastIsEightBits(x: bv32)
    ensures Fast(x) == Bits(x, 8)
  {
    hide Bit, Bits, Plus, Shr, If, Low, And;
    BitsUnit();
    Splits(x);
    BitsHigh(x);
    BitsLow(x, 0x01, G7); BitsLow(x, 0x02, G6); BitsLow(x, 0x04, G5); BitsLow(x, 0x08, G4);
    BitsLow(x, 0x10, G3); BitsLow(x, 0x20, G2); BitsLow(x, 0x40, G1); BitsLow(x, 0x80, G0);
    var s0, t0 := Plus(And(x, 0xFFFF_FF00), Low(x, 0x01)), Plus(Shr(x, 8), If(x, 0x01, G7));
    BitsSum(And(x, 0xFFFF_FF00), Low(x, 0x01), Shr(x, 8), If(x, 0x01, G7));
    var s1, t1 := Plus(s0, Low(x, 0x02)), Plus(t0, If(x, 0x02, G6));
    BitsSum(s0, Low(x, 0x02), t0, If(x, 0x02, G6));
    var s2, t2 := Plus(s1, Low(x, 0x04)), Plus(t1, If(x, 0x04, G5));
    BitsSum(s1, Low(x, 0x04), t1, If(x, 0x04, G5));
    var s3, t3 := Plus(s2, Low(x, 0x08)), Plus(t2, If(x, 0x08, G4));
    BitsSum(s2, Low(x, 0x08), t2, If(x, 0x08, G4));
    var s4, t4 := Plus(s3, Low(x, 0x10)), Plus(t3, If(x, 0x10, G3));
    BitsSum(s3, Low(x, 0x10), t3, If(x, 0x10, G3));
    var s5, t5 := Plus(s4, Low(x, 0x20)), Plus(t4, If(x, 0x20, G2));
    BitsSum(s4, Low(x, 0x20), t4, If(x, 0x20, G2));
    var s6, t6 := Plus(s5, Low(x, 0x40)), Plus(t5, If(x, 0x40, G1));
    BitsSum(s5, Low(x, 0x40), t5, If(x, 0x40, G1));
    BitsSum(s6, Low(x, 0x80), t6, If(x, 0x80, G0));
  }

  function FastStep(crc: bv32, b: byte): bv32 {
    Fast(Mix(crc, b))
  }

  lemma RegisterNext(crc: bv32, message: seq<byte>, i: nat)
    requires i < |message|
    ensures Register(crc, message[..i + 1]) == FastStep(Register(crc, message[..i]), message[i])
  {
    hide Fast, Bits, Mix;
    assert message[..i + 1][..i] == message[..i];
    FastIsEightBits(Mix(Register(crc, message[..i]), message[i]));
  }

  lemma RegisterNone(crc: bv32)
    ensures Register(crc, []) == crc
  {
  }

  /** The check value of this CRC: the digest of the digits 1 to 9. */
  lemma CheckValue()
    ensures Crc32([0x31, 0x32, 0x33, 0x34, 0x35, 0x36, 0x37, 0x38, 0x39]) == 0xCBF4_3926
  {
    hide Register;
    RegisterNone(0xFFFF_FFFF);
    var m0: seq<byte> := [];
    var m1 := m0 + [0x31];
    var m2 := m1 + [0x32];
    var m3 := m2 + [0x33];
    var m4 := m3 + [0x34];
    var m5 := m4 + [0x35];
    var m6 := m5 + [0x36];
    var m7 := m6 + [0x37];
    var m8 := m7 + [0x38];
    var m9 := m8 + [0x39];
    Step(m0, 0x31, 0xFFFF_FFFF, 0x7C23_1048);
    Step(m1, 0x32, 0x7C23_1048, 0xB0AC_BB32);
    Step(m2, 0x33, 0xB0AC_BB32, 0x77B7_9C2D);
    Step(m3, 0x34, 0x77B7_9C2D, 0x641C_1F5C);
    Step(m4, 0x35, 0x641C_1F5C, 0x340A_C5E3);
    Step(m5, 0x36, 0x340A_C5E3, 0xF68D_2C9E);
    Step(m6, 0x37, 0xF68D_2C9E, 0xAFFC_9660);
    Step(m7, 0x38, 0xAFFC_9660, 0x651F_2550);
    Step(m8, 0x39, 0x651F_2550, 0x340B_C6D9);
    assert m9 == [0x31, 0x32, 0x33, 0x34, 0x35, 0x36, 0x37, 0x38, 0x39];
  }

  lemma Step(m: seq<byte>, b: byte, r: bv32, next: bv32)
    requires Register(0xFFFF_FFFF, m) == r && FastStep(r, b) == next
    ensures Register(0xFFFF_FFFF, m + [b]) == next
  {
    hide FastStep;
    var more := m + [b];
    RegisterNext(0xFFFF_FFFF, more, |m|);
    assert more[..|m|] == m && more[..|m| + 1] == more;
  }

  /** `crc32h` */
  method Crc32h(message: array<byte>, len: nat) returns (r: bv32)
    requires len <= message.Length
    ensures r == Crc32(message[..len])
  {
    hide FastStep, Register;
    ghost var all := message[..len];
    var i, crc := 0, 0xFFFF_FFFF;
    assert all[..0] == [];
    RegisterNone(crc);
    while i != len
      invariant i <= len && crc == Register(0xFFFF_FFFF, all[..i])
    {
      RegisterNext(0xFFFF_FFFF, all, i);
      crc := FastStep(crc, message[i]);
      i := i + 1;
    }
    assert all[..len] == all;
    return !crc;
  }
}
