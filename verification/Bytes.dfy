/** Bytes, and numbers as bytes. */
module Bytes {

  type byte = bv8

  const U32: nat := 0x1_0000_0000

  /** The byte of a value. */
  function Octet(n: nat): (b: byte)
    requires n < 256
  {
    if n == 0 then 0 else Octet(n - 1) + 1
  }

  lemma OctetSuccessor(b: byte)
    requires b != 255
    ensures (b + 1) as int == b as int + 1
  {
  }

  lemma {:induction false} OctetValue(n: nat)
    requires n < 256
    ensures Octet(n) as int == n
  {
    if n > 0 {
      OctetValue(n - 1);
      OctetSuccessor(Octet(n - 1));
    }
  }

  /** The value of a byte. */
  function Value(b: byte): (n: nat)
    ensures n < 256
  {
    b as nat
  }

  /** A word of 32 bits in either byte order. */
  function Word(n: nat, bigEndian: bool): (w: seq<byte>)
    requires n < U32
    ensures |w| == 4
  {
    var b0, b1, b2, b3 := Octet(n % 256), Octet(n / 0x100 % 256), Octet(n / 0x1_0000 % 256), Octet(n / 0x100_0000);
    if bigEndian then [b3, b2, b1, b0] else [b0, b1, b2, b3]
  }

  /** `read_u32`: a big-endian word. */
  function ReadWord(s: seq<byte>): (n: nat)
    requires |s| == 4
    ensures n < U32
  {
    0x100_0000 * Value(s[0]) + 0x1_0000 * Value(s[1]) + 0x100 * Value(s[2]) + Value(s[3])
  }

  lemma ReadWordBack(n: nat)
    requires n < U32
    ensures ReadWord(Word(n, true)) == n
  {
    hide Octet;
    OctetValue(n % 256);
    OctetValue(n / 0x100 % 256);
    OctetValue(n / 0x1_0000 % 256);
    OctetValue(n / 0x100_0000);
    Digits(n);
  }

  /** In big-endian order the most significant byte comes first, in little-endian order last. */
  lemma WordBytes(n: nat)
    requires n < U32
    ensures var w := Word(n, true);
            n == 0x100_0000 * (w[0] as int) + 0x1_0000 * (w[1] as int) + 0x100 * (w[2] as int) + (w[3] as int)
    ensures var w := Word(n, false);
            n == w[0] as int + 0x100 * (w[1] as int) + 0x1_0000 * (w[2] as int) + 0x100_0000 * (w[3] as int)
  {
    hide Octet;
    OctetValue(n % 256);
    OctetValue(n / 0x100 % 256);
    OctetValue(n / 0x1_0000 % 256);
    OctetValue(n / 0x100_0000);
    Digits(n);
  }

  lemma Digits(n: nat)
    requires n < U32
    ensures n == 0x100_0000 * (n / 0x100_0000) + 0x1_0000 * (n / 0x1_0000 % 256) + 0x100 * (n / 0x100 % 256) + n % 256
  {
    assert n / 0x1_0000 == n / 0x100 / 256 && n / 0x100_0000 == n / 0x1_0000 / 256;
  }

  function Xor(a: byte, b: byte): byte {
    a ^ b
  }

  lemma XorTwice(a: byte, b: byte)
    ensures Xor(Xor(a, b), b) == a && Xor(b, Xor(b, a)) == a && Xor(a, b) == Xor(b, a)
  {
  }

  function XorBytes(a: seq<byte>, b: seq<byte>): (r: seq<byte>)
    requires |a| == |b|
    ensures |r| == |a|
  {
    seq(|a|, i requires 0 <= i < |a| => Xor(a[i], b[i]))
  }

  lemma XorBytesTwice(a: seq<byte>, b: seq<byte>)
    requires |a| == |b|
    ensures XorBytes(XorBytes(a, b), b) == a
  {
    hide Xor;
    var r := XorBytes(XorBytes(a, b), b);
    forall i | 0 <= i < |a| ensures r[i] == a[i] { XorTwice(a[i], b[i]); }
  }

  lemma XorBytesAt(a: seq<byte>, b: seq<byte>)
    requires |a| == |b|
    ensures forall j :: 0 <= j < |a| ==> XorBytes(a, b)[j] == a[j] ^ b[j]
  {
  }

  /** `memcpy` into an array. */
  method Put(dst: array<byte>, at: nat, s: seq<byte>)
    requires at + |s| <= dst.Length
    modifies dst
    ensures dst[..] == old(dst[..at]) + s + old(dst[at + |s|..])
  {
    forall i | 0 <= i < |s| { dst[at + i] := s[i]; }
  }
}
