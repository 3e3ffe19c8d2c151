/** The hashes of lib/md5.cpp, lib/pbkdf2-sha1.cpp and lib/pbkdf2-sha256.cpp as one-shot functions, over any
compression function: the Merkle-Damgard scheme of section 3 of RFC 1321 and sections 5 and 6 of FIPS 180-4,
HMAC (RFC 2104), the expand step of HKDF (section 2.3 of RFC 5869) and PBKDF2 (section 5.2 of RFC 8018). */
module HashSpec {
  import opened Bytes

  const BLOCK: nat := 64
  const U64: nat := 0x1_0000_0000_0000_0000

  type State = seq<bv32>

  /** A hash: its initial state, its compression of one block, how it writes the state out, and its byte order. */
  datatype Hash = Hash(init: State, compress: (State, seq<byte>) -> State, write: State -> seq<byte>, size: nat, bigEndian: bool)

  ghost predicate HashOk(h: Hash) {
    h.size <= BLOCK && forall s: State :: |h.write(s)| == h.size
  }

  /** The state after whole blocks. */
  function Fold(h: Hash, s: State, data: seq<byte>): State
    requires |data| % BLOCK == 0
    decreases |data|
  {
    if data == [] then s else Fold(h, h.compress(s, data[..BLOCK]), data[BLOCK..])
  }

  lemma {:induction false} FoldConcat(h: Hash, s: State, a: seq<byte>, b: seq<byte>)
    requires |a| % BLOCK == |b| % BLOCK == 0
    ensures |a + b| % BLOCK == 0 && Fold(h, s, a + b) == Fold(h, Fold(h, s, a), b)
    decreases |a|
  {
    if a == [] {
      assert a + b == b;
    } else {
      assert (a + b)[..BLOCK] == a[..BLOCK] && (a + b)[BLOCK..] == a[BLOCK..] + b;
      FoldConcat(h, h.compress(s, a[..BLOCK]), a[BLOCK..], b);
    }
  }

  lemma FoldNone(h: Hash)
    ensures forall m: seq<byte> :: |m| == 0 ==> Fold(h, h.init, m) == h.init
  {
  }

  lemma FoldOne(h: Hash, s: State, block: seq<byte>)
    requires |block| == BLOCK
    ensures Fold(h, s, block) == h.compress(s, block)
  {
    assert block[..BLOCK] == block && block[BLOCK..] == [];
  }

  /** One more block of a message. */
  lemma FoldNext(h: Hash, m: seq<byte>, p: nat)
    requires p % BLOCK == 0 && p + BLOCK <= |m|
    ensures Fold(h, h.init, m[..p + BLOCK]) == h.compress(Fold(h, h.init, m[..p]), m[p..p + BLOCK])
  {
    assert m[..p + BLOCK] == m[..p] + m[p..p + BLOCK];
    FoldConcat(h, h.init, m[..p], m[p..p + BLOCK]);
    FoldOne(h, Fold(h, h.init, m[..p]), m[p..p + BLOCK]);
  }

  // ----- the length field -----

  /** A number of bits, modulo 2^64, in either byte order. */
  function LengthField(bytes: nat, bigEndian: bool): (w: seq<byte>)
    ensures |w| == 8
  {
    var bits := bytes * 8 % U64;
    if bigEndian then Word(bits / U32, true) + Word(bits % U32, true) else Word(bits % U32, false) + Word(bits / U32, false)
  }

  /** How many bytes of padding bring the message to 8 bytes short of whole blocks. */
  function PadLength(n: nat): (k: nat)
    ensures 1 <= k <= BLOCK && (n + k + 8) % BLOCK == 0
  {
    var last := n % BLOCK;
    if last < 56 then 56 - last else 120 - last
  }

  function Zeros(n: nat): (z: seq<byte>)
    ensures |z| == n
  {
    seq(n, _ => 0)
  }

  function Padding(n: nat): (p: seq<byte>)
    requires n >= 1
    ensures |p| == n
  {
    [0x80] + Zeros(n - 1)
  }

  /** The padded message, with a length field for `count` bytes. */
  function Padded(h: Hash, m: seq<byte>, count: nat): (p: seq<byte>)
    ensures |p| % BLOCK == 0
  {
    m + Padding(PadLength(|m|)) + LengthField(count, h.bigEndian)
  }

  /** The digest of a message for a given length field. */
  function DigestFor(h: Hash, m: seq<byte>, count: nat): seq<byte> {
    h.write(Fold(h, h.init, Padded(h, m, count)))
  }

  /** The one-shot hash. */
  function Digest(h: Hash, m: seq<byte>): seq<byte> {
    DigestFor(h, m, |m|)
  }

  lemma DigestSize(h: Hash, m: seq<byte>)
    requires HashOk(h)
    ensures |Digest(h, m)| == h.size && h.size <= BLOCK
  {
  }

  /** The digest is that of the padded message `p`: the message, a byte 0x80, zeros, and the length in bits as eight bytes,
  as few blocks as that takes. */
  lemma DigestIs(h: Hash, m: seq<byte>) returns (p: seq<byte>)
    ensures |p| % 64 == 0 && |m| + 9 <= |p| < |m| + 73
    ensures m <= p && p[|m|] == 0x80 && forall i :: |m| < i < |p| - 8 ==> p[i] == 0
    ensures var bits := 8 * |m| % 0x1_0000_0000_0000_0000; var high, low := bits / 0x1_0000_0000, bits % 0x1_0000_0000;
            p[|p| - 8..] == if h.bigEndian then Word(high, true) + Word(low, true) else Word(low, false) + Word(high, false)
    ensures Digest(h, m) == h.write(Fold(h, h.init, p))
  {
    hide Word, Fold;
    p := Padded(h, m, |m|);
    var k := PadLength(|m|);
    assert p == m + [0x80] + Zeros(k - 1) + LengthField(|m|, h.bigEndian);
    assert p[|m|..] == Padding(k) + LengthField(|m|, h.bigEndian);
    assert p[|p| - 8..] == LengthField(|m|, h.bigEndian);
  }

  function Concat(pieces: seq<seq<byte>>): seq<byte> {
    if pieces == [] then [] else Concat(pieces[..|pieces| - 1]) + pieces[|pieces| - 1]
  }

  /** The length the totals see: of each piece, its length modulo 2^32. */
  function Counted(pieces: seq<seq<byte>>): nat {
    if pieces == [] then 0 else Counted(pieces[..|pieces| - 1]) + |pieces[|pieces| - 1]| % U32
  }

  /** The totals count the message exactly when no single piece has 2^32 bytes or more. */
  lemma {:induction false} CountedIsLength(pieces: seq<seq<byte>>)
    ensures Counted(pieces) <= |Concat(pieces)|
    ensures Counted(pieces) == |Concat(pieces)| <==> forall i :: 0 <= i < |pieces| ==> |pieces[i]| < U32
  {
    if pieces != [] {
      var n := |pieces| - 1;
      CountedIsLength(pieces[..n]);
      assert forall i :: 0 <= i < n ==> pieces[..n][i] == pieces[i];
      ModuloLess(|pieces[n]|);
    }
  }

  lemma ModuloLess(n: nat)
    ensures n % U32 <= n && (n % U32 == n <==> n < U32)
  {
  }

  // ----- HMAC -----

  /** A key of one block: long ones are hashed, short ones padded with zeros. */
  ghost function KeyBlock(h: Hash, key: seq<byte>): (k: seq<byte>)
    requires HashOk(h)
    ensures |k| == BLOCK
  {
    DigestSize(h, key);
    var k := if |key| > BLOCK then Digest(h, key) else key;
    k + Zeros(BLOCK - |k|)
  }

  function Repeat(b: byte): (s: seq<byte>)
    ensures |s| == BLOCK
  {
    seq(BLOCK, _ => b)
  }

  ghost function Hmac(h: Hash, key: seq<byte>, m: seq<byte>): (r: seq<byte>)
    requires HashOk(h)
    ensures |r| == h.size
  {
    var k := KeyBlock(h, key);
    DigestSize(h, XorBytes(Repeat(0x5C), k) + Digest(h, XorBytes(Repeat(0x36), k) + m));
    Digest(h, XorBytes(Repeat(0x5C), k) + Digest(h, XorBytes(Repeat(0x36), k) + m))
  }

  // ----- key derivation -----

  /** The length of `n` digests. */
  function Total(size: nat, n: nat): nat {
    if n == 0 then 0 else Total(size, n - 1) + size
  }

  lemma {:induction false} TotalIs(size: nat, n: nat)
    ensures Total(size, n) == n * size
  {
    if n > 0 {
      TotalIs(size, n - 1);
      assert (n - 1) * size + size == n * size;
    }
  }

  /** T(i) of HKDF-Expand. */
  ghost function HkdfBlock(h: Hash, prk: seq<byte>, info: seq<byte>, i: nat): seq<byte>
    requires HashOk(h)
  {
    if i == 0 then [] else Hmac(h, prk, HkdfBlock(h, prk, info, i - 1) + info + [Octet(i % 256)])
  }

  /** T(1) || ... || T(n) */
  ghost function HkdfStream(h: Hash, prk: seq<byte>, info: seq<byte>, n: nat): (r: seq<byte>)
    requires HashOk(h)
    ensures |r| == Total(h.size, n)
  {
    if n == 0 then [] else HkdfStream(h, prk, info, n - 1) + HkdfBlock(h, prk, info, n)
  }

  /** U_j of PBKDF2 for block `i`, j >= 1. */
  ghost function Pbkdf2U(h: Hash, password: seq<byte>, salt: seq<byte>, i: nat, j: nat): (u: seq<byte>)
    requires HashOk(h) && j >= 1
    ensures |u| == h.size
    decreases j
  {
    if j == 1 then Hmac(h, password, salt + Word(i % U32, true))
    else Hmac(h, password, Pbkdf2U(h, password, salt, i, j - 1))
  }

  /** U_1 xor ... xor U_c */
  ghost function Pbkdf2F(h: Hash, password: seq<byte>, salt: seq<byte>, i: nat, c: nat): (t: seq<byte>)
    requires HashOk(h) && c >= 1
    ensures |t| == h.size
    decreases c
  {
    if c == 1 then Pbkdf2U(h, password, salt, i, 1)
    else XorBytes(Pbkdf2F(h, password, salt, i, c - 1), Pbkdf2U(h, password, salt, i, c))
  }

  /** T_1 || ... || T_n */
  ghost function Pbkdf2Stream(h: Hash, password: seq<byte>, salt: seq<byte>, c: nat, n: nat): (r: seq<byte>)
    requires HashOk(h) && c >= 1
    ensures |r| == Total(h.size, n)
  {
    if n == 0 then [] else Pbkdf2Stream(h, password, salt, c, n - 1) + Pbkdf2F(h, password, salt, n, c)
  }

  // ----- what they amount to -----

  /** HMAC: a key of more than a block is hashed, a shorter one filled up with zeros; combined with 0x36 it stands before the
  message, and combined with 0x5C before the digest of that. */
  lemma HmacMeans(h: Hash, key: seq<byte>, m: seq<byte>) returns (k: seq<byte>, inner: seq<byte>, outer: seq<byte>)
    requires HashOk(h)
    ensures |k| == 64 && (if |key| > 64 then Digest(h, key) else key) <= k
    ensures forall j :: (if |key| > 64 then h.size else |key|) <= j < 64 ==> k[j] == 0
    ensures |inner| == 64 && forall j :: 0 <= j < 64 ==> inner[j] == 0x36 ^ k[j]
    ensures |outer| == 64 && forall j :: 0 <= j < 64 ==> outer[j] == 0x5C ^ k[j]
    ensures Hmac(h, key, m) == Digest(h, outer + Digest(h, inner + m))
  {
    hide Digest, Xor;
    DigestSize(h, key);
    k := KeyBlock(h, key);
    inner, outer := XorBytes(Repeat(0x36), k), XorBytes(Repeat(0x5C), k);
    XorBytesAt(Repeat(0x36), k);
    XorBytesAt(Repeat(0x5C), k);
  }

  /** HKDF: the `i`-th digest of the output is the HMAC of the one before it, the info and the byte `i`. */
  lemma HkdfIs(h: Hash, prk: seq<byte>, info: seq<byte>, n: nat, i: nat) returns (b: byte)
    requires HashOk(h) && 1 <= i <= n <= 255
    ensures b as int == i && Total(h.size, i) <= |HkdfStream(h, prk, info, n)| && Total(h.size, i - 1) + h.size == Total(h.size, i)
    ensures var t := HkdfStream(h, prk, info, n);
            var before := if i == 1 then [] else t[Total(h.size, i - 1) - h.size..Total(h.size, i - 1)];
            t[Total(h.size, i - 1)..Total(h.size, i)] == Hmac(h, prk, before + info + [b])
    decreases n
  {
    hide Hmac, HashOk, Octet, HkdfStream, HkdfBlock, Total;
    b := Octet(i);
    OctetValue(i);
    HkdfAt(h, prk, info, n, i);
    if i > 1 { HkdfAt(h, prk, info, n, i - 1); }
    HkdfNext(h, prk, info, i);
  }

  lemma {:induction false} HkdfAt(h: Hash, prk: seq<byte>, info: seq<byte>, n: nat, i: nat)
    requires HashOk(h) && 1 <= i <= n
    ensures Total(h.size, i) <= Total(h.size, n) && Total(h.size, i - 1) + h.size == Total(h.size, i)
    ensures HkdfStream(h, prk, info, n)[Total(h.size, i - 1)..Total(h.size, i)] == HkdfBlock(h, prk, info, i)
    decreases n
  {
    hide HashOk, HkdfBlock;
    if i < n {
      HkdfAt(h, prk, info, n - 1, i);
      assert HkdfStream(h, prk, info, n)[Total(h.size, i - 1)..Total(h.size, i)]
          == HkdfStream(h, prk, info, n - 1)[Total(h.size, i - 1)..Total(h.size, i)];
    }
  }

  lemma HkdfNext(h: Hash, prk: seq<byte>, info: seq<byte>, i: nat)
    requires HashOk(h) && 1 <= i < 256
    ensures HkdfBlock(h, prk, info, i) == Hmac(h, prk, (if i == 1 then [] else HkdfBlock(h, prk, info, i - 1)) + info + [Octet(i)])
  {
    hide Hmac, HashOk, Octet;
  }

  /** PBKDF2: the `i`-th digest of the output is the exclusive or of `c` digests, each the HMAC of the one before, the first
  that of the salt and the block number; `sums` are the sums on the way. */
  lemma {:induction false} Pbkdf2Is(h: Hash, password: seq<byte>, salt: seq<byte>, i: nat, c: nat)
    returns (us: seq<seq<byte>>, sums: seq<seq<byte>>)
    requires HashOk(h) && c >= 1
    ensures |us| == |sums| == c && sums[0] == us[0] == Hmac(h, password, salt + Word(i % 0x1_0000_0000, true))
    ensures forall j :: 0 <= j < c ==> |us[j]| == |sums[j]| == h.size
    ensures forall j :: 0 < j < c ==> us[j] == Hmac(h, password, us[j - 1])
    ensures forall j :: 0 < j < c ==> sums[j] == XorBytes(sums[j - 1], us[j])
    ensures sums[c - 1] == Pbkdf2F(h, password, salt, i, c) && us[c - 1] == Pbkdf2U(h, password, salt, i, c)
    decreases c
  {
    hide Hmac, HashOk, Word, XorBytes;
    var u, t := Pbkdf2U(h, password, salt, i, c), Pbkdf2F(h, password, salt, i, c);
    if c == 1 {
      us, sums := [u], [t];
    } else {
      us, sums := Pbkdf2Is(h, password, salt, i, c - 1);
      us, sums := us + [u], sums + [t];
    }
  }

  /** And the output is these blocks, one after the other. */
  lemma {:induction false} Pbkdf2Blocks(h: Hash, password: seq<byte>, salt: seq<byte>, c: nat, n: nat, i: nat)
    requires HashOk(h) && c >= 1 && 1 <= i <= n
    ensures Total(h.size, i) <= Total(h.size, n) && Total(h.size, i - 1) + h.size == Total(h.size, i)
    ensures Pbkdf2Stream(h, password, salt, c, n)[Total(h.size, i - 1)..Total(h.size, i)] == Pbkdf2F(h, password, salt, i, c)
    decreases n
  {
    hide HashOk, Pbkdf2F;
    if i < n {
      Pbkdf2Blocks(h, password, salt, c, n - 1, i);
      var t := Pbkdf2Stream(h, password, salt, c, n);
      assert t[Total(h.size, i - 1)..Total(h.size, i)]
          == Pbkdf2Stream(h, password, salt, c, n - 1)[Total(h.size, i - 1)..Total(h.size, i)];
    }
  }
}
