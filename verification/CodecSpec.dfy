/** What the packet codec of encrypt.cpp computes: padding, ciphers and authentication, as functions on bytes.
The block cipher, MD5 and HMAC-SHA1 are arbitrary functions of the right shape. */
module CodecSpec {
  import opened Bytes
  import opened BlockModes
  import Crc

  const MAX_DATA_LEN: nat := 1800
  const BUF_LEN: nat := 2200

  datatype Option<T> = None | Some(value: T)

  datatype CipherMode = CipherNone | Aes128Cbc | CipherXor | Aes128Cfb

  datatype AuthMode = AuthNone | AuthMd5 | AuthCrc32 | AuthSimple | AuthHmacSha1

  datatype Setup = Setup(cipher: CipherMode, auth: AuthMode, cfbOld: bool, block: BlockCipher,
                         md5: seq<byte> -> seq<byte>, hmac: (seq<byte>, seq<byte>) -> seq<byte>)

  datatype Keys = Keys(normal: seq<byte>, cipherEnc: seq<byte>, cipherDec: seq<byte>, hmacEnc: seq<byte>, hmacDec: seq<byte>)

  ghost predicate SetupOk(s: Setup) {
    && Permutes(s.block)
    && (forall d: seq<byte> :: |s.md5(d)| == 16)
    && (forall k: seq<byte>, d: seq<byte> :: |s.hmac(k, d)| == 20)
  }

  predicate KeysOk(k: Keys) {
    |k.normal| >= 16 && |k.cipherEnc| >= 16 && |k.cipherDec| >= 16 && |k.hmacEnc| >= 20 && |k.hmacDec| >= 20
  }

  /** The other end's keys: what one end encrypts with, the other decrypts with. */
  function Mirror(k: Keys): Keys {
    Keys(k.normal, k.cipherDec, k.cipherEnc, k.hmacDec, k.hmacEnc)
  }

  const CIPHER_DOWN := "cipher_key server-->client"
  const CIPHER_UP := "cipher_key client-->server"
  const HMAC_DOWN := "hmac_key server-->client"
  const HMAC_UP := "hmac_key client-->server"

  /** `my_init_keys`: `expand` derives a key from a label; a client swaps the labels of the two directions. */
  function InitKeys(normal: seq<byte>, expand: string -> seq<byte>, isClient: bool): Keys {
    if isClient then Keys(normal, expand(CIPHER_UP), expand(CIPHER_DOWN), expand(HMAC_UP), expand(HMAC_DOWN))
    else Keys(normal, expand(CIPHER_DOWN), expand(CIPHER_UP), expand(HMAC_DOWN), expand(HMAC_UP))
  }

  lemma InitKeysMirror(normal: seq<byte>, expand: string -> seq<byte>, isClient: bool)
    ensures InitKeys(normal, expand, !isClient) == Mirror(InitKeys(normal, expand, isClient))
    ensures Mirror(Mirror(InitKeys(normal, expand, isClient))) == InitKeys(normal, expand, isClient)
  {
  }

  /** If different labels lead to different keys, no two of an end's four derived keys are the same. */
  lemma KeysDiffer(normal: seq<byte>, expand: string -> seq<byte>, isClient: bool)
    requires forall a, b :: expand(a) == expand(b) ==> a == b
    ensures var k := InitKeys(normal, expand, isClient);
            && k.normal == normal && k.cipherEnc != k.cipherDec && k.hmacEnc != k.hmacDec
            && k.cipherEnc != k.hmacEnc && k.cipherEnc != k.hmacDec && k.cipherDec != k.hmacEnc && k.cipherDec != k.hmacDec
  {
    hide CIPHER_DOWN, CIPHER_UP, HMAC_DOWN, HMAC_UP;
    CipherLabels();
    HmacLabels();
  }

  lemma CipherLabels()
    ensures CIPHER_DOWN != CIPHER_UP && |CIPHER_DOWN| == |CIPHER_UP| == 26
  {
    assert CIPHER_DOWN[11] == 's' && CIPHER_UP[11] == 'c';
  }

  lemma HmacLabels()
    ensures HMAC_DOWN != HMAC_UP && |HMAC_DOWN| == |HMAC_UP| == 24
  {
    assert HMAC_DOWN[9] == 's' && HMAC_UP[9] == 'c';
  }

  // ----- padding -----

  /** The first whole number of blocks with room for one more byte. */
  function PaddedLength(n: nat): (r: nat)
    ensures n < r <= n + BLOCK && r % BLOCK == 0
  {
    (n / BLOCK) * BLOCK + BLOCK
  }

  /** Only the last byte is set, to the number of bytes added; the others are whatever the buffer held. */
  function Padded(d: seq<byte>, junk: seq<byte>): (r: seq<byte>)
    requires |junk| >= BLOCK
    ensures |r| == PaddedLength(|d|)
  {
    var k := PaddedLength(|d|) - |d|;
    d + junk[..k - 1] + [k as byte]
  }

  function DePad(d: seq<byte>): Option<seq<byte>> {
    if d == [] then None
    else
      var k := d[|d| - 1] as int;
      if k > BLOCK || |d| - k < 0 then None else Some(d[..|d| - k])
  }

  lemma ByteOf(k: nat)
    requires k <= BLOCK
    ensures (k as byte) as int == k
  {
    if k == 0 { } else if k == 1 { } else if k == 2 { } else if k == 3 { } else if k == 4 { } else if k == 5 { }
    else if k == 6 { } else if k == 7 { } else if k == 8 { } else if k == 9 { } else if k == 10 { } else if k == 11 { }
    else if k == 12 { } else if k == 13 { } else if k == 14 { } else if k == 15 { } else { assert k == 16; }
  }

  lemma PadRoundTrip(d: seq<byte>, junk: seq<byte>)
    requires |junk| >= BLOCK
    ensures DePad(Padded(d, junk)) == Some(d)
  {
    var p, k := Padded(d, junk), PaddedLength(|d|) - |d|;
    ByteOf(k);
    assert p[|p| - 1] == k as byte;
    assert p[..|p| - k] == d;
  }

  // ----- ciphers -----

  const ZERO_IV: seq<byte> := [0, 0, 0, 0, 0, 0, 0, 0, 0, 0, 0, 0, 0, 0, 0, 0]

  function XorKey(d: seq<byte>, key: seq<byte>): (r: seq<byte>)
    requires |key| >= BLOCK
    ensures |r| == |d|
  {
    seq(|d|, i requires 0 <= i < |d| => Xor(d[i], key[i % BLOCK]))
  }

  lemma XorKeyTwice(d: seq<byte>, key: seq<byte>)
    requires |key| >= BLOCK
    ensures XorKey(XorKey(d, key), key) == d
  {
    hide Xor;
    var r := XorKey(XorKey(d, key), key);
    forall i | 0 <= i < |d| ensures r[i] == d[i] { XorTwice(d[i], key[i % BLOCK]); }
  }

  /** In cfb mode the first block goes through the block cipher first, under the direction's cipher key. */
  ghost function FirstBlockEnc(s: Setup, k: Keys, d: seq<byte>): (r: seq<byte>)
    requires SetupOk(s) && |d| >= BLOCK
    ensures |r| == |d|
  {
    BlockFacts(s.block, k.cipherEnc, d[..BLOCK]);
    if s.cfbOld then d else s.block.enc(k.cipherEnc, d[..BLOCK]) + d[BLOCK..]
  }

  ghost function FirstBlockDec(s: Setup, k: Keys, d: seq<byte>): (r: seq<byte>)
    requires SetupOk(s) && |d| >= BLOCK
    ensures |r| == |d|
  {
    BlockFacts(s.block, k.cipherDec, d[..BLOCK]);
    if s.cfbOld then d else s.block.dec(k.cipherDec, d[..BLOCK]) + d[BLOCK..]
  }

  /** The code asserts this of a cfb encryption. */
  predicate LongEnough(s: Setup, n: nat) {
    s.cipher == Aes128Cfb ==> n >= BLOCK
  }

  function CipherLength(s: Setup, n: nat): nat {
    if s.cipher == Aes128Cbc then PaddedLength(n) else n
  }

  ghost function CipherEnc(s: Setup, k: Keys, key: seq<byte>, d: seq<byte>, junk: seq<byte>): (r: seq<byte>)
    requires SetupOk(s) && |key| >= BLOCK && |junk| >= BLOCK && LongEnough(s, |d|)
    ensures |r| == CipherLength(s, |d|)
  {
    match s.cipher
    case CipherNone => d
    case CipherXor => XorKey(d, key)
    case Aes128Cbc => CbcEnc(s.block, key, ZERO_IV, Padded(d, junk))
    case Aes128Cfb => CfbEnc(s.block, key, ZERO_IV, FirstBlockEnc(s, k, d))
  }

  ghost function CipherDec(s: Setup, k: Keys, key: seq<byte>, c: seq<byte>): Option<seq<byte>>
    requires SetupOk(s) && |key| >= BLOCK
  {
    match s.cipher
    case CipherNone => Some(c)
    case CipherXor => Some(XorKey(c, key))
    case Aes128Cbc => if |c| % BLOCK != 0 then None else DePad(CbcDec(s.block, key, ZERO_IV, c))
    case Aes128Cfb => if |c| < BLOCK then None else Some(FirstBlockDec(s, k, CfbDec(s.block, key, ZERO_IV, c)))
  }

  lemma CipherRoundTrip(s: Setup, k: Keys, m: Keys, key: seq<byte>, d: seq<byte>, junk: seq<byte>)
    requires SetupOk(s) && |key| >= BLOCK && |junk| >= BLOCK && LongEnough(s, |d|) && m.cipherDec == k.cipherEnc
    ensures CipherDec(s, m, key, CipherEnc(s, k, key, d, junk)) == Some(d)
  {
    hide SetupOk, Permutes, XorKey, CbcEnc, CbcDec, CfbEnc, CfbDec, Padded, DePad;
    SetupPermutes(s);
    match s.cipher
    case CipherNone =>
    case CipherXor => XorKeyTwice(d, key);
    case Aes128Cbc =>
      PadRoundTrip(d, junk);
      CbcRoundTrip(s.block, key, ZERO_IV, Padded(d, junk));
    case Aes128Cfb =>
      CfbRoundTrip(s.block, key, ZERO_IV, FirstBlockEnc(s, k, d));
      FirstBlockRoundTrip(s, k, m, d);
  }

  /** What a packet under the xor cipher is. */
  lemma XorPacket(s: Setup, k: Keys, key: seq<byte>, d: seq<byte>, junk: seq<byte>, i: nat)
    requires SetupOk(s) && |key| >= BLOCK && |junk| >= BLOCK && s.cipher == CipherXor && i < |d|
    ensures CipherEnc(s, k, key, d, junk)[i] == d[i] ^ key[i % 16]
  {
  }

  /** What a packet in cbc mode is: the padded text `p`, block by block, chained from a block of zeros, where `p` is the
  text and ends in the number of bytes added. */
  lemma CbcPacket(s: Setup, k: Keys, key: seq<byte>, d: seq<byte>, junk: seq<byte>, at: nat) returns (p: seq<byte>, x: seq<byte>)
    requires SetupOk(s) && |key| >= BLOCK && |junk| >= BLOCK && s.cipher == Aes128Cbc
    requires at % BLOCK == 0 && at + BLOCK <= |CipherEnc(s, k, key, d, junk)|
    ensures |d| < |p| == |CipherEnc(s, k, key, d, junk)| <= |d| + 16 && d <= p && p[|p| - 1] as int == |p| - |d|
    ensures var c := CipherEnc(s, k, key, d, junk);
            && |x| == 16 && (forall j :: 0 <= j < 16 ==> x[j] == p[at + j] ^ (if at == 0 then 0 else c[at - 16 + j]))
            && c[at..at + 16] == s.block.enc(key, x)
  {
    hide SetupOk, Permutes, CbcEnc;
    SetupPermutes(s);
    p := Padded(d, junk);
    ByteOf(|p| - |d|);
    x := CbcChains(s.block, key, ZERO_IV, p, at);
  }

  /** What a packet in cfb mode is: the text, but for its first block, which goes through the block cipher before unless
  the old format is asked for, under a key stream chained from a block of zeros. */
  lemma CfbPacket(s: Setup, k: Keys, key: seq<byte>, d: seq<byte>, junk: seq<byte>, at: nat, j: nat)
    requires SetupOk(s) && |key| >= BLOCK && |junk| >= BLOCK && s.cipher == Aes128Cfb && |d| >= BLOCK
    requires at % BLOCK == 0 && j < BLOCK && at + j < |d|
    ensures |ZERO_IV| == 16 && forall z <- ZERO_IV :: z == 0
    ensures var c := CipherEnc(s, k, key, d, junk);
            var first, stream := s.block.enc(k.cipherEnc, d[..16]), s.block.enc(key, if at == 0 then ZERO_IV else c[at - 16..at]);
            && |first| == |stream| == 16
            && c[at + j] == (if s.cfbOld || at > 0 then d[at + j] else first[j]) ^ stream[j]
  {
    hide SetupOk, Permutes, CfbEnc;
    SetupPermutes(s);
    BlockFacts(s.block, k.cipherEnc, d[..BLOCK]);
    CfbChains(s.block, key, ZERO_IV, FirstBlockEnc(s, k, d), at, j);
  }

  lemma SetupPermutes(s: Setup)
    requires SetupOk(s)
    ensures Permutes(s.block)
  {
  }

  lemma FirstBlockRoundTrip(s: Setup, k: Keys, m: Keys, d: seq<byte>)
    requires SetupOk(s) && |d| >= BLOCK && m.cipherDec == k.cipherEnc
    ensures FirstBlockDec(s, m, FirstBlockEnc(s, k, d)) == d
  {
    hide SetupOk, Permutes;
    SetupPermutes(s);
    BlockFacts(s.block, k.cipherEnc, d[..BLOCK]);
    var e := FirstBlockEnc(s, k, d);
    if !s.cfbOld {
      assert e[..BLOCK] == s.block.enc(k.cipherEnc, d[..BLOCK]) && e[BLOCK..] == d[BLOCK..];
      assert d == d[..BLOCK] + d[BLOCK..];
    }
  }

  // ----- authentication -----

  function BigEndian(w: bv32): (r: seq<byte>)
    ensures |r| == 4
  {
    [((w >> 24) & 0xFF) as byte, ((w >> 16) & 0xFF) as byte, ((w >> 8) & 0xFF) as byte, (w & 0xFF) as byte]
  }

  function Step1(h: bv32, c: byte): bv32 {
    ((h << 5) + h) ^ (c as bv32)
  }

  function Step2(h: bv32, c: byte): bv32 {
    (c as bv32) + (h << 6) + (h << 16) - h
  }

  /** The two hashes of `simple_hash`. */
  function Djb2(d: seq<byte>): bv32 {
    if d == [] then 5381 else Step1(Djb2(d[..|d| - 1]), d[|d| - 1])
  }

  function Sdbm(d: seq<byte>): bv32 {
    if d == [] then 0 else Step2(Sdbm(d[..|d| - 1]), d[|d| - 1])
  }

  /** The four bytes, most significant first, make up the word. */
  lemma BigEndianBack(w: bv32)
    ensures var b := BigEndian(w);
            ((b[0] as bv32) << 24) | ((b[1] as bv32) << 16) | ((b[2] as bv32) << 8) | (b[3] as bv32) == w
  {
  }

  /** The first hash begins at 5381; a byte takes it times 33, by a shift and a sum, and is combined with it. */
  lemma Djb2Law(d: seq<byte>, c: byte, h: bv32, next: bv32)
    requires h == Djb2(d) && next == Djb2(d + [c])
    ensures (d == [] ==> h == 5381) && next == ((h << 5) + h) ^ (c as bv32)
  {
    hide *;
    HashOfMore(d, c);
    Step1Is(h, next, c);
  }

  /** The second hash begins at 0; a byte takes it times 65599, by two shifts, a sum and a difference, and is added. */
  lemma SdbmLaw(d: seq<byte>, c: byte, h: bv32, next: bv32)
    requires h == Sdbm(d) && next == Sdbm(d + [c])
    ensures (d == [] ==> h == 0) && next == (c as bv32) + (h << 6) + (h << 16) - h
  {
    hide *;
    HashOfMore(d, c);
    Step2Is(h, next, c);
  }

  lemma HashOfMore(d: seq<byte>, c: byte)
    ensures Djb2([]) == 5381 && Djb2(d + [c]) == Step1(Djb2(d), c)
    ensures Sdbm([]) == 0 && Sdbm(d + [c]) == Step2(Sdbm(d), c)
  {
    hide Step1, Step2;
    assert (d + [c])[..|d|] == d;
  }

  lemma Step1Is(h: bv32, next: bv32, c: byte)
    requires next == Step1(h, c)
    ensures next == ((h << 5) + h) ^ (c as bv32)
  {
  }

  lemma Step2Is(h: bv32, next: bv32, c: byte)
    requires next == Step2(h, c)
    ensures next == (c as bv32) + (h << 6) + (h << 16) - h
  {
  }

  function MacLength(auth: AuthMode): nat {
    match auth
    case AuthNone => 0
    case AuthMd5 => 16
    case AuthCrc32 => 4
    case AuthSimple => 8
    case AuthHmacSha1 => 20
  }

  function Mac(s: Setup, key: seq<byte>, d: seq<byte>): seq<byte>
    requires |key| >= 20
  {
    match s.auth
    case AuthNone => []
    case AuthMd5 => s.md5(d)
    case AuthCrc32 => BigEndian(Crc.Crc32(d))
    case AuthSimple => BigEndian(Djb2(d)) + BigEndian(Sdbm(d))
    case AuthHmacSha1 => s.hmac(key[..20], d)
  }

  lemma MacSize(s: Setup, key: seq<byte>, d: seq<byte>)
    requires SetupOk(s) && |key| >= 20
    ensures |Mac(s, key, d)| == MacLength(s.auth)
  {
    hide BigEndian, Djb2, Sdbm, Crc.Crc32;
  }

  function Verified(s: Setup, key: seq<byte>, d: seq<byte>): Option<seq<byte>>
    requires |key| >= 20
  {
    var n := |d| - MacLength(s.auth);
    if n < 0 || Mac(s, key, d[..n]) != d[n..] then None else Some(d[..n])
  }

  lemma AuthRoundTrip(s: Setup, key: seq<byte>, d: seq<byte>)
    requires SetupOk(s) && |key| >= 20
    ensures Verified(s, key, d + Mac(s, key, d)) == Some(d)
  {
    hide Mac;
    MacSize(s, key, d);
    var m := d + Mac(s, key, d);
    assert m[..|d|] == d && m[|d|..] == Mac(s, key, d);
  }

  /** The authentication cannot tell the two texts apart. */
  ghost predicate SameDigest(s: Setup, key: seq<byte>, p: seq<byte>, q: seq<byte>)
    requires |key| >= 20
  {
    match s.auth
    case AuthNone => true
    case AuthMd5 => s.md5(p) == s.md5(q)
    case AuthCrc32 => Crc.Crc32(p) == Crc.Crc32(q)
    case AuthSimple => Djb2(p) == Djb2(q) && Sdbm(p) == Sdbm(q)
    case AuthHmacSha1 => s.hmac(key[..20], p) == s.hmac(key[..20], q)
  }

  lemma BigEndianApart(v: bv32, w: bv32)
    ensures BigEndian(v) == BigEndian(w) <==> v == w
  {
    hide BigEndian;
    BigEndianBack(v);
    BigEndianBack(w);
  }

  lemma SameMacs(s: Setup, key: seq<byte>, p: seq<byte>, q: seq<byte>)
    requires SetupOk(s) && |key| >= 20
    ensures Mac(s, key, p) == Mac(s, key, q) <==> SameDigest(s, key, p, q)
  {
    hide SetupOk, BigEndian, Djb2, Sdbm, Crc.Crc32;
    BigEndianApart(Crc.Crc32(p), Crc.Crc32(q));
    BigEndianApart(Djb2(p), Djb2(q));
    BigEndianApart(Sdbm(p), Sdbm(q));
    if s.auth == AuthSimple {
      assert Mac(s, key, p)[..4] == BigEndian(Djb2(p)) && Mac(s, key, p)[4..] == BigEndian(Sdbm(p));
      assert Mac(s, key, q)[..4] == BigEndian(Djb2(q)) && Mac(s, key, q)[4..] == BigEndian(Sdbm(q));
    }
  }

  /** A text under the tag of another text is accepted if and only if their digests agree. */
  lemma ForeignTag(s: Setup, key: seq<byte>, p: seq<byte>, q: seq<byte>)
    requires SetupOk(s) && |key| >= 20
    ensures Verified(s, key, q + Mac(s, key, p)) == if SameDigest(s, key, p, q) then Some(q) else None
  {
    hide SetupOk, Mac, SameDigest;
    MacSize(s, key, p);
    MacSize(s, key, q);
    SameMacs(s, key, p, q);
    var m := q + Mac(s, key, p);
    assert m[..|q|] == q && m[|q|..] == Mac(s, key, p);
  }

  // ----- the codec -----

  /** `is_hmac_used`: then the cipher comes first and the MAC covers the ciphertext. */
  predicate EncryptThenMac(s: Setup) {
    s.auth == AuthHmacSha1
  }

  /** The length the cipher works on. */
  function CipherInput(s: Setup, n: nat): nat {
    if EncryptThenMac(s) then n else n + MacLength(s.auth)
  }

  /** The length of an encoded packet. */
  function EncodedLength(s: Setup, n: nat): nat {
    if EncryptThenMac(s) then CipherLength(s, n) + MacLength(s.auth) else CipherLength(s, n + MacLength(s.auth))
  }

  /** `my_encrypt`; `junk` is what the buffer happens to hold where padding goes. */
  ghost function Encode(s: Setup, k: Keys, d: seq<byte>, junk: seq<byte>): Option<seq<byte>>
    requires SetupOk(s) && KeysOk(k) && |junk| >= BLOCK && LongEnough(s, CipherInput(s, |d|))
  {
    if |d| > MAX_DATA_LEN then None
    else if EncryptThenMac(s) then
      var c := CipherEnc(s, k, k.cipherEnc, d, junk);
      Some(c + Mac(s, k.hmacEnc, c))
    else
      MacSize(s, k.hmacEnc, d);
      Some(CipherEnc(s, k, k.normal, d + Mac(s, k.hmacEnc, d), junk))
  }

  /** `my_decrypt` */
  ghost function Decode(s: Setup, k: Keys, c: seq<byte>): Option<seq<byte>>
    requires SetupOk(s) && KeysOk(k)
  {
    if |c| > MAX_DATA_LEN then None
    else if EncryptThenMac(s) then
      var v := Verified(s, k.hmacDec, c);
      if v == None then None else CipherDec(s, k, k.cipherDec, v.value)
    else
      var d := CipherDec(s, k, k.normal, c);
      if d == None then None else Verified(s, k.hmacDec, d.value)
  }

  /** What goes out: with HMAC the ciphertext followed by its tag, otherwise the cipher of the text and its tag. */
  lemma EncodedIs(s: Setup, k: Keys, d: seq<byte>, junk: seq<byte>)
    requires SetupOk(s) && KeysOk(k) && |junk| >= BLOCK && LongEnough(s, CipherInput(s, |d|)) && |d| <= MAX_DATA_LEN
    ensures var c := Encode(s, k, d, junk);
            match s.auth
            case AuthNone => c == Some(CipherEnc(s, k, k.normal, d, junk))
            case AuthMd5 => c == Some(CipherEnc(s, k, k.normal, d + s.md5(d), junk))
            case AuthCrc32 => c == Some(CipherEnc(s, k, k.normal, d + BigEndian(Crc.Crc32(d)), junk))
            case AuthSimple => c == Some(CipherEnc(s, k, k.normal, d + BigEndian(Djb2(d)) + BigEndian(Sdbm(d)), junk))
            case AuthHmacSha1 =>
              var e := CipherEnc(s, k, k.cipherEnc, d, junk);
              c == Some(e + s.hmac(k.hmacEnc[..20], e))
  {
    hide CipherEnc, BigEndian, Crc.Crc32, Djb2, Sdbm;
    assert d + [] == d;
    assert d + (BigEndian(Djb2(d)) + BigEndian(Sdbm(d))) == d + BigEndian(Djb2(d)) + BigEndian(Sdbm(d));
  }

  /** What is let in: with HMAC a ciphertext followed by its own tag, otherwise what deciphers to a text and its own tag,
  and nothing of more than 1800 bytes. */
  lemma DecodedIff(s: Setup, k: Keys, c: seq<byte>, d: seq<byte>)
    requires SetupOk(s) && KeysOk(k)
    ensures |c| > 1800 ==> Decode(s, k, c) == None
    ensures |c| <= 1800 ==> (Decode(s, k, c) == Some(d) <==> (
              match s.auth
              case AuthNone => CipherDec(s, k, k.normal, c) == Some(d)
              case AuthMd5 => CipherDec(s, k, k.normal, c) == Some(d + s.md5(d))
              case AuthCrc32 => CipherDec(s, k, k.normal, c) == Some(d + BigEndian(Crc.Crc32(d)))
              case AuthSimple => CipherDec(s, k, k.normal, c) == Some(d + BigEndian(Djb2(d)) + BigEndian(Sdbm(d)))
              case AuthHmacSha1 =>
                && |c| >= 20 && c[|c| - 20..] == s.hmac(k.hmacDec[..20], c[..|c| - 20])
                && CipherDec(s, k, k.cipherDec, c[..|c| - 20]) == Some(d)))
  {
    hide SetupOk, CipherDec, Mac, Verified;
    if EncryptThenMac(s) {
      VerifiedTag(s, k.hmacDec, c);
    } else {
      var m := CipherDec(s, k, k.normal, c);
      if m.Some? { VerifiedIff(s, k.hmacDec, m.value, d); }
      MacIs(s, k.hmacDec, d);
      assert d + [] == d;
      assert d + (BigEndian(Djb2(d)) + BigEndian(Sdbm(d))) == d + BigEndian(Djb2(d)) + BigEndian(Sdbm(d));
    }
  }

  lemma VerifiedTag(s: Setup, key: seq<byte>, c: seq<byte>)
    requires SetupOk(s) && |key| >= 20 && s.auth == AuthHmacSha1
    ensures Verified(s, key, c) ==
            if |c| >= 20 && c[|c| - 20..] == s.hmac(key[..20], c[..|c| - 20]) then Some(c[..|c| - 20]) else None
  {
    hide SetupOk;
  }

  lemma MacIs(s: Setup, key: seq<byte>, d: seq<byte>)
    requires |key| >= 20
    ensures Mac(s, key, d) ==
            match s.auth
            case AuthNone => []
            case AuthMd5 => s.md5(d)
            case AuthCrc32 => BigEndian(Crc.Crc32(d))
            case AuthSimple => BigEndian(Djb2(d)) + BigEndian(Sdbm(d))
            case AuthHmacSha1 => s.hmac(key[..20], d)
  {
  }

  lemma VerifiedIff(s: Setup, key: seq<byte>, m: seq<byte>, d: seq<byte>)
    requires SetupOk(s) && |key| >= 20
    ensures Verified(s, key, m) == Some(d) <==> m == d + Mac(s, key, d)
  {
    hide Mac;
    MacSize(s, key, d);
    if m == d + Mac(s, key, d) { AuthRoundTrip(s, key, d); }
    if Verified(s, key, m) == Some(d) { assert m == m[..|d|] + m[|d|..]; }
  }

  /** A packet whose tag belongs to another text is refused unless the digests agree: with HMAC a ciphertext under the
  tag of another, otherwise a packet that deciphers to a text under the tag of another. */
  lemma ForgeryRefused(s: Setup, k: Keys, c: seq<byte>, p: seq<byte>, q: seq<byte>)
    requires SetupOk(s) && KeysOk(k) && s.auth != AuthNone && !SameDigest(s, k.hmacDec, p, q)
    requires if s.auth == AuthHmacSha1 then c == q + Mac(s, k.hmacDec, p)
             else CipherDec(s, k, k.normal, c) == Some(q + Mac(s, k.hmacDec, p))
    ensures Decode(s, k, c) == None
  {
    hide SetupOk, CipherDec, Mac, Verified, SameDigest;
    ForeignTag(s, k.hmacDec, p, q);
  }

  /** Without a MAC key the two directions verify alike. */
  lemma SameMac(s: Setup, k: Keys, d: seq<byte>)
    requires KeysOk(k) && !EncryptThenMac(s)
    ensures Verified(s, Mirror(k).hmacDec, d) == Verified(s, k.hmacEnc, d)
  {
  }

  /** The round trip, for every cipher, every authentication and every plaintext.  The encoded length is known
      in advance, and the other end recovers the plaintext exactly when that length is at most 1800: the limit
      is checked on the plaintext when encoding but on the ciphertext when decoding. */
  lemma RoundTrip(s: Setup, k: Keys, d: seq<byte>, junk: seq<byte>)
    requires SetupOk(s) && KeysOk(k) && |junk| >= BLOCK && LongEnough(s, CipherInput(s, |d|)) && |d| <= MAX_DATA_LEN
    ensures var c := Encode(s, k, d, junk);
            && c.Some? && |c.value| == EncodedLength(s, |d|) <= BUF_LEN
            && (Decode(s, Mirror(k), c.value) == Some(d) <==> EncodedLength(s, |d|) <= MAX_DATA_LEN)
            && (EncodedLength(s, |d|) > MAX_DATA_LEN ==> Decode(s, Mirror(k), c.value) == None)
  {
    hide SetupOk, CipherEnc, CipherDec, Mac, Verified;
    if EncryptThenMac(s) {
      var c := CipherEnc(s, k, k.cipherEnc, d, junk);
      MacSize(s, k.hmacEnc, c);
      AuthRoundTrip(s, k.hmacEnc, c);
      CipherRoundTrip(s, k, Mirror(k), k.cipherEnc, d, junk);
    } else {
      var m := d + Mac(s, k.hmacEnc, d);
      MacSize(s, k.hmacEnc, d);
      CipherRoundTrip(s, k, Mirror(k), k.normal, m, junk);
      AuthRoundTrip(s, k.hmacEnc, d);
      SameMac(s, k, m);
    }
  }

  /** A plaintext the limit lets in but whose packet the other end refuses. */
  lemma LimitIsOnBothSides(s: Setup, k: Keys, d: seq<byte>, junk: seq<byte>)
    requires SetupOk(s) && KeysOk(k) && |junk| >= BLOCK
    requires s.cipher == Aes128Cbc && s.auth == AuthMd5 && |d| == MAX_DATA_LEN
    ensures Encode(s, k, d, junk).Some? && Decode(s, Mirror(k), Encode(s, k, d, junk).value) == None
  {
    hide SetupOk, Encode, Decode;
    RoundTrip(s, k, d, junk);
  }
}
