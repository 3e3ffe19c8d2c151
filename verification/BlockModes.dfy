/** The chaining modes of lib/aes_faster_c/aes.cpp over any block cipher: CBC and CFB with 128-bit feedback.  The
recursive definitions work block by block (sections 6.2 and 6.3 of NIST SP 800-38A); the loops work on arrays
in place, CFB byte by byte. */
module BlockModes {
  import opened Bytes

  const BLOCK: nat := 16

  /** A cipher on 16-byte blocks and its inverse, both keyed. */
  datatype BlockCipher = BlockCipher(enc: (seq<byte>, seq<byte>) -> seq<byte>, dec: (seq<byte>, seq<byte>) -> seq<byte>)

  ghost predicate Permutes(b: BlockCipher) {
    forall k: seq<byte>, x: seq<byte> :: |x| == BLOCK ==>
      |b.enc(k, x)| == BLOCK && |b.dec(k, x)| == BLOCK && b.dec(k, b.enc(k, x)) == x && b.enc(k, b.dec(k, x)) == x
  }

  lemma BlockFacts(b: BlockCipher, k: seq<byte>, x: seq<byte>)
    requires Permutes(b) && |x| == BLOCK
    ensures |b.enc(k, x)| == BLOCK && |b.dec(k, x)| == BLOCK && b.dec(k, b.enc(k, x)) == x && b.enc(k, b.dec(k, x)) == x
  {
  }

  // ----- the modes, block by block -----

  ghost function CbcEnc(b: BlockCipher, k: seq<byte>, iv: seq<byte>, data: seq<byte>): (r: seq<byte>)
    requires Permutes(b) && |iv| == BLOCK && |data| % BLOCK == 0
    ensures |r| == |data|
    decreases |data|
  {
    if data == [] then []
    else
      var c := b.enc(k, XorBytes(data[..BLOCK], iv));
      c + CbcEnc(b, k, c, data[BLOCK..])
  }

  ghost function CbcDec(b: BlockCipher, k: seq<byte>, iv: seq<byte>, data: seq<byte>): (r: seq<byte>)
    requires Permutes(b) && |iv| == BLOCK && |data| % BLOCK == 0
    ensures |r| == |data|
    decreases |data|
  {
    if data == [] then []
    else XorBytes(b.dec(k, data[..BLOCK]), iv) + CbcDec(b, k, data[..BLOCK], data[BLOCK..])
  }

  lemma {:induction false} CbcRoundTrip(b: BlockCipher, k: seq<byte>, iv: seq<byte>, data: seq<byte>)
    requires Permutes(b) && |iv| == BLOCK && |data| % BLOCK == 0
    ensures CbcDec(b, k, iv, CbcEnc(b, k, iv, data)) == data
    decreases |data|
  {
    hide Permutes, XorBytes;
    if data != [] {
      var x := XorBytes(data[..BLOCK], iv);
      BlockFacts(b, k, x);
      var c := b.enc(k, x);
      var e := CbcEnc(b, k, iv, data);
      assert e[..BLOCK] == c && e[BLOCK..] == CbcEnc(b, k, c, data[BLOCK..]);
      XorBytesTwice(data[..BLOCK], iv);
      CbcRoundTrip(b, k, c, data[BLOCK..]);
      assert data == data[..BLOCK] + data[BLOCK..];
    }
  }

  ghost function CfbEnc(b: BlockCipher, k: seq<byte>, iv: seq<byte>, data: seq<byte>): (r: seq<byte>)
    requires Permutes(b) && |iv| == BLOCK
    ensures |r| == |data|
    decreases |data|
  {
    var stream := b.enc(k, iv);
    if |data| < BLOCK then XorBytes(data, stream[..|data|])
    else var c := XorBytes(data[..BLOCK], stream); c + CfbEnc(b, k, c, data[BLOCK..])
  }

  ghost function CfbDec(b: BlockCipher, k: seq<byte>, iv: seq<byte>, data: seq<byte>): (r: seq<byte>)
    requires Permutes(b) && |iv| == BLOCK
    ensures |r| == |data|
    decreases |data|
  {
    var stream := b.enc(k, iv);
    if |data| < BLOCK then XorBytes(data, stream[..|data|])
    else XorBytes(data[..BLOCK], stream) + CfbDec(b, k, data[..BLOCK], data[BLOCK..])
  }

  lemma {:induction false} CfbRoundTrip(b: BlockCipher, k: seq<byte>, iv: seq<byte>, data: seq<byte>)
    requires Permutes(b) && |iv| == BLOCK
    ensures CfbDec(b, k, iv, CfbEnc(b, k, iv, data)) == data
    decreases |data|
  {
    hide Permutes, XorBytes;
    BlockFacts(b, k, iv);
    var stream := b.enc(k, iv);
    if |data| < BLOCK {
      XorBytesTwice(data, stream[..|data|]);
    } else {
      var c := XorBytes(data[..BLOCK], stream);
      var e := CfbEnc(b, k, iv, data);
      assert e[..BLOCK] == c && e[BLOCK..] == CfbEnc(b, k, c, data[BLOCK..]);
      XorBytesTwice(data[..BLOCK], stream);
      CfbRoundTrip(b, k, c, data[BLOCK..]);
      assert data == data[..BLOCK] + data[BLOCK..];
    }
  }

  // ----- what the modes are, one position at a time -----

  lemma {:induction false} CbcChain(b: BlockCipher, k: seq<byte>, iv: seq<byte>, data: seq<byte>, at: nat)
    requires Permutes(b) && |iv| == BLOCK && |data| % BLOCK == at % BLOCK == 0 && at + BLOCK <= |data|
    ensures var c := CbcEnc(b, k, iv, data);
            c[at..at + BLOCK] == b.enc(k, XorBytes(data[at..at + BLOCK], if at == 0 then iv else c[at - BLOCK..at]))
    decreases at
  {
    hide Permutes, XorBytes;
    var first := XorBytes(data[..BLOCK], iv);
    BlockFacts(b, k, first);
    var c, rest := b.enc(k, first), data[BLOCK..];
    var e := CbcEnc(b, k, iv, data);
    assert e[..BLOCK] == c && e[BLOCK..] == CbcEnc(b, k, c, rest);
    hide CbcEnc;
    if at > 0 {
      CbcChain(b, k, c, rest, at - BLOCK);
      Shifted(data, at);
      Shifted(e, at);
    }
  }

  /** A block further on is a block of the rest, and the one before it is too, or the first. */
  lemma Shifted(s: seq<byte>, at: nat)
    requires BLOCK <= at && at % BLOCK == 0 && at + BLOCK <= |s|
    ensures s[BLOCK..][at - BLOCK..at] == s[at..at + BLOCK]
    ensures if at == BLOCK then s[at - BLOCK..at] == s[..BLOCK]
            else at >= 2 * BLOCK && s[BLOCK..][at - 2 * BLOCK..at - BLOCK] == s[at - BLOCK..at]
  {
    BlockBefore(s, at);
  }

  lemma BlockBefore(s: seq<byte>, at: nat)
    requires BLOCK <= at <= |s| && at % BLOCK == 0
    ensures if at == BLOCK then s[at - BLOCK..at] == s[..BLOCK]
            else at >= 2 * BLOCK && s[BLOCK..][at - 2 * BLOCK..at - BLOCK] == s[at - BLOCK..at]
  {
  }

  /** CBC: each block of the ciphertext is the cipher of `x`, the exclusive or of the plaintext block and the ciphertext
  block before it; the vector stands before the first. */
  lemma CbcChains(b: BlockCipher, k: seq<byte>, iv: seq<byte>, data: seq<byte>, at: nat) returns (x: seq<byte>)
    requires Permutes(b) && |iv| == BLOCK && |data| % BLOCK == at % BLOCK == 0 && at + BLOCK <= |data|
    ensures |x| == 16 && forall j :: 0 <= j < 16 ==>
              x[j] == data[at + j] ^ (if at == 0 then iv[j] else CbcEnc(b, k, iv, data)[at - 16 + j])
    ensures CbcEnc(b, k, iv, data)[at..at + 16] == b.enc(k, x)
  {
    hide Permutes, CbcEnc;
    CbcChain(b, k, iv, data, at);
    x := XorBytes(data[at..at + BLOCK], if at == 0 then iv else CbcEnc(b, k, iv, data)[at - BLOCK..at]);
  }

  lemma {:induction false} CfbChain(b: BlockCipher, k: seq<byte>, iv: seq<byte>, data: seq<byte>, at: nat, j: nat)
    requires Permutes(b) && |iv| == BLOCK && at % BLOCK == 0 && j < BLOCK && at + j < |data|
    ensures var c := CfbEnc(b, k, iv, data);
            var stream := b.enc(k, if at == 0 then iv else c[at - BLOCK..at]);
            |stream| == BLOCK && c[at + j] == Xor(data[at + j], stream[j])
    decreases at
  {
    hide Permutes, Xor;
    BlockFacts(b, k, iv);
    var stream, e := b.enc(k, iv), CfbEnc(b, k, iv, data);
    if |data| >= BLOCK {
      var c, rest := XorBytes(data[..BLOCK], stream), data[BLOCK..];
      assert e[..BLOCK] == c && e[BLOCK..] == CfbEnc(b, k, c, rest);
      if at == 0 {
        assert e[j] == c[j];
      } else {
        hide CfbEnc, XorBytes;
        CfbChain(b, k, c, rest, at - BLOCK, j);
        BlockBefore(e, at);
        assert e[BLOCK..][at - BLOCK + j] == e[at + j];
      }
    }
  }

  /** CFB with 128-bit feedback: byte `j` of the block at `at` is the plaintext byte combined with byte `j` of the cipher
  of the ciphertext block before; the vector stands before the first. */
  lemma CfbChains(b: BlockCipher, k: seq<byte>, iv: seq<byte>, data: seq<byte>, at: nat, j: nat)
    requires Permutes(b) && |iv| == BLOCK && at % BLOCK == 0 && j < BLOCK && at + j < |data|
    ensures var c := CfbEnc(b, k, iv, data);
            var stream := b.enc(k, if at == 0 then iv else c[at - 16..at]);
            |stream| == 16 && c[at + j] == data[at + j] ^ stream[j]
  {
    hide Permutes, CfbEnc;
    CfbChain(b, k, iv, data, at, j);
  }

  // ----- the loops -----

  /** Both arguments of the exclusive or may be the output itself. */
  method XorInto(output: array<byte>, at: nat, input: array<byte>, from: nat, iv: array<byte>)
    requires at + BLOCK <= output.Length && from + BLOCK <= input.Length && iv.Length == BLOCK
    requires iv != output && (input == output ==> from == at)
    modifies output
    ensures output[..] == old(output[..at]) + XorBytes(old(input[from..from + BLOCK]), iv[..]) + old(output[at + BLOCK..])
  {
    hide Xor;
    ghost var src, o := input[from..from + BLOCK], output[..];
    var i := 0;
    while i < BLOCK
      invariant i <= BLOCK
      invariant forall j :: 0 <= j < output.Length ==>
                  output[j] == if at <= j < at + i then Xor(src[j - at], iv[j - at]) else o[j]
    {
      output[at + i] := Xor(input[from + i], iv[i]);
      i := i + 1;
    }
  }

  /** One block of CBC encryption. */
  lemma CbcEncStep(b: BlockCipher, k: seq<byte>, iv: seq<byte>, data: seq<byte>, done: seq<byte>)
    requires Permutes(b) && |iv| == BLOCK && |data| % BLOCK == 0 && |data| >= BLOCK
    ensures var c := b.enc(k, XorBytes(data[..BLOCK], iv));
            |c| == BLOCK && done + CbcEnc(b, k, iv, data) == done + c + CbcEnc(b, k, c, data[BLOCK..])
  {
  }

  lemma CbcDecStep(b: BlockCipher, k: seq<byte>, iv: seq<byte>, data: seq<byte>, done: seq<byte>)
    requires Permutes(b) && |iv| == BLOCK && |data| % BLOCK == 0 && |data| >= BLOCK
    ensures var p := XorBytes(b.dec(k, data[..BLOCK]), iv);
            done + CbcDec(b, k, iv, data) == done + p + CbcDec(b, k, data[..BLOCK], data[BLOCK..])
  {
  }

  lemma CbcNone(b: BlockCipher, k: seq<byte>, iv: seq<byte>)
    requires Permutes(b) && |iv| == BLOCK
    ensures CbcEnc(b, k, iv, []) == [] && CbcDec(b, k, iv, []) == []
  {
  }

  lemma CbcEncBlock(b: BlockCipher, k: seq<byte>, iv: seq<byte>, src: seq<byte>, at: nat, done: seq<byte>)
    requires Permutes(b) && |iv| == BLOCK && |src| % BLOCK == at % BLOCK == 0 && at + BLOCK <= |src|
    ensures var c := b.enc(k, XorBytes(src[at..at + BLOCK], iv));
            |c| == BLOCK && done + CbcEnc(b, k, iv, src[at..]) == (done + c) + CbcEnc(b, k, c, src[at + BLOCK..])
  {
    hide Permutes, XorBytes, CbcEnc;
    assert src[at..][..BLOCK] == src[at..at + BLOCK] && src[at..][BLOCK..] == src[at + BLOCK..];
    CbcEncStep(b, k, iv, src[at..], done);
  }

  lemma CbcDecBlock(b: BlockCipher, k: seq<byte>, iv: seq<byte>, src: seq<byte>, at: nat, done: seq<byte>)
    requires Permutes(b) && |iv| == BLOCK && |src| % BLOCK == at % BLOCK == 0 && at + BLOCK <= |src| && |b.dec(k, src[at..at + BLOCK])| == BLOCK
    ensures var c := src[at..at + BLOCK]; var p := XorBytes(b.dec(k, c), iv);
            done + CbcDec(b, k, iv, src[at..]) == (done + p) + CbcDec(b, k, c, src[at + BLOCK..])
  {
    hide Permutes, XorBytes, CbcDec;
    assert src[at..][..BLOCK] == src[at..at + BLOCK] && src[at..][BLOCK..] == src[at + BLOCK..];
    CbcDecStep(b, k, iv, src[at..], done);
  }

  /** The body of the encrypting loop. */
  method EncryptBlock(b: BlockCipher, key: seq<byte>, at: nat, iv: array<byte>, input: array<byte>, output: array<byte>)
    requires Permutes(b) && iv.Length == BLOCK && at + BLOCK <= input.Length && at + BLOCK <= output.Length
    requires iv != input && iv != output && input != output
    modifies iv, output
    ensures iv[..] == b.enc(key, XorBytes(input[at..at + BLOCK], old(iv[..])))
    ensures output[..at + BLOCK] == old(output[..at]) + iv[..]
  {
    hide XorBytes, Permutes;
    ghost var done := output[..at];
    BlockFacts(b, key, XorBytes(input[at..at + BLOCK], iv[..]));
    XorInto(output, at, input, at, iv);
    assert output[at..at + BLOCK] == XorBytes(input[at..at + BLOCK], iv[..]) && output[..at] == done;
    var c := b.enc(key, output[at..at + BLOCK]);
    Put(output, at, c);
    Put(iv, 0, c);
    assert iv[..] == c && output[..at + BLOCK] == done + c;
  }

  /** The body of the decrypting loop. */
  method DecryptBlock(b: BlockCipher, key: seq<byte>, at: nat, iv: array<byte>, input: array<byte>, output: array<byte>)
    requires Permutes(b) && iv.Length == BLOCK && at + BLOCK <= input.Length && at + BLOCK <= output.Length
    requires iv != input && iv != output && input != output
    modifies iv, output
    ensures iv[..] == input[at..at + BLOCK] && |b.dec(key, iv[..])| == BLOCK
    ensures output[..at + BLOCK] == old(output[..at]) + XorBytes(b.dec(key, iv[..]), old(iv[..]))
  {
    hide XorBytes, Permutes;
    ghost var done := output[..at];
    var temp := input[at..at + BLOCK];
    BlockFacts(b, key, temp);
    Put(output, at, b.dec(key, temp));
    assert output[at..at + BLOCK] == b.dec(key, temp) && output[..at] == done;
    XorInto(output, at, output, at, iv);
    assert output[..at + BLOCK] == done + XorBytes(b.dec(key, temp), iv[..]);
    Put(iv, 0, temp);
    assert iv[..] == temp;
  }

  /** `aes_crypt_cbc`, encrypting.  Lengths that are not whole blocks are refused. */
  method CbcEncrypt(b: BlockCipher, key: seq<byte>, length: nat, iv: array<byte>, input: array<byte>, output: array<byte>)
    returns (ok: bool)
    requires Permutes(b) && iv.Length == BLOCK && length <= input.Length && length <= output.Length
    requires iv != input && iv != output && input != output
    modifies iv, output
    ensures ok <==> length % BLOCK == 0
    ensures ok ==> output[..length] == CbcEnc(b, key, old(iv[..]), old(input[..length]))
  {
    hide Permutes, XorBytes, CbcEnc;
    if length % BLOCK != 0 { return false; }
    ghost var src := input[..length];
    var at: nat := 0;
    assert src[0..] == src && output[..0] == [];
    while at < length
      invariant at % BLOCK == 0 && at <= length && input[..length] == src
      invariant output[..at] + CbcEnc(b, key, iv[..], src[at..]) == CbcEnc(b, key, old(iv[..]), src)
    {
      CbcEncBlock(b, key, iv[..], src, at, output[..at]);
      assert input[at..at + BLOCK] == src[at..at + BLOCK];
      EncryptBlock(b, key, at, iv, input, output);
      at := at + BLOCK;
    }
    CbcNone(b, key, iv[..]);
    assert src[at..] == [];
    return true;
  }

  /** `aes_crypt_cbc`, decrypting. */
  method CbcDecrypt(b: BlockCipher, key: seq<byte>, length: nat, iv: array<byte>, input: array<byte>, output: array<byte>)
    returns (ok: bool)
    requires Permutes(b) && iv.Length == BLOCK && length <= input.Length && length <= output.Length
    requires iv != input && iv != output && input != output
    modifies iv, output
    ensures ok <==> length % BLOCK == 0
    ensures ok ==> output[..length] == CbcDec(b, key, old(iv[..]), old(input[..length]))
  {
    hide Permutes, XorBytes, CbcDec;
    if length % BLOCK != 0 { return false; }
    ghost var src := input[..length];
    var at: nat := 0;
    assert src[0..] == src && output[..0] == [];
    while at < length
      invariant at % BLOCK == 0 && at <= length && input[..length] == src
      invariant output[..at] + CbcDec(b, key, iv[..], src[at..]) == CbcDec(b, key, old(iv[..]), src)
    {
      assert input[at..at + BLOCK] == src[at..at + BLOCK];
      BlockFacts(b, key, src[at..at + BLOCK]);
      CbcDecBlock(b, key, iv[..], src, at, output[..at]);
      DecryptBlock(b, key, at, iv, input, output);
      at := at + BLOCK;
    }
    CbcNone(b, key, iv[..]);
    assert src[at..] == [];
    return true;
  }

  // ----- CFB, byte by byte -----

  ghost function Cfb(encrypting: bool, b: BlockCipher, k: seq<byte>, iv: seq<byte>, data: seq<byte>): (r: seq<byte>)
    requires Permutes(b) && |iv| == BLOCK
    ensures |r| == |data|
  {
    if encrypting then CfbEnc(b, k, iv, data) else CfbDec(b, k, iv, data)
  }

  lemma CfbStep(encrypting: bool, b: BlockCipher, k: seq<byte>, iv: seq<byte>, data: seq<byte>, done: seq<byte>)
    requires Permutes(b) && |iv| == BLOCK && |data| >= BLOCK && |b.enc(k, iv)| == BLOCK
    ensures var x := XorBytes(data[..BLOCK], b.enc(k, iv));
            var c := if encrypting then x else data[..BLOCK];
            done + Cfb(encrypting, b, k, iv, data) == done + x + Cfb(encrypting, b, k, c, data[BLOCK..])
  {
  }

  lemma CfbBlock(encrypting: bool, b: BlockCipher, k: seq<byte>, iv: seq<byte>, src: seq<byte>, at: nat, done: seq<byte>)
    requires Permutes(b) && |iv| == BLOCK && at + BLOCK <= |src| && |b.enc(k, iv)| == BLOCK
    ensures var block := src[at..at + BLOCK]; var x := XorBytes(block, b.enc(k, iv)); var c := if encrypting then x else block;
            done + Cfb(encrypting, b, k, iv, src[at..]) == done + x + Cfb(encrypting, b, k, c, src[at + BLOCK..])
  {
    hide Permutes, XorBytes, Cfb;
    assert src[at..][..BLOCK] == src[at..at + BLOCK] && src[at..][BLOCK..] == src[at + BLOCK..];
    CfbStep(encrypting, b, k, iv, src[at..], done);
  }

  lemma CfbLast(encrypting: bool, b: BlockCipher, k: seq<byte>, iv: seq<byte>, data: seq<byte>)
    requires Permutes(b) && |iv| == BLOCK && |data| < BLOCK && |b.enc(k, iv)| == BLOCK
    ensures Cfb(encrypting, b, k, iv, data) == XorBytes(data, b.enc(k, iv)[..|data|])
  {
  }

  /** In the middle of a block the register holds the ciphertext so far and the rest of the key stream. */
  ghost predicate Register(iv: seq<byte>, stream: seq<byte>, cipher: seq<byte>) {
    |iv| == |stream| == BLOCK && |cipher| <= BLOCK && iv == cipher + stream[|cipher|..]
  }

  lemma RegisterNext(iv: seq<byte>, stream: seq<byte>, cipher: seq<byte>, c: byte)
    requires Register(iv, stream, cipher) && |cipher| < BLOCK
    ensures iv[|cipher|] == stream[|cipher|] && Register(iv[|cipher| := c], stream, cipher + [c])
  {
  }

  lemma XorBytesNext(data: seq<byte>, stream: seq<byte>, n: nat)
    requires n < |data| && n < |stream|
    ensures XorBytes(data[..n + 1], stream[..n + 1]) == XorBytes(data[..n], stream[..n]) + [Xor(stream[n], data[n])]
  {
    hide Xor;
    XorTwice(data[n], stream[n]);
    var l, r := XorBytes(data[..n + 1], stream[..n + 1]), XorBytes(data[..n], stream[..n]) + [Xor(stream[n], data[n])];
    forall i | 0 <= i <= n ensures l[i] == r[i] { }
  }

  /** The loop's state after `|out|` bytes, `n` of them in a block begun with register `reg` after `done`. */
  ghost predicate Midway(e: bool, b: BlockCipher, k: seq<byte>, whole: seq<byte>, src: seq<byte>,
                         reg: seq<byte>, done: seq<byte>, iv: seq<byte>, out: seq<byte>, n: nat)
    requires Permutes(b)
  {
    && |reg| == BLOCK && n < BLOCK && |done| + n <= |src| && |b.enc(k, reg)| == BLOCK
    && done + Cfb(e, b, k, reg, src[|done|..]) == whole
    && var x := XorBytes(src[|done|..|done| + n], b.enc(k, reg)[..n]);
      && out == done + x
      && if n == 0 then iv == reg else Register(iv, b.enc(k, reg), if e then x else src[|done|..|done| + n])
  }

  lemma MidwayStart(e: bool, b: BlockCipher, k: seq<byte>, src: seq<byte>, iv: seq<byte>)
    requires Permutes(b) && |iv| == BLOCK
    ensures Midway(e, b, k, Cfb(e, b, k, iv, src), src, iv, [], iv, [], 0)
  {
    hide Permutes, Cfb, XorBytes, Register;
    BlockFacts(b, k, iv);
    XorNone();
    assert src[0..] == src && src[0..0] == [] && b.enc(k, iv)[..0] == [];
    assert [] + Cfb(e, b, k, iv, src) == Cfb(e, b, k, iv, src);
  }

  lemma MidwayEnd(e: bool, b: BlockCipher, k: seq<byte>, whole: seq<byte>, src: seq<byte>,
                  reg: seq<byte>, done: seq<byte>, iv: seq<byte>, out: seq<byte>, n: nat)
    requires Permutes(b) && Midway(e, b, k, whole, src, reg, done, iv, out, n) && |done| + n == |src|
    ensures out == whole
  {
    hide Permutes, Cfb, XorBytes, Register;
    CfbLast(e, b, k, reg, src[|done|..]);
    assert src[|done|..|done| + n] == src[|done|..];
  }

  /** The register a byte is combined with: a new block needs a new key stream. */
  ghost function Refilled(b: BlockCipher, k: seq<byte>, iv: seq<byte>, n: nat): seq<byte> {
    if n == 0 then b.enc(k, iv) else iv
  }

  lemma MidwayRefill(e: bool, b: BlockCipher, k: seq<byte>, whole: seq<byte>, src: seq<byte>,
                     reg: seq<byte>, done: seq<byte>, iv: seq<byte>, out: seq<byte>, n: nat)
    requires Permutes(b) && Midway(e, b, k, whole, src, reg, done, iv, out, n)
    ensures var x := XorBytes(src[|done|..|done| + n], b.enc(k, reg)[..n]); var r := Refilled(b, k, iv, n);
            Register(r, b.enc(k, reg), if e then x else src[|done|..|done| + n]) && |r| == BLOCK && r[n] == b.enc(k, reg)[n]
  {
    hide Permutes, Cfb, XorBytes;
    if n == 0 { RegisterStart(b.enc(k, reg)); }
    assert src[|done|..|done| + 0] == [];
    XorNone();
  }

  /** What one byte adds, whether or not it completes the block. */
  lemma MidwayMore(e: bool, b: BlockCipher, k: seq<byte>, whole: seq<byte>, src: seq<byte>,
                   reg: seq<byte>, done: seq<byte>, iv: seq<byte>, out: seq<byte>, n: nat)
    requires Permutes(b) && Midway(e, b, k, whole, src, reg, done, iv, out, n) && |done| + n < |src|
    ensures |Refilled(b, k, iv, n)| == BLOCK && |b.enc(k, reg)| == BLOCK
    ensures var r, c := Refilled(b, k, iv, n), src[|done| + n];
            var x := Xor(r[n], c);
            var xs := XorBytes(src[|done|..|done| + n + 1], b.enc(k, reg)[..n + 1]);
            && out + [x] == done + xs
            && Register(r[n := if e then x else c], b.enc(k, reg), if e then xs else src[|done|..|done| + n + 1])
  {
    hide Permutes, Cfb, XorBytes, Register, Xor;
    MidwayRefill(e, b, k, whole, src, reg, done, iv, out, n);
    var stream, at := b.enc(k, reg), |done|;
    var r, c, block := Refilled(b, k, iv, n), src[at + n], src[at..];
    XorBytesNext(block, stream, n);
    assert block[..n] == src[at..at + n] && block[..n + 1] == src[at..at + n + 1] == src[at..at + n] + [c];
    RegisterNext(r, stream, if e then XorBytes(block[..n], stream[..n]) else block[..n], if e then Xor(stream[n], c) else c);
  }

  lemma MidwayByte(e: bool, b: BlockCipher, k: seq<byte>, whole: seq<byte>, src: seq<byte>,
                   reg: seq<byte>, done: seq<byte>, iv: seq<byte>, out: seq<byte>, n: nat)
    requires Permutes(b) && Midway(e, b, k, whole, src, reg, done, iv, out, n) && |done| + n < |src|
    ensures |Refilled(b, k, iv, n)| == BLOCK
    ensures var r, c := Refilled(b, k, iv, n), src[|done| + n];
            var x := Xor(r[n], c);
            var r' := r[n := if e then x else c];
            if n + 1 < BLOCK then Midway(e, b, k, whole, src, reg, done, r', out + [x], n + 1)
            else Midway(e, b, k, whole, src, r', out + [x], r', out + [x], 0)
  {
    hide Permutes, Cfb, XorBytes, Register, Xor;
    MidwayMore(e, b, k, whole, src, reg, done, iv, out, n);
    if n + 1 == BLOCK {
      hide Refilled;
      var r, c, at := Refilled(b, k, iv, n), src[|done| + n], |done|;
      var x := Xor(r[n], c);
      var stream, r' := b.enc(k, reg), r[n := if e then x else c];
      assert stream[..BLOCK] == stream;
      CfbBlock(e, b, k, reg, src, at, done);
      RegisterFull(r', stream, if e then XorBytes(src[at..at + BLOCK], stream) else src[at..at + BLOCK]);
      BlockFacts(b, k, r');
      BlockBegins(b, k, r', src, out + [x]);
    }
  }

  lemma BlockBegins(b: BlockCipher, k: seq<byte>, reg: seq<byte>, src: seq<byte>, done: seq<byte>)
    requires |done| <= |src| && |b.enc(k, reg)| == BLOCK
    ensures done + XorBytes(src[|done|..|done| + 0], b.enc(k, reg)[..0]) == done
  {
  }

  /** `aes_crypt_cfb128` from offset 0, one byte at a time. */
  method CfbCrypt(encrypting: bool, b: BlockCipher, key: seq<byte>, length: nat, iv: array<byte>, input: array<byte>, output: array<byte>)
    requires Permutes(b) && iv.Length == BLOCK && length <= input.Length && length <= output.Length
    requires iv != input && iv != output && input != output
    modifies iv, output
    ensures output[..length] == Cfb(encrypting, b, key, old(iv[..]), old(input[..length]))
  {
    hide Permutes, Cfb, Midway, Xor;
    ghost var src := input[..length];
    ghost var whole := Cfb(encrypting, b, key, iv[..], src);
    ghost var reg, done := iv[..], [];
    var i: nat, n: nat := 0, 0;
    MidwayStart(encrypting, b, key, src, iv[..]);
    assert output[..0] == [];
    while i < length
      invariant i <= length && n < BLOCK && |done| + n == i && input[..length] == src
      invariant Midway(encrypting, b, key, whole, src, reg, done, iv[..], output[..i], n)
    {
      MidwayByte(encrypting, b, key, whole, src, reg, done, iv[..], output[..i], n);
      ghost var out, was := output[..i], iv[..];
      if n == 0 {
        Put(iv, 0, b.enc(key, iv[..]));
      }
      ghost var r := Refilled(b, key, was, n);
      assert iv[..] == r;
      output[i] := Xor(iv[n], input[i]);
      iv[n] := if encrypting then output[i] else input[i];
      assert output[..i + 1] == out + [Xor(r[n], src[i])] && iv[..] == r[n := if encrypting then Xor(r[n], src[i]) else src[i]];
      n := (n + 1) % BLOCK;
      i := i + 1;
      if n == 0 { reg, done := iv[..], output[..i]; }
    }
    MidwayEnd(encrypting, b, key, whole, src, reg, done, iv[..], output[..i], n);
  }

  lemma XorNone()
    ensures XorBytes([], []) == []
  {
  }

  lemma RegisterStart(stream: seq<byte>)
    requires |stream| == BLOCK
    ensures Register(stream, stream, [])
  {
  }

  lemma RegisterFull(iv: seq<byte>, stream: seq<byte>, cipher: seq<byte>)
    requires Register(iv, stream, cipher) && |cipher| == BLOCK
    ensures iv == cipher
  {
  }
}
