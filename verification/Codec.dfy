/** The packet codec of encrypt.cpp on buffers.  Every buffer has 2200 bytes, and every access stays inside. */
module Codec {
  import opened Bytes
  import opened BlockModes
  import opened CodecSpec
  import Crc

  /** `padding`: sets only the last byte of the padded length. */
  method Padding(data: array<byte>, len: nat) returns (newLen: nat)
    requires len + BLOCK <= data.Length
    modifies data
    ensures newLen == PaddedLength(len) && newLen % 16 == 0 && len < newLen <= len + 16
    ensures data[..len] == old(data[..len]) && data[newLen - 1] as int == newLen - len
    ensures data[..newLen] == Padded(old(data[..len]), old(data[len..len + BLOCK]))
  {
    newLen := len + 1;
    if newLen % BLOCK != 0 {
      newLen := (newLen / BLOCK) * BLOCK + BLOCK;
    }
    assert newLen == PaddedLength(len);
    ghost var was, junk := data[..], data[len..len + BLOCK];
    var count := newLen - len;
    ByteOf(count);
    var last := count as byte;
    data[newLen - 1] := last;
    PadsOut(data[..newLen], was, len, count, last);
  }

  lemma PadsOut(now: seq<byte>, was: seq<byte>, len: nat, count: nat, last: byte)
    requires 0 < count <= BLOCK && len + BLOCK <= |was| && now == was[..len + count - 1] + [last]
    ensures now == was[..len] + was[len..len + BLOCK][..count - 1] + [last] && now[..len] == was[..len]
  {
    assert was[..len + count - 1] == was[..len] + was[len..len + BLOCK][..count - 1];
  }

  /** `de_padding` */
  method DePadding(data: array<byte>, len: nat) returns (ok: bool, newLen: nat)
    requires len <= data.Length
    ensures ok <==> len > 0 && data[len - 1] as int <= 16 && data[len - 1] as int <= len
    ensures ok ==> newLen == len - data[len - 1] as int
    ensures newLen <= len && DePad(data[..len]) == if ok then Some(data[..newLen]) else None
  {
    if len == 0 { return false, 0; }
    var k := data[len - 1] as int;
    if k > BLOCK { return false, 0; }
    if len - k < 0 { return false, 0; }
    assert data[..len][..len - k] == data[..len - k];
    return true, len - k;
  }

  /** The loop. */
  method XorThem(data: array<byte>, output: array<byte>, len: nat, key: seq<byte>)
    requires data != output && len <= data.Length && len <= output.Length && |key| >= BLOCK
    modifies output
    ensures forall x :: 0 <= x < len ==> output[x] == Xor(data[x], key[x % BLOCK])
    ensures output[..len] == XorKey(data[..len], key)
  {
    hide Xor;
    var i, j: nat := 0, 0;
    while i < len
      invariant i <= len && j <= BLOCK && (i % BLOCK == if j == BLOCK then 0 else j)
      invariant forall x :: 0 <= x < i ==> output[x] == Xor(data[x], key[x % BLOCK])
    {
      if j == BLOCK { j := 0; }
      output[i] := Xor(data[i], key[j]);
      NextOffset(i, j);
      i, j := i + 1, j + 1;
    }
  }

  lemma NextOffset(i: nat, j: nat)
    requires j < BLOCK && i % BLOCK == j
    ensures (i + 1) % BLOCK == if j + 1 == BLOCK then 0 else j + 1
  {
  }

  /** `cipher_xor_encrypt` and `cipher_xor_decrypt` */
  method XorCrypt(data: array<byte>, output: array<byte>, len: nat, key: seq<byte>)
    requires data != output && len <= data.Length && len <= output.Length && |key| >= BLOCK
    modifies output
    ensures forall i :: 0 <= i < len ==> output[i] == data[i] ^ key[i % 16]
    ensures output[..len] == XorKey(data[..len], key)
  {
    XorThem(data, output, len, key);
  }

  lemma HashNext(d: seq<byte>, i: nat)
    requires i < |d|
    ensures Djb2(d[..i + 1]) == Step1(Djb2(d[..i]), d[i]) && Sdbm(d[..i + 1]) == Step2(Sdbm(d[..i]), d[i])
  {
    hide Step1, Step2;
    assert d[..i + 1][..i] == d[..i];
  }

  /** `simple_hash` */
  method SimpleHash(data: array<byte>, len: nat) returns (res: seq<byte>)
    requires len <= data.Length
    ensures res == BigEndian(Djb2(data[..len])) + BigEndian(Sdbm(data[..len]))
  {
    hide Step1, Step2, BigEndian;
    ghost var d := data[..len];
    var hash, hash2, i := 5381, 0, 0;
    assert d[..0] == [];
    while i != len
      invariant i <= len && hash == Djb2(d[..i]) && hash2 == Sdbm(d[..i])
    {
      HashNext(d, i);
      hash := Step1(hash, data[i]);
      hash2 := Step2(hash2, data[i]);
      i := i + 1;
    }
    assert d[..len] == d;
    res := BigEndian(hash) + BigEndian(hash2);
  }

  // ----- ciphers -----

  method ZeroIv() returns (iv: array<byte>)
    ensures fresh(iv) && iv.Length == BLOCK && iv[..] == ZERO_IV
  {
    iv := new byte[BLOCK](_ => 0);
  }

  method CbcEncryptBuffer(s: Setup, key: seq<byte>, data: array<byte>, output: array<byte>, len: nat)
    returns (newLen: nat, ghost junk: seq<byte>)
    requires SetupOk(s) && data != output && len <= data.Length && len + BLOCK <= BUF_LEN && PaddedLength(len) <= output.Length
    modifies output
    ensures |junk| == BLOCK && newLen == PaddedLength(len)
    ensures output[..newLen] == CbcEnc(s.block, key, ZERO_IV, Padded(data[..len], junk))
  {
    hide SetupOk, Permutes, CbcEnc, Padded;
    SetupPermutes(s);
    var buf := new byte[BUF_LEN];
    Put(buf, 0, data[..len]);
    junk := buf[len..len + BLOCK];
    assert buf[..len] == data[..len];
    newLen := Padding(buf, len);
    var iv := ZeroIv();
    var ok := CbcEncrypt(s.block, key, newLen, iv, buf, output);
  }

  method CfbEncryptBuffer(s: Setup, k: Keys, key: seq<byte>, data: array<byte>, output: array<byte>, len: nat)
    requires SetupOk(s) && data != output && BLOCK <= len <= data.Length && len <= BUF_LEN && len <= output.Length
    modifies output
    ensures output[..len] == CfbEnc(s.block, key, ZERO_IV, FirstBlockEnc(s, k, data[..len]))
  {
    hide SetupOk, Permutes, CfbEnc, FirstBlockEnc;
    SetupPermutes(s);
    var buf := FirstBlock(s, k, data, len);
    var iv := ZeroIv();
    CfbCrypt(true, s.block, key, len, iv, buf, output);
  }

  /** The copy that goes through CFB. */
  method FirstBlock(s: Setup, k: Keys, data: array<byte>, len: nat) returns (buf: array<byte>)
    requires SetupOk(s) && BLOCK <= len <= data.Length && len <= BUF_LEN
    ensures fresh(buf) && buf.Length == BUF_LEN && buf[..len] == FirstBlockEnc(s, k, data[..len])
  {
    hide SetupOk, Permutes;
    SetupPermutes(s);
    buf := new byte[BUF_LEN];
    Put(buf, 0, data[..len]);
    assert buf[..len] == data[..len];
    if !s.cfbOld {
      ghost var was := buf[..];
      assert was[..len] == data[..len] && data[..len][..BLOCK] == data[..BLOCK];
      BlockFacts(s.block, k.cipherEnc, data[..BLOCK]);
      var e := s.block.enc(k.cipherEnc, data[..BLOCK]);
      Put(buf, 0, e);
      SpliceFront(buf[..], was, e, len);
      assert buf[..len] == buf[..][..len];
    }
  }

  lemma SpliceFront(now: seq<byte>, was: seq<byte>, e: seq<byte>, n: nat)
    requires |e| <= n <= |was| && now == was[..0] + e + was[|e|..]
    ensures now[..n] == e + was[..n][|e|..]
  {
  }

  /** `cipher_encrypt` */
  method CipherEncrypt(s: Setup, k: Keys, key: seq<byte>, data: array<byte>, output: array<byte>, len: nat)
    returns (newLen: nat, ghost junk: seq<byte>)
    requires SetupOk(s) && |key| >= BLOCK && data != output && len <= data.Length && LongEnough(s, len)
    requires len + BLOCK <= BUF_LEN && CipherLength(s, len) <= output.Length
    modifies output
    ensures |junk| == BLOCK && newLen == CipherLength(s, len)
    ensures output[..newLen] == CipherEnc(s, k, key, data[..len], junk)
  {
    hide SetupOk, CbcEnc, CfbEnc, XorKey, Padded;
    newLen, junk := len, ZERO_IV;
    match s.cipher
    case CipherNone =>
      Put(output, 0, data[..len]);
    case CipherXor =>
      XorCrypt(data, output, len, key);
    case Aes128Cbc =>
      newLen, junk := CbcEncryptBuffer(s, key, data, output, len);
    case Aes128Cfb =>
      CfbEncryptBuffer(s, k, key, data, output, len);
  }

  method CbcDecryptBuffer(s: Setup, key: seq<byte>, data: array<byte>, output: array<byte>, len: nat) returns (ok: bool, newLen: nat)
    requires SetupOk(s) && data != output && len <= data.Length && len <= output.Length && len % BLOCK == 0
    modifies output
    ensures newLen <= len
    ensures DePad(CbcDec(s.block, key, ZERO_IV, data[..len])) == if ok then Some(output[..newLen]) else None
  {
    hide SetupOk, Permutes, CbcDec, DePad;
    SetupPermutes(s);
    var iv := ZeroIv();
    ok := CbcDecrypt(s.block, key, len, iv, data, output);
    ok, newLen := DePadding(output, len);
  }

  method CfbDecryptBuffer(s: Setup, k: Keys, key: seq<byte>, data: array<byte>, output: array<byte>, len: nat)
    requires SetupOk(s) && data != output && BLOCK <= len <= data.Length && len <= output.Length
    modifies output
    ensures output[..len] == FirstBlockDec(s, k, CfbDec(s.block, key, ZERO_IV, data[..len]))
  {
    hide SetupOk, Permutes, CfbDec;
    SetupPermutes(s);
    var iv := ZeroIv();
    CfbCrypt(false, s.block, key, len, iv, data, output);
    ghost var d := output[..len];
    if !s.cfbOld {
      BlockFacts(s.block, k.cipherDec, output[..BLOCK]);
      assert d[..BLOCK] == output[..BLOCK];
      Put(output, 0, s.block.dec(k.cipherDec, output[..BLOCK]));
      assert output[..len] == s.block.dec(k.cipherDec, d[..BLOCK]) + d[BLOCK..];
    }
  }

  /** Padding of whole blocks is refused when there is none, or when it claims more than a block. */
  lemma DePadIff(d: seq<byte>)
    requires |d| % BLOCK == 0
    ensures DePad(d).Some? <==> |d| > 0 && d[|d| - 1] as int <= 16
  {
  }

  /** `cipher_decrypt` */
  method CipherDecrypt(s: Setup, k: Keys, key: seq<byte>, data: array<byte>, output: array<byte>, len: nat)
    returns (ok: bool, newLen: nat)
    requires SetupOk(s) && |key| >= BLOCK && data != output && len <= data.Length && len <= output.Length
    modifies output
    ensures newLen <= len && (s.cipher == CipherNone || s.cipher == CipherXor ==> ok && newLen == len)
    ensures s.cipher == Aes128Cfb ==> (ok <==> len >= 16) && (ok ==> newLen == len)
    ensures s.cipher == Aes128Cbc ==>
              (ok <==> len % 16 == 0 && len > 0 && CbcDec(s.block, key, ZERO_IV, data[..len])[len - 1] as int <= 16)
    ensures CipherDec(s, k, key, data[..len]) == if ok then Some(output[..newLen]) else None
  {
    hide SetupOk, CbcDec, CfbDec, XorKey, DePad;
    ok, newLen := true, len;
    match s.cipher
    case CipherNone =>
      Put(output, 0, data[..len]);
      assert output[..len] == data[..len];
    case CipherXor =>
      XorCrypt(data, output, len, key);
    case Aes128Cbc =>
      if len % BLOCK != 0 { return false, 0; }
      SetupPermutes(s);
      DePadIff(CbcDec(s.block, key, ZERO_IV, data[..len]));
      ok, newLen := CbcDecryptBuffer(s, key, data, output, len);
    case Aes128Cfb =>
      if len < BLOCK { return false, 0; }
      CfbDecryptBuffer(s, k, key, data, output, len);
  }

  // ----- authentication -----

  /** The MAC of a buffer's first bytes, as each mode computes it. */
  method ComputeMac(s: Setup, key: seq<byte>, data: array<byte>, len: nat) returns (mac: seq<byte>)
    requires |key| >= 20 && len <= data.Length
    ensures s.auth == AuthNone ==> mac == []
    ensures s.auth == AuthMd5 ==> mac == s.md5(data[..len])
    ensures s.auth == AuthCrc32 ==> mac == BigEndian(Crc.Crc32(data[..len]))
    ensures s.auth == AuthSimple ==> mac == BigEndian(Djb2(data[..len])) + BigEndian(Sdbm(data[..len]))
    ensures s.auth == AuthHmacSha1 ==> mac == s.hmac(key[..20], data[..len])
    ensures mac == Mac(s, key, data[..len])
  {
    hide BigEndian, Crc.Crc32, Djb2, Sdbm;
    match s.auth
    case AuthNone => mac := [];
    case AuthMd5 => mac := s.md5(data[..len]);
    case AuthCrc32 => var crc := Crc.Crc32h(data, len); mac := BigEndian(crc);
    case AuthSimple => mac := SimpleHash(data, len);
    case AuthHmacSha1 => mac := s.hmac(key[..20], data[..len]);
  }

  /** `auth_cal` */
  method AuthCal(s: Setup, k: Keys, data: array<byte>, output: array<byte>, len: nat) returns (newLen: nat)
    requires SetupOk(s) && KeysOk(k) && data != output && len <= data.Length && len + MacLength(s.auth) <= output.Length
    modifies output
    ensures output[..len] == data[..len] && newLen == len + MacLength(s.auth)
    ensures s.auth == AuthNone ==> newLen == len
    ensures s.auth == AuthMd5 ==> newLen == len + 16 && output[len..newLen] == s.md5(data[..len])
    ensures s.auth == AuthCrc32 ==> newLen == len + 4 && output[len..newLen] == BigEndian(Crc.Crc32(data[..len]))
    ensures s.auth == AuthSimple ==>
              newLen == len + 8 && output[len..newLen] == BigEndian(Djb2(data[..len])) + BigEndian(Sdbm(data[..len]))
    ensures s.auth == AuthHmacSha1 ==> newLen == len + 20 && output[len..newLen] == s.hmac(k.hmacEnc[..20], data[..len])
    ensures output[..newLen] == data[..len] + Mac(s, k.hmacEnc, data[..len])
  {
    hide SetupOk, Mac, BigEndian, Crc.Crc32, Djb2, Sdbm;
    MacSize(s, k.hmacEnc, data[..len]);
    Put(output, 0, data[..len]);
    assert output[..len] == data[..len];
    var mac := ComputeMac(s, k.hmacEnc, output, len);
    Put(output, len, mac);
    newLen := len + |mac|;
  }

  /** `auth_verify` */
  method AuthVerify(s: Setup, k: Keys, data: array<byte>, len: nat) returns (ok: bool, newLen: nat)
    requires KeysOk(k) && len <= data.Length
    ensures newLen <= len
    ensures s.auth == AuthNone ==> ok && newLen == len
    ensures s.auth == AuthMd5 ==>
              && (ok <==> len >= 16 && data[len - 16..len] == s.md5(data[..len - 16]))
              && (ok ==> newLen == len - 16)
    ensures s.auth == AuthCrc32 ==>
              && (ok <==> len >= 4 && data[len - 4..len] == BigEndian(Crc.Crc32(data[..len - 4])))
              && (ok ==> newLen == len - 4)
    ensures s.auth == AuthSimple ==>
              && (ok <==> len >= 8 && data[len - 8..len] == BigEndian(Djb2(data[..len - 8])) + BigEndian(Sdbm(data[..len - 8])))
              && (ok ==> newLen == len - 8)
    ensures s.auth == AuthHmacSha1 ==>
              && (ok <==> len >= 20 && data[len - 20..len] == s.hmac(k.hmacDec[..20], data[..len - 20]))
              && (ok ==> newLen == len - 20)
    ensures Verified(s, k.hmacDec, data[..len]) == if ok then Some(data[..newLen]) else None
  {
    hide Mac, BigEndian, Crc.Crc32, Djb2, Sdbm;
    if len < MacLength(s.auth) { return false, 0; }
    newLen := len - MacLength(s.auth);
    assert data[..len][..newLen] == data[..newLen] && data[..len][newLen..] == data[newLen..len];
    var res := ComputeMac(s, k.hmacDec, data, newLen);
    ok := res == data[newLen..len];
  }

  // ----- the codec -----

  /** `my_encrypt` */
  method MyEncrypt(s: Setup, k: Keys, data: array<byte>, output: array<byte>, len: int) returns (ok: bool, newLen: nat, ghost junk: seq<byte>)
    requires SetupOk(s) && KeysOk(k) && data != output && len <= data.Length && output.Length >= BUF_LEN - 2
    requires 0 <= len <= MAX_DATA_LEN ==> LongEnough(s, CipherInput(s, len))
    modifies output
    ensures |junk| == BLOCK
    ensures ok <==> 0 <= len <= MAX_DATA_LEN
    ensures ok ==> newLen == EncodedLength(s, len) <= output.Length && Encode(s, k, data[..len], junk) == Some(output[..newLen])
  {
    hide SetupOk, CipherEnc, Mac, BigEndian, Crc.Crc32, Djb2, Sdbm;
    junk := ZERO_IV;
    if len < 0 { return false, 0, junk; }
    if len > MAX_DATA_LEN { return false, 0, junk; }
    var buf := new byte[BUF_LEN];
    var buf2 := new byte[BUF_LEN];
    Put(buf, 0, data[..len]);
    assert buf[..len] == data[..len];
    if EncryptThenMac(s) {
      newLen, junk := CipherEncrypt(s, k, k.cipherEnc, buf, buf2, len);
      newLen := AuthCal(s, k, buf2, output, newLen);
    } else {
      newLen := AuthCal(s, k, buf, buf2, len);
      newLen, junk := CipherEncrypt(s, k, k.normal, buf2, output, newLen);
    }
    return true, newLen, junk;
  }

  /** `my_decrypt` */
  method MyDecrypt(s: Setup, k: Keys, data: array<byte>, output: array<byte>, len: int) returns (ok: bool, newLen: nat)
    requires SetupOk(s) && KeysOk(k) && data != output && len <= data.Length && output.Length == BUF_LEN
    modifies output
    ensures len < 0 ==> !ok
    ensures newLen <= MAX_DATA_LEN
    ensures len >= 0 ==> newLen <= len && Decode(s, k, data[..len]) == if ok then Some(output[..newLen]) else None
  {
    hide SetupOk, CipherDec, Verified, BigEndian, Crc.Crc32, Djb2, Sdbm;
    if len < 0 { return false, 0; }
    if len > MAX_DATA_LEN { return false, 0; }
    if EncryptThenMac(s) {
      ok, newLen := AuthVerify(s, k, data, len);
      if !ok { return false, 0; }
      ok, newLen := CipherDecrypt(s, k, k.cipherDec, data, output, newLen);
    } else {
      ok, newLen := CipherDecrypt(s, k, k.normal, data, output, len);
      if !ok { return false, 0; }
      ok, newLen := AuthVerify(s, k, output, newLen);
    }
  }
}
