/** Framing with `--fix-gro` (connection.cpp): a masked two-byte length in front of each encoded packet, so that
packets the network card glued together can be taken apart again; and the header inside a packet. */
module Gro {
  import opened Bytes
  import opened BlockModes
  import opened CodecSpec
  import Codec

  const MIN_FRAME: nat := 16

  /** `read_u16` */
  function ReadU16(w: seq<byte>): nat
    requires |w| >= 2
  {
    (w[0] as int) * 256 + (w[1] as int)
  }

  /** `write_u16` */
  function U16(n: nat): (w: seq<byte>)
    requires n < 65536
    ensures |w| == 2
  {
    [Octet(n / 256), Octet(n % 256)]
  }

  lemma U16RoundTrip(n: nat, rest: seq<byte>)
    requires n < 65536
    ensures ReadU16(U16(n) + rest) == n
  {
    hide Octet;
    OctetValue(n / 256);
    OctetValue(n % 256);
  }

  // ----- the mask -----

  /** What the sender does to the front of a frame; the first 16 bytes of `w` are there. */
  ghost function Mask(s: Setup, k: Keys, xor: seq<byte>, w: seq<byte>): (r: seq<byte>)
    requires SetupOk(s) && |xor| >= 2 && |w| >= MIN_FRAME
    ensures |r| == |w|
  {
    BlockFacts(s.block, k.cipherEnc, w[..BLOCK]);
    match s.cipher
    case CipherNone => w
    case CipherXor => [Xor(w[0], xor[0]), Xor(w[1], xor[1])] + w[2..]
    case _ => s.block.enc(k.cipherEnc, w[..BLOCK]) + w[BLOCK..]
  }

  /** What the receiver does. */
  ghost function Unmask(s: Setup, k: Keys, xor: seq<byte>, w: seq<byte>): (r: seq<byte>)
    requires SetupOk(s) && |xor| >= 2 && |w| >= MIN_FRAME
    ensures |r| == |w|
  {
    BlockFacts(s.block, k.cipherDec, w[..BLOCK]);
    match s.cipher
    case CipherNone => w
    case CipherXor => [Xor(w[0], xor[0]), Xor(w[1], xor[1])] + w[2..]
    case _ => s.block.dec(k.cipherDec, w[..BLOCK]) + w[BLOCK..]
  }

  /** Whatever follows in the same buffer. */
  lemma MaskRoundTrip(s: Setup, k: Keys, m: Keys, xor: seq<byte>, w: seq<byte>, rest: seq<byte>)
    requires SetupOk(s) && |xor| >= 2 && |w| >= MIN_FRAME && m.cipherDec == k.cipherEnc
    ensures Unmask(s, m, xor, Mask(s, k, xor, w) + rest) == w + rest
  {
    hide SetupOk, Permutes, Xor;
    SetupPermutes(s);
    BlockFacts(s.block, k.cipherEnc, w[..BLOCK]);
    var masked := Mask(s, k, xor, w) + rest;
    match s.cipher
    case CipherNone =>
    case CipherXor =>
      XorTwice(w[0], xor[0]);
      XorTwice(w[1], xor[1]);
      assert masked[2..] == w[2..] + rest;
      assert Unmask(s, m, xor, masked) == [w[0], w[1]] + (w[2..] + rest);
      assert [w[0], w[1]] + w[2..] == w;
    case _ =>
      assert masked[..BLOCK] == s.block.enc(k.cipherEnc, w[..BLOCK]) && masked[BLOCK..] == w[BLOCK..] + rest;
      assert w == w[..BLOCK] + w[BLOCK..];
  }

  // ----- framing -----

  /** `send_safer`, from the encoded packet on. */
  ghost function Frame(s: Setup, k: Keys, xor: seq<byte>, enc: seq<byte>): (r: seq<byte>)
    requires SetupOk(s) && |xor| >= 2 && MIN_FRAME - 2 <= |enc| < 65536
    ensures |r| == |enc| + 2
  {
    Mask(s, k, xor, U16(|enc|) + enc)
  }

  /** What is on the wire: the length, most significant byte first, and the packet; without a cipher as they are, under
  the xor cipher with the length masked by the first two key bytes, otherwise with the first block enciphered. */
  lemma FrameBytes(s: Setup, k: Keys, xor: seq<byte>, enc: seq<byte>) returns (hi: byte, lo: byte)
    requires SetupOk(s) && |xor| >= 2 && MIN_FRAME - 2 <= |enc| < 65536
    ensures hi as int * 256 + lo as int == |enc|
    ensures match s.cipher
            case CipherNone => Frame(s, k, xor, enc) == [hi, lo] + enc
            case CipherXor => Frame(s, k, xor, enc) == [hi ^ xor[0], lo ^ xor[1]] + enc
            case _ => Frame(s, k, xor, enc) == s.block.enc(k.cipherEnc, [hi, lo] + enc[..14]) + enc[14..]
  {
    hide SetupOk, Permutes, Octet, Frame;
    hi, lo := Octet(|enc| / 256), Octet(|enc| % 256);
    OctetValue(|enc| / 256);
    OctetValue(|enc| % 256);
    FrameIs(s, k, xor, enc, hi, lo);
  }

  lemma FrameIs(s: Setup, k: Keys, xor: seq<byte>, enc: seq<byte>, hi: byte, lo: byte)
    requires SetupOk(s) && |xor| >= 2 && MIN_FRAME - 2 <= |enc| < 65536 && U16(|enc|) == [hi, lo]
    ensures match s.cipher
            case CipherNone => Frame(s, k, xor, enc) == [hi, lo] + enc
            case CipherXor => Frame(s, k, xor, enc) == [Xor(hi, xor[0]), Xor(lo, xor[1])] + enc
            case _ => Frame(s, k, xor, enc) == s.block.enc(k.cipherEnc, [hi, lo] + enc[..14]) + enc[14..]
  {
    hide SetupOk, Permutes, U16, Xor;
    var w := [hi, lo] + enc;
    assert w[2..] == enc && w[..BLOCK] == [hi, lo] + enc[..14] && w[BLOCK..] == enc[14..];
  }

  /** `recv_safer_multi`: the packets of a buffer.  The mask is taken off in the buffer itself; a length that does
      not fit ends the work. */
  ghost function Split(s: Setup, k: Keys, xor: seq<byte>, w: seq<byte>): seq<seq<byte>>
    requires SetupOk(s) && |xor| >= 2
    decreases |w|
  {
    if |w| < MIN_FRAME then []
    else
      var u := Unmask(s, k, xor, w);
      var n, rest := ReadU16(u), u[2..];
      if n > |rest| || n > MAX_DATA_LEN then []
      else [rest[..n]] + Split(s, k, xor, rest[n..])
  }

  ghost predicate Framable(encs: seq<seq<byte>>) {
    forall i :: 0 <= i < |encs| ==> MIN_FRAME - 2 <= |encs[i]| <= MAX_DATA_LEN
  }

  ghost function Glued(s: Setup, k: Keys, xor: seq<byte>, encs: seq<seq<byte>>): seq<byte>
    requires SetupOk(s) && |xor| >= 2 && Framable(encs)
  {
    if encs == [] then [] else Frame(s, k, xor, encs[0]) + Glued(s, k, xor, encs[1..])
  }

  lemma SplitFirst(s: Setup, k: Keys, m: Keys, xor: seq<byte>, enc: seq<byte>, rest: seq<byte>)
    requires SetupOk(s) && |xor| >= 2 && MIN_FRAME - 2 <= |enc| <= MAX_DATA_LEN && m.cipherDec == k.cipherEnc
    ensures Split(s, m, xor, Frame(s, k, xor, enc) + rest) == [enc] + Split(s, m, xor, rest)
  {
    hide SetupOk, Mask, Unmask, U16, ReadU16;
    var w := U16(|enc|) + enc;
    MaskRoundTrip(s, k, m, xor, w, rest);
    U16RoundTrip(|enc|, enc + rest);
    var u := w + rest;
    assert u == U16(|enc|) + (enc + rest);
    assert u[2..] == enc + rest;
    assert (enc + rest)[..|enc|] == enc && (enc + rest)[|enc|..] == rest;
  }

  /** Any packets glued together come apart again, in order, and whatever they contain: a packet the codec
      rejects does not disturb the framing of the others. */
  lemma {:induction false} SplitGlued(s: Setup, k: Keys, xor: seq<byte>, encs: seq<seq<byte>>)
    requires SetupOk(s) && KeysOk(k) && |xor| >= 2 && Framable(encs)
    ensures Split(s, Mirror(k), xor, Glued(s, k, xor, encs)) == encs
  {
    hide SetupOk, Frame;
    if encs == [] {
      SplitShort(s, Mirror(k), xor, []);
    } else {
      SplitFirst(s, k, Mirror(k), xor, encs[0], Glued(s, k, xor, encs[1..]));
      SplitGlued(s, k, xor, encs[1..]);
    }
  }

  lemma SplitShort(s: Setup, k: Keys, xor: seq<byte>, w: seq<byte>)
    requires SetupOk(s) && |xor| >= 2 && |w| < MIN_FRAME
    ensures Split(s, k, xor, w) == []
  {
  }

  // ----- framing and decoding -----

  /** The packets that decode, in order. */
  ghost function DecodeAll(s: Setup, k: Keys, encs: seq<seq<byte>>): seq<seq<byte>>
    requires SetupOk(s) && KeysOk(k)
  {
    if encs == [] then []
    else
      var d := Decode(s, k, encs[0]);
      (if d == None then [] else [d.value]) + DecodeAll(s, k, encs[1..])
  }

  /** A packet that is rejected disturbs none before or behind it. */
  lemma {:induction false} DecodedApart(s: Setup, k: Keys, front: seq<seq<byte>>, enc: seq<byte>, back: seq<seq<byte>>)
    requires SetupOk(s) && KeysOk(k)
    ensures DecodeAll(s, k, front + [enc] + back)
            == DecodeAll(s, k, front) + (if Decode(s, k, enc) == None then [] else [Decode(s, k, enc).value]) + DecodeAll(s, k, back)
  {
    hide SetupOk, Decode;
    var one := if Decode(s, k, enc) == None then [] else [Decode(s, k, enc).value];
    var rest := DecodeAll(s, k, back);
    if front == [] {
      assert [] + [enc] + back == [enc] + back;
      DecodeStep(s, k, enc, back, []);
      assert [] + DecodeAll(s, k, [enc] + back) == DecodeAll(s, k, [enc] + back);
      assert [] + one + rest == one + rest;
    } else {
      var first := if Decode(s, k, front[0]) == None then [] else [Decode(s, k, front[0]).value];
      var more := front[1..] + [enc] + back;
      assert front + [enc] + back == [front[0]] + more && front == [front[0]] + front[1..];
      assert ([front[0]] + more)[1..] == more;
      DecodedApart(s, k, front[1..], enc, back);
      assert first + (DecodeAll(s, k, front[1..]) + one + rest) == first + DecodeAll(s, k, front[1..]) + one + rest;
    }
  }

  /** Packets the sender can frame: whatever junk its buffers hold, their encodings fit. */
  ghost predicate Sendable(s: Setup, plains: seq<seq<byte>>, junks: seq<seq<byte>>) {
    && |junks| == |plains|
    && forall i :: 0 <= i < |plains| ==>
         && |plains[i]| <= MAX_DATA_LEN && |junks[i]| >= BLOCK && LongEnough(s, CipherInput(s, |plains[i]|))
         && MIN_FRAME - 2 <= EncodedLength(s, |plains[i]|) <= MAX_DATA_LEN
  }

  ghost function EncodeAll(s: Setup, k: Keys, plains: seq<seq<byte>>, junks: seq<seq<byte>>): (encs: seq<seq<byte>>)
    requires SetupOk(s) && KeysOk(k) && Sendable(s, plains, junks)
    ensures |encs| == |plains| && Framable(encs)
  {
    if plains == [] then []
    else
      RoundTrip(s, k, plains[0], junks[0]);
      [Encode(s, k, plains[0], junks[0]).value] + EncodeAll(s, k, plains[1..], junks[1..])
  }

  lemma {:induction false} DecodeEncoded(s: Setup, k: Keys, plains: seq<seq<byte>>, junks: seq<seq<byte>>)
    requires SetupOk(s) && KeysOk(k) && Sendable(s, plains, junks)
    ensures DecodeAll(s, Mirror(k), EncodeAll(s, k, plains, junks)) == plains
  {
    hide SetupOk, Encode, Decode;
    if plains != [] {
      RoundTrip(s, k, plains[0], junks[0]);
      DecodeEncoded(s, k, plains[1..], junks[1..]);
      var encs := EncodeAll(s, k, plains, junks);
      assert encs[1..] == EncodeAll(s, k, plains[1..], junks[1..]);
    }
  }

  /** The whole way: packets encoded and framed by one end and glued together by the network come out of the
      other end as they were, in order. */
  lemma GluedPacketsArrive(s: Setup, k: Keys, xor: seq<byte>, plains: seq<seq<byte>>, junks: seq<seq<byte>>)
    requires SetupOk(s) && KeysOk(k) && |xor| >= 2 && Sendable(s, plains, junks)
    ensures DecodeAll(s, Mirror(k), Split(s, Mirror(k), xor, Glued(s, k, xor, EncodeAll(s, k, plains, junks)))) == plains
  {
    hide SetupOk;
    SplitGlued(s, k, xor, EncodeAll(s, k, plains, junks));
    DecodeEncoded(s, k, plains, junks);
  }

  // ----- on buffers -----

  /** `send_safer` with `--fix-gro`, from the plaintext packet on. */
  method SendFrame(s: Setup, k: Keys, xor: seq<byte>, data: array<byte>, len: nat, output: array<byte>)
    returns (ok: bool, newLen: nat, ghost junk: seq<byte>)
    requires SetupOk(s) && KeysOk(k) && |xor| >= 2 && data != output && len <= data.Length && output.Length == BUF_LEN
    requires LongEnough(s, CipherInput(s, len)) && EncodedLength(s, len) >= MIN_FRAME - 2
    modifies output
    ensures |junk| == BLOCK && (ok <==> len <= MAX_DATA_LEN)
    ensures ok ==> newLen <= output.Length
                   && var e := Encode(s, k, data[..len], junk);
                      e.Some? && MIN_FRAME - 2 <= |e.value| < 65536 && output[..newLen] == Frame(s, k, xor, e.value)
  {
    hide SetupOk, Encode, Octet, Mask;
    var enc := new byte[BUF_LEN - 2];
    ok, newLen, junk := Codec.MyEncrypt(s, k, data, enc, len);
    if !ok { return false, 0, junk; }
    ghost var e := enc[..newLen];
    Put(output, 0, [Octet(newLen / 256), Octet(newLen % 256)]);
    assert output[..2] == U16(newLen);
    Put(output, 2, enc[..newLen]);
    newLen := newLen + 2;
    assert output[..newLen] == U16(|e|) + e;
    MaskInPlace(s, k, xor, output, newLen);
  }

  method MaskInPlace(s: Setup, k: Keys, xor: seq<byte>, data: array<byte>, len: nat)
    requires SetupOk(s) && |xor| >= 2 && MIN_FRAME <= len <= data.Length
    modifies data
    ensures data[..len] == Mask(s, k, xor, old(data[..len]))
  {
    hide SetupOk, Permutes, Xor;
    SetupPermutes(s);
    ghost var w := data[..len];
    if s.cipher == CipherXor {
      data[0] := Xor(data[0], xor[0]);
      data[1] := Xor(data[1], xor[1]);
      assert data[..len] == [Xor(w[0], xor[0]), Xor(w[1], xor[1])] + w[2..];
    } else if s.cipher == Aes128Cbc || s.cipher == Aes128Cfb {
      BlockFacts(s.block, k.cipherEnc, data[..BLOCK]);
      assert data[..BLOCK] == w[..BLOCK];
      Put(data, 0, s.block.enc(k.cipherEnc, data[..BLOCK]));
      assert data[..len] == s.block.enc(k.cipherEnc, w[..BLOCK]) + w[BLOCK..];
    }
  }

  /** Takes the mask off the front of what is left in a buffer, in place. */
  method UnmaskInPlace(s: Setup, k: Keys, xor: seq<byte>, data: array<byte>, at: nat, len: nat)
    requires SetupOk(s) && |xor| >= 2 && at + MIN_FRAME <= len <= data.Length
    modifies data
    ensures data[at..len] == Unmask(s, k, xor, old(data[at..len]))
  {
    hide SetupOk, Permutes, Xor;
    SetupPermutes(s);
    ghost var w := data[at..len];
    if s.cipher == CipherXor {
      data[at] := Xor(data[at], xor[0]);
      data[at + 1] := Xor(data[at + 1], xor[1]);
      FirstTwo(w, Xor(w[0], xor[0]), Xor(w[1], xor[1]));
      assert data[at..len] == w[0 := Xor(w[0], xor[0])][1 := Xor(w[1], xor[1])];
    } else if s.cipher == Aes128Cbc || s.cipher == Aes128Cfb {
      ghost var was := data[..];
      var front := data[at..at + BLOCK];
      assert front == w[..BLOCK] && was[at..len] == w;
      BlockFacts(s.block, k.cipherDec, front);
      Put(data, at, s.block.dec(k.cipherDec, front));
      Splice(data[..], was, at, s.block.dec(k.cipherDec, front), len);
      assert data[at..len] == data[..][at..len];
    }
  }

  lemma FirstTwo(w: seq<byte>, a: byte, b: byte)
    requires |w| >= 2
    ensures w[0 := a][1 := b] == [a, b] + w[2..]
  {
  }

  lemma Splice(now: seq<byte>, was: seq<byte>, at: nat, e: seq<byte>, len: nat)
    requires at + |e| <= len <= |was| && now == was[..at] + e + was[at + |e|..]
    ensures now[at..len] == e + was[at..len][|e|..]
  {
  }

  lemma SplitStep(s: Setup, k: Keys, xor: seq<byte>, w: seq<byte>, u: seq<byte>)
    requires SetupOk(s) && |xor| >= 2 && |w| >= MIN_FRAME && u == Unmask(s, k, xor, w)
    ensures var n, rest := ReadU16(u), u[2..];
            Split(s, k, xor, w) == if n > |rest| || n > MAX_DATA_LEN then [] else [rest[..n]] + Split(s, k, xor, rest[n..])
  {
  }

  lemma DecodeStep(s: Setup, k: Keys, enc: seq<byte>, encs: seq<seq<byte>>, done: seq<seq<byte>>)
    requires SetupOk(s) && KeysOk(k)
    ensures done + DecodeAll(s, k, [enc] + encs)
         == (if Decode(s, k, enc) == None then done else done + [Decode(s, k, enc).value]) + DecodeAll(s, k, encs)
    ensures DecodeAll(s, k, []) == []
  {
    hide Decode;
    assert ([enc] + encs)[1..] == encs;
  }

  /** The body of the receiving loop for one packet: a rejected one is skipped. */
  method DecodeOne(s: Setup, k: Keys, data: array<byte>, at: nat, n: nat) returns (out: seq<seq<byte>>)
    requires SetupOk(s) && KeysOk(k) && at + n <= data.Length && n <= MAX_DATA_LEN
    ensures out == var d := Decode(s, k, data[at..at + n]); if d == None then [] else [d.value]
  {
    hide SetupOk, Decode;
    var input := new byte[BUF_LEN];
    var recv := new byte[BUF_LEN];
    Put(input, 0, data[at..at + n]);
    assert input[..n] == data[at..at + n];
    var ok, len := Codec.MyDecrypt(s, k, input, recv, n);
    out := if ok then [recv[..len]] else [];
  }

  /** Takes the next frame off what is left of a buffer, unless its length does not fit. */
  method NextFrame(s: Setup, k: Keys, xor: seq<byte>, data: array<byte>, at: nat, len: nat) returns (fits: bool, n: nat)
    requires SetupOk(s) && |xor| >= 2 && at + MIN_FRAME <= len <= data.Length
    modifies data
    ensures fits ==> at + 2 + n <= len && n <= MAX_DATA_LEN
    ensures fits ==> Split(s, k, xor, old(data[at..len])) == [data[at + 2..at + 2 + n]] + Split(s, k, xor, data[at + 2 + n..len])
    ensures !fits ==> Split(s, k, xor, old(data[at..len])) == []
  {
    hide SetupOk, Split, Unmask;
    ghost var before := data[at..len];
    UnmaskInPlace(s, k, xor, data, at, len);
    ghost var u := data[at..len];
    SplitStep(s, k, xor, before, u);
    n := (data[at] as int) * 256 + (data[at + 1] as int);
    assert n == ReadU16(u);
    fits := !(n > len - at - 2 || n > MAX_DATA_LEN);
    if fits { Slices(data[..], at, len, n); }
  }

  lemma Slices(all: seq<byte>, at: nat, len: nat, n: nat)
    requires at + 2 + n <= len <= |all|
    ensures var rest := all[at..len][2..];
            rest[..n] == all[at + 2..at + 2 + n] && rest[n..] == all[at + 2 + n..len]
  {
  }

  /** `recv_safer_multi` with `--fix-gro`, for any bytes: the packets that decode. */
  method RecvMulti(s: Setup, k: Keys, xor: seq<byte>, data: array<byte>, len: nat) returns (out: seq<seq<byte>>)
    requires SetupOk(s) && KeysOk(k) && |xor| >= 2 && len <= data.Length
    modifies data
    ensures out == DecodeAll(s, k, Split(s, k, xor, old(data[..len])))
  {
    hide SetupOk, Split, DecodeAll, Decode;
    out := [];
    ghost var all := DecodeAll(s, k, Split(s, k, xor, data[..len]));
    var at: nat := 0;
    assert data[0..len] == data[..len] && [] + all == all;
    while len - at >= MIN_FRAME
      invariant at <= len
      invariant out + DecodeAll(s, k, Split(s, k, xor, data[at..len])) == all
      decreases len - at
    {
      DecodeStep(s, k, [], [], out);
      var fits, n := NextFrame(s, k, xor, data, at, len);
      if !fits {
        assert out + [] == out;
        return;
      }
      var one := DecodeOne(s, k, data, at + 2, n);
      DecodeStep(s, k, data[at + 2..at + 2 + n], Split(s, k, xor, data[at + 2 + n..len]), out);
      assert one == [] ==> out + one == out;
      out := out + one;
      at := at + 2 + n;
    }
    SplitShort(s, k, xor, data[at..len]);
    DecodeStep(s, k, [], [], out);
    assert out + [] == out;
  }
}
