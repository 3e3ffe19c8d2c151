/** HMAC, HKDF-Expand and PBKDF2 on top of the streaming hashes. */
module KeyDerivation {
  import opened Bytes
  import opened HashSpec
  import opened Hashing

  const IPAD: byte := 0x36
  const OPAD: byte := 0x5C

  ghost function Inner(h: Hash, key: seq<byte>): (r: seq<byte>)
    requires HashOk(h)
    ensures |r| == BLOCK
  {
    XorBytes(Repeat(IPAD), KeyBlock(h, key))
  }

  ghost function Outer(h: Hash, key: seq<byte>): (r: seq<byte>)
    requires HashOk(h)
    ensures |r| == BLOCK
  {
    XorBytes(Repeat(OPAD), KeyBlock(h, key))
  }

  lemma HmacIs(h: Hash, key: seq<byte>, m: seq<byte>)
    requires HashOk(h)
    ensures Hmac(h, key, m) == Digest(h, Outer(h, key) + Digest(h, Inner(h, key) + m))
  {
  }

  lemma WholeDigest(h: Hash, m: seq<byte>)
    requires HashOk(h)
    ensures DigestFor(h, m, |m|) == Digest(h, m) && |Digest(h, m)| == h.size <= BLOCK
  {
  }

  lemma XorZero(b: byte)
    ensures Xor(b, 0) == b
  {
  }

  /** A hash context with the two pads. */
  class HmacContext {
    const ctx: Context
    const ipad: array<byte>
    const opad: array<byte>
    ghost var key: seq<byte>
    ghost var text: seq<byte>

    ghost predicate Shape() {
      && HashOk(ctx.h) && ctx.buffer.Length == ipad.Length == opad.Length == BLOCK
      && ipad != opad && ctx.buffer != ipad && ctx.buffer != opad
    }

    /** The inner hash has seen the inner pad and the text; the outer pad is kept for the end. */
    ghost predicate Valid()
      reads this, ctx, ctx.buffer, ipad, opad
    {
      && Shape() && ctx.Valid() && opad[..] == Outer(ctx.h, key)
      && ctx.fed == Inner(ctx.h, key) + text && ctx.count == |ctx.fed|
    }

    constructor (h: Hash)
      requires HashOk(h)
      ensures Shape() && ctx.h == h && fresh(ctx) && fresh(ctx.buffer) && fresh(ipad) && fresh(opad)
    {
      hide HashOk, Context.Valid;
      ctx := new Context(h);
      ipad := new byte[BLOCK];
      opad := new byte[BLOCK];
      key, text := [], [];
    }

    /** `sha2_hmac_starts`: whatever the context held before is gone. */
    method Starts(k: seq<byte>)
      requires Shape() && |k| < U32
      modifies this`key, this`text, ctx, ctx.buffer, ipad, opad
      ensures Valid() && key == k && text == []
    {
      hide HashOk, Inner, Outer, Context.Valid, Digest;
      var short := k;
      if |k| > BLOCK {
        ctx.Starts();
        ctx.Update(k);
        WholeDigest(ctx.h, k);
        assert [] + k == k;
        ModuloLess(|k|);
        short := ctx.Finish();
      }
      ShortKey(ctx.h, k, short);
      Pads(short);
      ctx.Starts();
      ctx.Update(ipad[..]);
      key, text := k, [];
      assert [] + ipad[..] == Inner(ctx.h, key) + text;
      ModuloLess(BLOCK);
    }

    /** The pads are set and the key is mixed into their first bytes. */
    method Pads(k: seq<byte>)
      requires Shape() && |k| <= BLOCK
      modifies ipad, opad
      ensures ipad[..] == XorBytes(Repeat(IPAD), k + Zeros(BLOCK - |k|))
      ensures opad[..] == XorBytes(Repeat(OPAD), k + Zeros(BLOCK - |k|))
    {
      hide HashOk, Xor;
      forall j | 0 <= j < BLOCK { ipad[j] := IPAD; }
      forall j | 0 <= j < BLOCK { opad[j] := OPAD; }
      for i := 0 to |k|
        invariant forall j :: 0 <= j < i ==> ipad[j] == Xor(IPAD, k[j]) && opad[j] == Xor(OPAD, k[j])
        invariant forall j :: i <= j < BLOCK ==> ipad[j] == IPAD && opad[j] == OPAD
      {
        ipad[i] := Xor(ipad[i], k[i]);
        opad[i] := Xor(opad[i], k[i]);
      }
      XorZero(IPAD);
      XorZero(OPAD);
    }

    /** `sha2_hmac_update` */
    method Update(input: seq<byte>)
      requires Valid() && |input| < U32
      modifies this`text, ctx, ctx.buffer
      ensures Valid() && key == old(key) && text == old(text) + input
    {
      hide HashOk, Inner, Outer, Context.Valid;
      ghost var fed, t := ctx.fed, text;
      ctx.Update(input);
      ModuloLess(|input|);
      text := text + input;
      assert Inner(ctx.h, key) + t + input == Inner(ctx.h, key) + text;
    }

    /** `sha2_hmac_finish` gives the HMAC of everything fed since the start. */
    method Finish() returns (mac: seq<byte>)
      requires Valid()
      modifies ctx, ctx.buffer
      ensures Shape() && mac == Hmac(ctx.h, key, text)
    {
      hide HashOk, Inner, Outer, Context.Valid, Digest, DigestFor, Hmac;
      WholeDigest(ctx.h, ctx.fed);
      var digest := ctx.Finish();
      ctx.Starts();
      ctx.Update(opad[..]);
      ctx.Update(digest);
      ModuloLess(BLOCK);
      ModuloLess(|digest|);
      assert ctx.fed == Outer(ctx.h, key) + digest;
      WholeDigest(ctx.h, ctx.fed);
      HmacIs(ctx.h, key, text);
      mac := ctx.Finish();
    }
  }

  lemma ShortKey(h: Hash, key: seq<byte>, short: seq<byte>)
    requires HashOk(h) && short == if |key| > BLOCK then Digest(h, key) else key
    ensures |short| <= BLOCK && KeyBlock(h, key) == short + Zeros(BLOCK - |short|)
    ensures Inner(h, key) == XorBytes(Repeat(IPAD), short + Zeros(BLOCK - |short|))
    ensures Outer(h, key) == XorBytes(Repeat(OPAD), short + Zeros(BLOCK - |short|))
  {
    DigestSize(h, key);
  }

  /** `sha1_hmac`, `sha2_hmac`: HMAC of a message given in any pieces. */
  method HmacPieces(h: Hash, key: seq<byte>, pieces: seq<seq<byte>>) returns (mac: seq<byte>)
    requires HashOk(h) && |key| < U32 && forall i :: 0 <= i < |pieces| ==> |pieces[i]| < U32
    ensures mac == Hmac(h, key, Concat(pieces))
  {
    hide HashOk, Hmac, HmacContext.Valid, Concat;
    var m := new HmacContext(h);
    m.Starts(key);
    NoPieces(pieces);
    for i := 0 to |pieces|
      invariant m.Valid() && m.ctx.h == h && m.key == key && m.text == Concat(pieces[..i])
      invariant fresh(m) && fresh(m.ctx) && fresh(m.ctx.buffer)
    {
      m.Update(pieces[i]);
      Fewer(pieces, i);
    }
    assert pieces[..|pieces|] == pieces;
    mac := m.Finish();
  }

  // ----- key streams -----

  lemma {:induction false} HkdfGrows(h: Hash, prk: seq<byte>, info: seq<byte>, n: nat, m: nat)
    requires HashOk(h) && n <= m
    ensures HkdfStream(h, prk, info, n) <= HkdfStream(h, prk, info, m)
  {
    hide HashOk, HkdfBlock;
    if n < m {
      HkdfGrows(h, prk, info, n, m - 1);
    }
  }

  lemma {:induction false} Pbkdf2Grows(h: Hash, password: seq<byte>, salt: seq<byte>, c: nat, n: nat, m: nat)
    requires HashOk(h) && c >= 1 && n <= m
    ensures Pbkdf2Stream(h, password, salt, c, n) <= Pbkdf2Stream(h, password, salt, c, m)
  {
    hide HashOk, Pbkdf2F;
    if n < m {
      Pbkdf2Grows(h, password, salt, c, n, m - 1);
    }
  }

  /** Of two prefixes of one sequence the shorter is a prefix of the longer. */
  lemma PrefixOf(a: seq<byte>, s: seq<byte>, t: seq<byte>)
    requires a <= s && (s <= t || (t <= s && |a| <= |t|))
    ensures a <= t
  {
  }

  function CeilDiv(a: nat, d: nat): nat
    requires d > 0
  {
    a / d + if a % d != 0 then 1 else 0
  }

  lemma CeilBounds(a: nat, d: nat)
    requires d > 0
    ensures a <= CeilDiv(a, d) * d < a + d
  {
    assert a == a / d * d + a % d;
    assert (a / d + 1) * d == a / d * d + d;
  }

  lemma MulGrows(n: int, m: int, d: nat)
    requires n <= m
    ensures n * d <= m * d
  {
  }

  lemma Pred(n: nat, d: nat)
    ensures (n - 1) * d == n * d - d
  {
  }

  /** The number of digests is the least that covers the output. */
  lemma CeilOf(a: nat, d: nat, n: nat)
    requires d > 0 && n == CeilDiv(a, d)
    ensures Total(d, n) >= a && (n > 0 ==> Total(d, n - 1) < a) && (n <= 255 <==> a <= 255 * d)
  {
    hide CeilDiv, Total;
    CeilBounds(a, d);
    TotalIs(d, n);
    Pred(n, d);
    if n > 0 {
      TotalIs(d, n - 1);
    }
    if n <= 255 {
      MulGrows(n, 255, d);
    } else {
      MulGrows(255, n - 1, d);
    }
  }

  lemma {:induction false} TotalGrows(d: nat, i: nat, n: nat)
    requires i <= n
    ensures Total(d, i) <= Total(d, n)
  {
    if i < n {
      TotalGrows(d, i, n - 1);
    }
  }

  /** One digest of HKDF-Expand. */
  method HkdfDigest(ctx: HmacContext, prk: seq<byte>, info: seq<byte>, i: nat, t: seq<byte>) returns (u: seq<byte>)
    requires ctx.Shape() && |prk| < U32 && |info| < U32 && |t| < U32 && i >= 1 && t == HkdfBlock(ctx.ctx.h, prk, info, i - 1)
    modifies ctx, ctx.ctx, ctx.ctx.buffer, ctx.ipad, ctx.opad
    ensures u == HkdfBlock(ctx.ctx.h, prk, info, i)
  {
    hide HashOk, HkdfBlock, HmacContext.Valid, Hmac;
    ctx.Starts(prk);
    ctx.Update(t);
    ctx.Update(info);
    ctx.Update([Octet(i % 256)]);
    assert ctx.text == t + info + [Octet(i % 256)];
    HkdfNext(ctx.ctx.h, prk, info, i, t);
    u := ctx.Finish();
  }

  /** `hkdf_sha256_expand`: the first bytes of T(1) || T(2) || ..., for up to 255 digests. */
  method HkdfExpand(h: Hash, prk: seq<byte>, info: seq<byte>, okm: array<byte>) returns (ok: bool)
    requires HashOk(h) && |prk| < U32 && |info| < U32
    modifies okm
    ensures ok <==> |prk| >= h.size > 0 && okm.Length <= 255 * h.size
    ensures ok ==> forall n: nat :: |HkdfStream(h, prk, info, n)| >= okm.Length ==> okm[..] <= HkdfStream(h, prk, info, n)
    ensures !ok ==> okm[..] == old(okm[..])
  {
    hide HashOk, HkdfStream, HkdfBlock, CeilDiv, Total;
    if |prk| < h.size || h.size == 0 {
      return false;
    }
    var n := CeilDiv(okm.Length, h.size);
    CeilOf(okm.Length, h.size, n);
    if n > 255 {
      return false;
    }
    HkdfFill(h, prk, info, okm, n);
    forall m: nat | |HkdfStream(h, prk, info, m)| >= okm.Length ensures okm[..] <= HkdfStream(h, prk, info, m) {
      if m <= n {
        HkdfGrows(h, prk, info, m, n);
      } else {
        HkdfGrows(h, prk, info, n, m);
      }
      PrefixOf(okm[..], HkdfStream(h, prk, info, n), HkdfStream(h, prk, info, m));
    }
    ok := true;
  }

  /** The loop of `hkdf_sha256_expand`. */
  method HkdfFill(h: Hash, prk: seq<byte>, info: seq<byte>, okm: array<byte>, n: nat)
    requires HashOk(h) && |prk| < U32 && |info| < U32
    requires Total(h.size, n) >= okm.Length && (n > 0 ==> Total(h.size, n - 1) < okm.Length)
    modifies okm
    ensures okm[..] <= HkdfStream(h, prk, info, n)
  {
    hide HashOk, HkdfStream, HkdfBlock, Total, HmacContext.Valid, Hmac, Octet;
    var ctx := new HmacContext(h);
    var t: seq<byte> := [];
    var where: nat := 0;
    HkdfEmpty(h, prk, info);
    for i := 1 to n + 1
      invariant ctx.Shape() && ctx.ctx.h == h && fresh(ctx) && fresh(ctx.ctx) && fresh(ctx.ctx.buffer) && fresh(ctx.ipad) && fresh(ctx.opad)
      invariant where == Total(h.size, i - 1) && t == HkdfBlock(h, prk, info, i - 1) && |t| <= BLOCK
      invariant i <= n ==> where <= okm.Length && okm[..where] == HkdfStream(h, prk, info, i - 1)
      invariant i == n + 1 ==> okm[..] <= HkdfStream(h, prk, info, n)
    {
      t := HkdfDigest(ctx, prk, info, i, t);
      HkdfNext(h, prk, info, i, HkdfBlock(h, prk, info, i - 1));
      if i != n {
        TotalGrows(h.size, i, n - 1);
      }
      var count := if i != n then h.size else okm.Length - where;
      ghost var done := okm[..where];
      Put(okm, where, t[..count]);
      assert okm[..where + count] == done + t[..count];
      where := where + h.size;
    }
  }

  lemma HkdfEmpty(h: Hash, prk: seq<byte>, info: seq<byte>)
    requires HashOk(h)
    ensures HkdfStream(h, prk, info, 0) == [] == HkdfBlock(h, prk, info, 0) && Total(h.size, 0) == 0
  {
  }

  lemma SizeOk(h: Hash)
    requires HashOk(h)
    ensures h.size <= BLOCK
  {
  }

  lemma HkdfNext(h: Hash, prk: seq<byte>, info: seq<byte>, i: nat, t: seq<byte>)
    requires HashOk(h) && i >= 1 && t == HkdfBlock(h, prk, info, i - 1)
    ensures HkdfBlock(h, prk, info, i) == Hmac(h, prk, t + info + [Octet(i % 256)]) && |HkdfBlock(h, prk, info, i)| == h.size <= BLOCK
    ensures HkdfStream(h, prk, info, i) == HkdfStream(h, prk, info, i - 1) + HkdfBlock(h, prk, info, i)
    ensures Total(h.size, i) == Total(h.size, i - 1) + h.size
  {
    hide HashOk, Hmac, Octet;
    SizeOk(h);
  }

  // ----- PBKDF2 -----

  /** One HMAC of a two-part message. */
  method HmacOf(ctx: HmacContext, key: seq<byte>, a: seq<byte>, b: seq<byte>) returns (mac: seq<byte>)
    requires ctx.Shape() && |key| < U32 && |a| < U32 && |b| < U32
    modifies ctx, ctx.ctx, ctx.ctx.buffer, ctx.ipad, ctx.opad
    ensures mac == Hmac(ctx.ctx.h, key, a + b)
  {
    hide HashOk, HmacContext.Valid, Hmac;
    ctx.Starts(key);
    ctx.Update(a);
    ctx.Update(b);
    assert ctx.text == a + b;
    mac := ctx.Finish();
  }

  /** One block of PBKDF2; an iteration count of zero counts as one. */
  method Pbkdf2Block(ctx: HmacContext, password: seq<byte>, salt: seq<byte>, counter: nat, iterations: nat) returns (work: seq<byte>)
    requires ctx.Shape() && |password| < U32 && |salt| < U32
    modifies ctx, ctx.ctx, ctx.ctx.buffer, ctx.ipad, ctx.opad
    ensures work == Pbkdf2F(ctx.ctx.h, password, salt, counter, AtLeastOne(iterations))
  {
    hide HashOk, Hmac, XorBytes, Word;
    SizeOk(ctx.ctx.h);
    var md1 := HmacOf(ctx, password, salt, Word(counter % U32, true));
    work := md1;
    var ic := 1;
    while ic < iterations
      invariant 1 <= ic <= AtLeastOne(iterations) && |md1| < U32
      invariant md1 == Pbkdf2U(ctx.ctx.h, password, salt, counter, ic) && work == Pbkdf2F(ctx.ctx.h, password, salt, counter, ic)
    {
      assert md1 + [] == md1;
      md1 := HmacOf(ctx, password, md1, []);
      work := XorBytes(work, md1);
      ic := ic + 1;
    }
  }

  function AtLeastOne(n: nat): (c: nat)
    ensures c >= 1 && (n >= 1 ==> c == n)
  {
    if n < 1 then 1 else n
  }

  /** `PKCS5_PBKDF2_HMAC_SHA256`: the first bytes of T_1 || T_2 || ... */
  method Pbkdf2(h: Hash, password: seq<byte>, salt: seq<byte>, iterations: nat, output: array<byte>)
    requires HashOk(h) && h.size > 0 && |password| < U32 && |salt| < U32
    modifies output
    ensures forall n: nat :: |Pbkdf2Stream(h, password, salt, AtLeastOne(iterations), n)| >= output.Length ==>
      output[..] <= Pbkdf2Stream(h, password, salt, AtLeastOne(iterations), n)
  {
    hide HashOk, Pbkdf2Stream;
    var n := Pbkdf2Fill(h, password, salt, iterations, output);
    ghost var c := AtLeastOne(iterations);
    forall m: nat | |Pbkdf2Stream(h, password, salt, c, m)| >= output.Length ensures output[..] <= Pbkdf2Stream(h, password, salt, c, m) {
      if m <= n {
        Pbkdf2Grows(h, password, salt, c, m, n);
      } else {
        Pbkdf2Grows(h, password, salt, c, n, m);
      }
      PrefixOf(output[..], Pbkdf2Stream(h, password, salt, c, n), Pbkdf2Stream(h, password, salt, c, m));
    }
  }

  /** The outer loop. */
  method Pbkdf2Fill(h: Hash, password: seq<byte>, salt: seq<byte>, iterations: nat, output: array<byte>) returns (n: nat)
    requires HashOk(h) && h.size > 0 && |password| < U32 && |salt| < U32
    modifies output
    ensures output[..] <= Pbkdf2Stream(h, password, salt, AtLeastOne(iterations), n)
  {
    hide HashOk, Pbkdf2Stream, Pbkdf2F, Total, AtLeastOne;
    var ctx := new HmacContext(h);
    var counter: nat := 1;
    var generated: nat := 0;
    ghost var c := AtLeastOne(iterations);
    Pbkdf2Empty(h, password, salt, c);
    while generated < output.Length
      invariant ctx.Shape() && ctx.ctx.h == h && fresh(ctx) && fresh(ctx.ctx) && fresh(ctx.ctx.buffer) && fresh(ctx.ipad) && fresh(ctx.opad)
      invariant counter >= 1 && generated <= output.Length && output[..generated] <= Pbkdf2Stream(h, password, salt, c, counter - 1)
      invariant generated < output.Length ==> generated == Total(h.size, counter - 1)
      decreases output.Length - generated
    {
      var work := Pbkdf2Block(ctx, password, salt, counter, iterations);
      Pbkdf2Next(h, password, salt, c, counter);
      var count := if output.Length - generated < h.size then output.Length - generated else h.size;
      ghost var done := output[..generated];
      Put(output, generated, work[..count]);
      assert output[..generated + count] == done + work[..count];
      generated := generated + count;
      counter := counter + 1;
    }
    n := counter - 1;
    assert output[..generated] == output[..];
  }

  lemma Pbkdf2Empty(h: Hash, password: seq<byte>, salt: seq<byte>, c: nat)
    requires HashOk(h) && c >= 1
    ensures Pbkdf2Stream(h, password, salt, c, 0) == [] && Total(h.size, 0) == 0
  {
  }

  lemma Pbkdf2Next(h: Hash, password: seq<byte>, salt: seq<byte>, c: nat, i: nat)
    requires HashOk(h) && c >= 1 && i >= 1
    ensures Pbkdf2Stream(h, password, salt, c, i) == Pbkdf2Stream(h, password, salt, c, i - 1) + Pbkdf2F(h, password, salt, i, c)
    ensures Total(h.size, i) == Total(h.size, i - 1) + h.size
  {
    hide HashOk, Pbkdf2F;
  }
}
