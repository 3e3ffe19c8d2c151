/** The streaming hashes: a context that is fed a message in pieces of any size. */
module Hashing {
  import opened Bytes
  import opened HashSpec

  /** A context: running totals, chaining state, and the bytes that do not fill a block yet. */
  class Context {
    const h: Hash
    var total0: nat
    var total1: nat
    var state: State
    const buffer: array<byte>
    ghost var fed: seq<byte>     // the message so far
    ghost var count: nat         // its length as far as the totals can tell

    ghost predicate TotalsOk()
      reads this
    {
      total0 == count % U32 && total1 == count / U32 % U32 && count % U32 == |fed| % U32
    }

    /** The whole blocks of the message are in the state, the rest is in the buffer. */
    ghost predicate StateOk()
      reads this, buffer
    {
      && HashOk(h) && buffer.Length == BLOCK
      && var left := |fed| % BLOCK;
        && buffer[..left] == fed[|fed| - left..]
        && state == Fold(h, h.init, fed[..|fed| - left])
    }

    ghost predicate Valid()
      reads this, buffer
    {
      TotalsOk() && StateOk()
    }

    constructor (h: Hash)
      requires HashOk(h)
      ensures Valid() && this.h == h && fed == [] && count == 0 && fresh(buffer) && buffer.Length == BLOCK
    {
      hide HashOk, Fold;
      this.h := h;
      total0, total1, state, fed, count := 0, 0, h.init, [], 0;
      buffer := new byte[BLOCK];
      new;
      FoldNone(h);
    }

    /** `md5_starts` and its like. */
    method Starts()
      requires HashOk(h) && buffer.Length == BLOCK
      modifies this`total0, this`total1, this`state, this`fed, this`count
      ensures Valid() && fed == [] && count == 0
    {
      hide HashOk, Fold;
      total0, total1, state, fed, count := 0, 0, h.init, [], 0;
      FoldNone(h);
    }

    /** The totals count a piece's length modulo 2^32. */
    method Count(ilen: nat)
      requires total0 == count % U32 && total1 == count / U32 % U32
      modifies this`total0, this`total1, this`count
      ensures count == old(count) + ilen % U32 && total0 == count % U32 && total1 == count / U32 % U32
    {
      var n := ilen % U32;
      total0 := (total0 + n) % U32;
      if total0 < n {
        total1 := (total1 + 1) % U32;
      }
      CarryOut(count, n);
      count := count + n;
    }

    /** `md5_update` and its like, for a piece of any length. */
    method Update(input: seq<byte>)
      requires Valid()
      modifies this`total0, this`total1, this`state, this`fed, this`count, buffer
      ensures Valid() && fed == old(fed) + input && count == old(count) + |input| % U32
    {
      if input == [] {
        assert fed + input == fed;
        return;
      }
      var left := total0 % BLOCK;
      LeftOf(count, |fed|);
      Count(|input|);
      SameResidue(old(count), |fed|, |input|);
      Absorb(input, left);
    }

    /** The part of `update` that concerns the state and the buffer. */
    method Absorb(input: seq<byte>, left0: nat)
      requires StateOk() && left0 == |fed| % BLOCK
      modifies this`state, this`fed, buffer
      ensures StateOk() && fed == old(fed) + input
    {
      hide HashOk, Fold;
      var left, at: nat := left0, 0;
      var fill := BLOCK - left;
      ghost var all := fed + input;
      ghost var p: nat := |fed| - left;
      Joined(fed, input, p);
      if left != 0 && |input| >= fill {
        JoinedBlock(fed, input, p, fill);
        FillBuffer(left, input[..fill], all, p);
        at := fill;
        left := 0;
        p := p + BLOCK;
      }
      if left == 0 {
        at, p := Blocks(input, at, all, p);
      } else {
        assert input[0..] == input;
      }                                  // with bytes left over the input is too short for whole blocks
      assert left == 0 ==> all[p..] == input[at..] == buffer[..0] + input[at..];
      Keep(left, input[at..], all, p);
    }

    /** The buffer fills up and is processed. */
    method FillBuffer(left: nat, piece: seq<byte>, ghost all: seq<byte>, ghost p: nat)
      requires buffer.Length == BLOCK && left + |piece| == BLOCK && p % BLOCK == 0 && p + BLOCK <= |all|
      requires state == Fold(h, h.init, all[..p]) && buffer[..left] + piece == all[p..p + BLOCK]
      modifies this`state, buffer
      ensures state == Fold(h, h.init, all[..p + BLOCK])
    {
      hide Fold;
      Put(buffer, left, piece);
      FoldNext(h, all, p);
      assert buffer[..] == all[p..p + BLOCK];
      state := h.compress(state, buffer[..]);
    }

    /** Whole blocks go straight from the input. */
    method Blocks(input: seq<byte>, at0: nat, ghost all: seq<byte>, ghost p0: nat) returns (at: nat, ghost p: nat)
      requires at0 <= |input| && p0 % BLOCK == 0 && p0 <= |all| && all[p0..] == input[at0..]
      requires state == Fold(h, h.init, all[..p0])
      modifies this`state
      ensures at0 <= at <= |input| && |input| - at < BLOCK && p % BLOCK == 0 && p <= |all|
      ensures all[p..] == input[at..] && state == Fold(h, h.init, all[..p])
    {
      hide Fold;
      at, p := at0, p0;
      while |input| - at >= BLOCK
        invariant at0 <= at <= |input| && p <= |all| && p % BLOCK == 0 && all[p..] == input[at..]
        invariant state == Fold(h, h.init, all[..p])
        decreases |input| - at
      {
        NextBlock(all, p, input, at);
        FoldNext(h, all, p);
        state := h.compress(state, input[at..at + BLOCK]);
        at, p := at + BLOCK, p + BLOCK;
      }
    }

    /** The rest of the input waits in the buffer. */
    method Keep(left: nat, piece: seq<byte>, ghost all: seq<byte>, ghost p: nat)
      requires HashOk(h) && buffer.Length == BLOCK && left + |piece| < BLOCK && p % BLOCK == 0 && p <= |all|
      requires all[p..] == buffer[..left] + piece && state == Fold(h, h.init, all[..p])
      modifies this`fed, buffer
      ensures StateOk() && fed == all
    {
      hide HashOk, Fold;
      if piece != [] {
        Put(buffer, left, piece);
      }
      assert buffer[..left + |piece|] == all[p..];
      fed := all;
      Remainder(|fed|, p);
    }

    /** `md5_finish` and its like: padding and the length are fed through `update` themselves. */
    method Finish() returns (output: seq<byte>)
      requires Valid()
      modifies this`total0, this`total1, this`state, this`fed, this`count, buffer
      ensures Valid() && output == DigestFor(h, old(fed), old(count))
    {
      hide StateOk, HashOk, Fold, Octet, PadLength;
      var low := total0 * 8 % U32;
      var high := (total0 / 0x2000_0000 + total1 * 8) % U32;       // total[0] >> 29 | total[1] << 3
      var msglen := if h.bigEndian then Word(high, true) + Word(low, true) else Word(low, false) + Word(high, false);
      LengthWords(count);
      assert msglen == LengthField(count, h.bigEndian);
      var last := total0 % BLOCK;
      var padn := if last < 56 then 56 - last else 120 - last;
      PadnIs(count, |fed|);
      assert padn == PadLength(|fed|);
      ghost var m, n := fed, count;
      Update(Padding(padn));
      Update(msglen);
      assert fed == Padded(h, m, n);
      WholeBlocks();
      output := h.write(state);
    }

    lemma WholeBlocks()
      requires StateOk() && |fed| % BLOCK == 0
      ensures state == Fold(h, h.init, fed)
    {
      assert fed[..|fed|] == fed;
    }
  }

  lemma PadnIs(count: nat, n: nat)
    requires count % U32 == n % U32
    ensures var last := count % U32 % BLOCK; PadLength(n) == if last < 56 then 56 - last else 120 - last
  {
    LeftOf(count, n);
  }

  /** A multiple of `d` closer to zero than `d` is zero. */
  lemma Multiple(d: int, k: int)
    requires d > 0 && -d < d * k < d
    ensures k == 0
  {
    assert k >= 1 ==> d * k >= d * 1;
    assert k <= -1 ==> d * k <= d * -1;
  }

  lemma DivMod(x: nat, d: nat, q: nat, r: nat)
    requires d > 0 && x == d * q + r && r < d
    ensures x / d == q && x % d == r
  {
    assert d * (x / d - q) == r - x % d;
    Multiple(d, x / d - q);
  }

  /** The two words of the length field from the two totals. */
  lemma LengthWords(count: nat)
    ensures var bits := count * 8 % U64; var t0, t1 := count % U32, count / U32 % U32;
            bits % U32 == t0 * 8 % U32 && bits / U32 == (t0 / 0x2000_0000 + t1 * 8) % U32
  {
    var t0, a := count % U32, count / U32;
    var t1, b := a % U32, a / U32;
    var u, v := t0 / 0x2000_0000, t0 % 0x2000_0000;
    var w, high := (u + t1 * 8) / U32, (u + t1 * 8) % U32;
    assert count * 8 == U64 * (8 * b + w) + (U32 * high + 8 * v);
    assert U32 * high + 8 * v < U64;
    DivMod(count * 8, U64, 8 * b + w, U32 * high + 8 * v);
    DivMod(U32 * high + 8 * v, U32, high, 8 * v);
    DivMod(t0 * 8, U32, u, 8 * v);
  }

  lemma NextBlock(all: seq<byte>, p: nat, input: seq<byte>, at: nat)
    requires p <= |all| && at + BLOCK <= |input| && all[p..] == input[at..]
    ensures p + BLOCK <= |all| && all[p..p + BLOCK] == input[at..at + BLOCK] && all[p + BLOCK..] == input[at + BLOCK..]
  {
    assert |all[p..]| == |input[at..]|;
    assert all[p..][..BLOCK] == all[p..p + BLOCK] && input[at..][..BLOCK] == input[at..at + BLOCK];
    assert all[p..][BLOCK..] == all[p + BLOCK..] && input[at..][BLOCK..] == input[at + BLOCK..];
  }

  lemma Joined(fed: seq<byte>, input: seq<byte>, p: nat)
    requires p <= |fed|
    ensures (fed + input)[..p] == fed[..p] && (fed + input)[p..] == fed[p..] + input
    ensures p == |fed| ==> (fed + input)[p..] == input[0..]
  {
  }

  lemma JoinedBlock(fed: seq<byte>, input: seq<byte>, p: nat, fill: nat)
    requires p + BLOCK == |fed| + fill && fill <= BLOCK && fill <= |input|
    ensures (fed + input)[p..p + BLOCK] == fed[p..] + input[..fill] && (fed + input)[p + BLOCK..] == input[fill..]
  {
  }

  lemma Remainder(n: nat, p: nat)
    requires p % BLOCK == 0 && p <= n < p + BLOCK
    ensures n % BLOCK == n - p
  {
  }

  lemma CarryOut(count: nat, n: nat)
    requires n < U32
    ensures (count % U32 + n) % U32 == (count + n) % U32
    ensures (count + n) / U32 % U32 == if (count % U32 + n) % U32 < n then (count / U32 % U32 + 1) % U32 else count / U32 % U32
  {
  }

  /** The position in the block can be read off the low total. */
  lemma LeftOf(count: nat, n: nat)
    requires count % U32 == n % U32
    ensures count % U32 % BLOCK == n % BLOCK
  {
  }

  lemma SameResidue(count: nat, n: nat, more: nat)
    requires count % U32 == n % U32
    ensures (count + more % U32) % U32 == (n + more) % U32
  {
  }

  // ----- hashing in pieces -----

  lemma Fewer(pieces: seq<seq<byte>>, i: nat)
    requires i < |pieces|
    ensures Concat(pieces[..i + 1]) == Concat(pieces[..i]) + pieces[i]
    ensures Counted(pieces[..i + 1]) == Counted(pieces[..i]) + |pieces[i]| % U32
  {
    assert pieces[..i + 1][..i] == pieces[..i];
  }

  lemma NoPieces(pieces: seq<seq<byte>>)
    ensures Concat(pieces[..0]) == [] && Counted(pieces[..0]) == 0
  {
  }

  /** A message hashed in any pieces. */
  method HashPieces(h: Hash, pieces: seq<seq<byte>>) returns (digest: seq<byte>)
    requires HashOk(h)
    ensures digest == DigestFor(h, Concat(pieces), Counted(pieces))
  {
    hide HashOk, DigestFor, Context.Valid, Concat, Counted;
    var ctx := new Context(h);
    NoPieces(pieces);
    for i := 0 to |pieces|
      invariant ctx.Valid() && ctx.h == h && fresh(ctx) && fresh(ctx.buffer)
      invariant ctx.fed == Concat(pieces[..i]) && ctx.count == Counted(pieces[..i])
    {
      ctx.Update(pieces[i]);
      Fewer(pieces, i);
    }
    assert pieces[..|pieces|] == pieces;
    digest := ctx.Finish();
  }

  /** Streaming equals one-shot hashing: for any pieces below 2^32 bytes each, cut anywhere. */
  method HashStream(h: Hash, pieces: seq<seq<byte>>) returns (digest: seq<byte>)
    requires HashOk(h) && forall i :: 0 <= i < |pieces| ==> |pieces[i]| < U32
    ensures digest == Digest(h, Concat(pieces))
  {
    CountedIsLength(pieces);
    digest := HashPieces(h, pieces);
  }
}
