/** The Internet checksum of common.cpp and its use in network.cpp, against section 1 of RFC 1071. */
module Checksum {
  import opened Bytes

  const M: nat := 65535

  /** A 16-bit word in memory, on a big-endian or a little-endian host. */
  function Word16(b0: byte, b1: byte, big: bool): (w: nat)
    ensures w <= M
  {
    if big then 256 * Value(b0) + Value(b1) else Value(b0) + 256 * Value(b1)
  }

  /** The two bytes of a word as the host stores it. */
  function Stored(w: nat, big: bool): (s: seq<byte>)
    requires w <= M
    ensures |s| == 2
  {
    if big then [Octet(w / 256), Octet(w % 256)] else [Octet(w % 256), Octet(w / 256)]
  }

  lemma StoredWord(w: nat, big: bool)
    requires w <= M
    ensures Word16(Stored(w, big)[0], Stored(w, big)[1], big) == w
  {
    OctetValue(w / 256);
    OctetValue(w % 256);
  }

  /** The plain sum of the words; a last odd byte is followed by a zero. */
  function Sum(data: seq<byte>, big: bool): nat {
    if data == [] then 0
    else if |data| == 1 then Word16(data[0], 0, big)
    else Word16(data[0], data[1], big) + Sum(data[2..], big)
  }

  /** Addition with end-around carry. */
  function EndAround(a: nat, b: nat): (r: nat)
    requires a <= M && b <= M
    ensures r <= M
  {
    if a + b <= M then a + b else a + b - M
  }

  /** The one's-complement sum of RFC 1071. */
  function OnesSum(data: seq<byte>, big: bool): (r: nat)
    ensures r <= M
  {
    if data == [] then 0
    else if |data| == 1 then Word16(data[0], 0, big)
    else EndAround(Word16(data[0], data[1], big), OnesSum(data[2..], big))
  }

  /** The representative of a sum modulo 65535 that end-around carries lead to: zero only for zero. */
  function Norm(s: nat): (r: nat)
    ensures r <= M && (r == 0 <==> s == 0)
  {
    if s == 0 then 0 else (s - 1) % M + 1
  }

  /** The two folds of the code. */
  function Folded(sum: nat): nat {
    var s := sum / 0x1_0000 + sum % 0x1_0000;
    s + s / 0x1_0000
  }

  lemma NormAdds(a: nat, b: nat)
    requires a <= M
    ensures Norm(a + b) == EndAround(a, Norm(b))
  {
    if b > 0 && a > 0 {
      var q, r := (b - 1) / M, (b - 1) % M;
      assert b - 1 == M * q + r && Norm(b) == r + 1;
      if a + r < M {
        Quotient(a + b - 1, q, a + r);
      } else {
        Quotient(a + b - 1, q + 1, a + r - M);
      }
    } else if b == 0 && a > 0 {
      Quotient(a - 1, 0, a - 1);
    }
  }

  lemma Quotient(x: nat, q: nat, r: nat)
    requires x == M * q + r && r < M
    ensures x % M == r
  {
  }

  lemma {:induction false} OnesSumIsNorm(data: seq<byte>, big: bool)
    ensures OnesSum(data, big) == Norm(Sum(data, big))
  {
    hide Word16, Norm, EndAround;
    if data == [] {
      NormSmall(0);
    } else if |data| == 1 {
      NormSmall(Word16(data[0], 0, big));
    } else {
      OnesSumIsNorm(data[2..], big);
      NormAdds(Word16(data[0], data[1], big), Sum(data[2..], big));
    }
  }

  lemma NormSmall(a: nat)
    requires a <= M
    ensures Norm(a) == a
  {
  }

  /** A fold keeps the sum modulo 65535, and keeps it from becoming zero. */
  lemma NormFold(sum: nat)
    ensures Norm(sum / 0x1_0000 + sum % 0x1_0000) == Norm(sum)
  {
    var q, r := sum / 0x1_0000, sum % 0x1_0000;
    if sum > 0 {
      assert sum - 1 == M * q + (q + r - 1);
      Shift(q + r - 1, q);
    }
  }

  lemma Shift(x: nat, q: nat)
    ensures (M * q + x) % M == x % M
  {
    assert x == M * (x / M) + x % M;
    assert M * q + x == M * (q + x / M) + x % M;
    Quotient(M * q + x, q + x / M, x % M);
  }

  /** Two folds are enough for sums of up to 65538 words. */
  lemma FoldsExact(sum: nat)
    requires sum <= 65538 * M
    ensures Folded(sum) % 0x1_0000 == Norm(sum)
  {
    var s := sum / 0x1_0000 + sum % 0x1_0000;
    NormFold(sum);
    NormFold(s);
    NormSmall(s / 0x1_0000 + s % 0x1_0000);
  }

  lemma {:induction false} SumBound(data: seq<byte>, big: bool)
    ensures Sum(data, big) <= (|data| + 1) / 2 * M
  {
    hide Word16;
    if |data| >= 2 {
      SumBound(data[2..], big);
    }
  }

  lemma {:induction false} SumConcat(a: seq<byte>, b: seq<byte>, big: bool)
    requires |a| % 2 == 0
    ensures Sum(a + b, big) == Sum(a, big) + Sum(b, big)
  {
    hide Word16;
    if a == [] {
      assert a + b == b;
    } else {
      assert (a + b)[2..] == a[2..] + b;
      SumConcat(a[2..], b, big);
    }
  }

  // ----- the code -----

  function Answer(data: seq<byte>, big: bool): (c: nat)
    ensures c <= M
  {
    M - Folded(Sum(data, big)) % 0x1_0000
  }

  /** `csum`: the low 16 bits of the complement of the folded sum. */
  method Csum(data: seq<byte>, big: bool) returns (answer: nat)
    ensures answer == Answer(data, big)
  {
    hide Word16;
    var sum: nat, at: nat, nbytes: nat := 0, 0, |data|;
    while nbytes > 1
      invariant at + nbytes == |data| && sum + Sum(data[at..], big) == Sum(data, big)
    {
      assert data[at..][2..] == data[at + 2..];
      sum := sum + Word16(data[at], data[at + 1], big);
      at, nbytes := at + 2, nbytes - 2;
    }
    if nbytes == 1 {
      sum := sum + Word16(data[at], 0, big);
    }
    answer := M - Folded(sum) % 0x1_0000;
  }

  /** `csum_with_header`: the source asserts that the header has an even length. */
  method CsumWithHeader(header: seq<byte>, data: seq<byte>, big: bool) returns (answer: nat)
    requires |header| % 2 == 0
    ensures answer == Answer(header + data, big)
  {
    hide Word16, Folded;
    var sum: nat := 0;
    for i := 0 to |header| / 2
      invariant sum + Sum(header[2 * i..], big) == Sum(header, big)
    {
      assert header[2 * i..][2..] == header[2 * (i + 1)..];
      sum := sum + Word16(header[2 * i], header[2 * i + 1], big);
    }
    SumConcat(header, data, big);
    var at: nat, nbytes: nat := 0, |data|;
    while nbytes > 1
      invariant at + nbytes == |data| && sum + Sum(data[at..], big) == Sum(header + data, big)
    {
      assert data[at..][2..] == data[at + 2..];
      sum := sum + Word16(data[at], data[at + 1], big);
      at, nbytes := at + 2, nbytes - 2;
    }
    if nbytes == 1 {
      sum := sum + Word16(data[at], 0, big);
    }
    answer := M - Folded(sum) % 0x1_0000;
  }

  // ----- what it computes -----

  /** The longest message, in bytes, for which two folds never lose a carry. */
  const LONGEST: nat := 131076

  /** For every packet the code computes the checksum of RFC 1071. */
  lemma AnswerIsChecksum(data: seq<byte>, big: bool)
    requires |data| <= LONGEST
    ensures Answer(data, big) == M - OnesSum(data, big)
  {
    SumBound(data, big);
    FoldsExact(Sum(data, big));
    OnesSumIsNorm(data, big);
  }

  function Repeated(b: byte, n: nat): (s: seq<byte>)
    ensures |s| == n
  {
    seq(n, _ => b)
  }

  lemma OneMore(n: int, w: int)
    ensures n * w == (n - 1) * w + w
  {
  }

  lemma {:induction false} SumRepeated(b: byte, n: nat, big: bool)
    requires n % 2 == 0
    ensures Sum(Repeated(b, n), big) == n / 2 * Word16(b, b, big)
  {
    hide Word16;
    if n > 0 {
      assert Repeated(b, n)[2..] == Repeated(b, n - 2);
      SumRepeated(b, n - 2, big);
      OneMore(n / 2, Word16(b, b, big));
    }
  }

  /** A message on which a carry is lost. */
  function Lossy(length: nat, big: bool): (m: seq<byte>)
    requires length > LONGEST
    ensures |m| == length
  {
    Repeated(0xFF, LONGEST - 2) + [0xFF, if big then 0 else 0xFF] + ([1] + Repeated(0, length - LONGEST - 1))
  }

  lemma Values()
    ensures Value(0) == 0 && Value(1) == 1 && Value(0xFF) == 255
  {
  }

  lemma {:induction false} SumZeros(n: nat, big: bool)
    ensures Sum(Repeated(0, n), big) == 0
  {
    Values();
    if n >= 2 {
      assert Repeated(0, n)[2..] == Repeated(0, n - 2);
      SumZeros(n - 2, big);
    }
  }

  lemma SumLossy(length: nat, big: bool)
    requires length > LONGEST
    ensures Sum(Lossy(length, big), big) == 65538 * M + 1
  {
    Values();
    var a, b := Repeated(0xFF, LONGEST - 2), [0xFF, if big then 0 else 0xFF];
    var c := [1] + Repeated(0, length - LONGEST - 1);
    SumConcat(a + b, c, big);
    SumConcat(a, b, big);
    SumRepeated(0xFF, LONGEST - 2, big);
    assert Word16(0xFF, 0xFF, big) == M;
    assert b[2..] == [];
    if length - LONGEST - 1 >= 1 {
      assert c[2..] == Repeated(0, length - LONGEST - 2);
      SumZeros(length - LONGEST - 2, big);
    }
  }

  /** The code computes the checksum of every message of a length if and only if the length is at most 131076. */
  lemma LengthsThatWork(length: nat, big: bool)
    ensures (forall m: seq<byte> :: |m| == length ==> Answer(m, big) == M - OnesSum(m, big)) <==> length <= LONGEST
  {
    hide Answer, OnesSum, Lossy;
    if length <= LONGEST {
      forall m: seq<byte> | |m| == length ensures Answer(m, big) == M - OnesSum(m, big) { AnswerIsChecksum(m, big); }
    } else {
      LossyFails(length, big);
    }
  }

  lemma LossyFails(length: nat, big: bool)
    requires length > LONGEST
    ensures var m := Lossy(length, big); |m| == length && Answer(m, big) == M && OnesSum(m, big) == 1
  {
    hide Sum, Lossy;
    SumLossy(length, big);
    OnesSumIsNorm(Lossy(length, big), big);
  }

  // ----- byte order -----

  function Swap(w: nat): (r: nat)
    requires w <= M
    ensures r <= M
  {
    w % 256 * 256 + w / 256
  }

  lemma SwapParts(w: nat)
    requires w <= M
    ensures Swap(w) / 256 == w % 256 && Swap(w) % 256 == w / 256
  {
  }

  lemma SwapStored(w: nat, big: bool)
    requires w <= M
    ensures Stored(Swap(w), big) == Stored(w, !big)
  {
    hide Octet, Swap;
    SwapParts(w);
  }

  lemma SwapComplement(w: nat)
    requires w <= M
    ensures Swap(M - w) == M - Swap(w)
  {
  }

  /** The sums in the two byte orders differ by a factor of 256 modulo 65535, and are zero together. */
  lemma {:induction false} SumSwaps(data: seq<byte>)
    returns (k: nat)
    ensures 256 * Sum(data, true) == Sum(data, false) + k * M
    ensures Sum(data, true) == 0 <==> Sum(data, false) == 0
  {
    Values();
    if data == [] {
      k := 0;
    } else if |data| == 1 {
      k := Value(data[0]);
    } else {
      var k0 := SumSwaps(data[2..]);
      k := k0 + Value(data[0]);
    }
  }

  lemma NormSwaps(a: nat, b: nat, k: nat)
    requires 256 * a == b + k * M && (a == 0 <==> b == 0)
    ensures Norm(b) == Swap(Norm(a))
  {
    if a > 0 {
      var q, n := (a - 1) / M, Norm(a);
      assert a == M * q + n;
      var s := Swap(n);
      assert s == 256 * n - n / 256 * M && s >= 1;
      var t := 256 * q + n / 256 - k;
      assert b == t * M + s;
      Quotient(b - 1, t, s - 1);
    }
  }

  /** The checksum bytes in memory are the same on hosts of either byte order. */
  lemma ByteOrderDoesNotMatter(data: seq<byte>)
    requires |data| <= LONGEST
    ensures Stored(Answer(data, true), true) == Stored(Answer(data, false), false)
  {
    hide Sum, Norm, Swap, Stored, Folded;
    var k := SumSwaps(data);
    NormSwaps(Sum(data, true), Sum(data, false), k);
    SumBound(data, true);
    SumBound(data, false);
    FoldsExact(Sum(data, true));
    FoldsExact(Sum(data, false));
    SwapComplement(Norm(Sum(data, true)));
    SwapStored(Answer(data, true), false);
  }

  // ----- filling in and checking -----

  /** A packet with its checksum field at `at`. */
  function WithField(m: seq<byte>, at: nat, field: seq<byte>): (r: seq<byte>)
    requires at + 2 <= |m| && |field| == 2
    ensures |r| == |m|
  {
    m[..at] + field + m[at + 2..]
  }

  lemma SumWithField(m: seq<byte>, at: nat, w: nat, big: bool)
    requires at % 2 == 0 && at + 2 <= |m| && w <= M
    ensures Sum(WithField(m, at, Stored(w, big)), big) == Sum(WithField(m, at, [0, 0]), big) + w
  {
    hide Word16, Stored;
    var f, rest := Stored(w, big), m[at + 2..];
    SumConcat(m[..at] + f, rest, big);
    SumConcat(m[..at], f, big);
    SumConcat(m[..at] + [0, 0], rest, big);
    SumConcat(m[..at], [0, 0], big);
    StoredWord(w, big);
    assert f[2..] == [] && [0, 0][2..] == [];
    ZeroWord(big);
  }

  lemma ZeroWord(big: bool)
    ensures Word16(0, 0, big) == 0
  {
    Values();
  }

  lemma CheckIsZero(m: seq<byte>, big: bool)
    requires |m| <= LONGEST
    ensures Answer(m, big) == 0 <==> Sum(m, big) > 0 && Sum(m, big) % M == 0
  {
    hide Sum;
    SumBound(m, big);
    FoldsExact(Sum(m, big));
    LastResidue(Sum(m, big));
  }

  lemma LastResidue(s: nat)
    ensures Norm(s) == M <==> s > 0 && s % M == 0
  {
    if s > 0 {
      var q, r := (s - 1) / M, (s - 1) % M;
      if r == M - 1 {
        Quotient(s, q + 1, 0);
      } else {
        Quotient(s, q, r + 1);
      }
    }
  }

  /** What a receiver accepts in the field: the checksum of the packet with the field zeroed and, when that is 0,
  also 65535. */
  lemma AcceptedFields(m: seq<byte>, at: nat, w: nat, big: bool)
    requires |m| <= LONGEST && at % 2 == 0 && at + 2 <= |m| && w <= M
    ensures var c := Answer(WithField(m, at, [0, 0]), big);
      Answer(WithField(m, at, Stored(w, big)), big) == 0 <==> w == c || (w == M && c == 0)
  {
    hide Sum, Stored, WithField, Folded, Norm;
    var z := WithField(m, at, [0, 0]);
    var s := Sum(z, big);
    CheckIsZero(WithField(m, at, Stored(w, big)), big);
    SumWithField(m, at, w, big);
    SumBound(z, big);
    FoldsExact(s);
    Completes(s, w);
  }

  lemma Completes(s: nat, w: nat)
    requires w <= M
    ensures var c := M - Norm(s);
            s + w > 0 && (s + w) % M == 0 <==> w == c || (w == M && c == 0)
  {
    if s > 0 {
      var q, n := (s - 1) / M, Norm(s);
      assert s == M * q + n && n >= 1;
      if n + w < M {
        Quotient(s + w, q, n + w);
      } else if n + w < 2 * M {
        Quotient(s + w, q + 1, n + w - M);
      } else {
        Quotient(s + w, q + 2, 0);
      }
    } else if w > 0 {
      if w < M {
        Quotient(w, 0, w);
      }
    }
  }

  /** Hosts of both byte orders agree on whether a packet checks out. */
  lemma AgreeOnZero(data: seq<byte>, big: bool)
    requires |data| <= LONGEST && Answer(data, big) == 0
    ensures forall host: bool :: Answer(data, host) == 0
  {
    hide Answer, Stored;
    ByteOrderDoesNotMatter(data);
    StoredWord(Answer(data, true), true);
    StoredWord(Answer(data, false), false);
    StoredZero();
    ZeroWord(true);
    ZeroWord(false);
    assert Answer(data, true) == Answer(data, false) == 0;
  }

  lemma StoredZero()
    ensures Stored(0, true) == Stored(0, false) == [0, 0]
  {
  }

  /** The sending side: the field is zero, the checksum over pseudo header and packet goes into it. Receivers of
  either byte order then accept the packet. */
  method Seal(pseudo: seq<byte>, packet: seq<byte>, at: nat, big: bool) returns (sent: seq<byte>)
    requires |pseudo| % 2 == 0 && at % 2 == 0 && at + 2 <= |packet| && |pseudo| + |packet| <= LONGEST
    requires packet[at..at + 2] == [0, 0]
    ensures exists field: seq<byte> :: |field| == 2 && sent == WithField(packet, at, field)
    ensures forall host: bool :: Answer(pseudo + sent, host) == 0
  {
    hide Answer, Stored;
    var check := CsumWithHeader(pseudo, packet, big);
    sent := WithField(packet, at, Stored(check, big));
    ghost var m := pseudo + packet;
    assert WithField(m, |pseudo| + at, [0, 0]) == m;
    assert WithField(m, |pseudo| + at, Stored(check, big)) == pseudo + sent;
    AcceptedFields(m, |pseudo| + at, check, big);
    AgreeOnZero(pseudo + sent, big);
  }

  /** The receiving side. */
  method Verify(pseudo: seq<byte>, packet: seq<byte>, big: bool) returns (ok: bool)
    requires |pseudo| % 2 == 0
    ensures ok <==> Answer(pseudo + packet, big) == 0
  {
    var check := CsumWithHeader(pseudo, packet, big);
    ok := check == 0;
  }

  /** A change of one aligned word goes unnoticed if and only if it turns 0 into 65535, or 65535 into 0 in a packet
  that is not otherwise zero. */
  lemma OneWordChanged(m: seq<byte>, at: nat, v: nat, w: nat, big: bool)
    requires |m| <= LONGEST && at % 2 == 0 && at + 2 <= |m| && v <= M && w <= M
    requires Answer(WithField(m, at, Stored(v, big)), big) == 0
    ensures Answer(WithField(m, at, Stored(w, big)), big) == 0 <==>
      v == w || (v == 0 && w == M) || (v == M && w == 0 && Sum(WithField(m, at, [0, 0]), big) > 0)
  {
    hide Answer, Stored, WithField;
    AcceptedFields(m, at, v, big);
    AcceptedFields(m, at, w, big);
    AnswerOfZero(WithField(m, at, [0, 0]), big);
  }

  lemma AnswerOfZero(m: seq<byte>, big: bool)
    requires |m| <= LONGEST
    ensures Answer(m, big) == M <==> Sum(m, big) == 0
  {
    hide Sum;
    SumBound(m, big);
    FoldsExact(Sum(m, big));
  }
}
