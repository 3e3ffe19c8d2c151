/** The TCP options of network.cpp: what is sent, and the parser for whatever arrives. */
module TcpOptions {
  import opened Bytes

  /** The timestamp fields that parsing leaves behind. */
  datatype Stamp = Stamp(hasTs: bool, ts: nat, tsAck: nat)

  const END: byte := 0
  const NOP: byte := 1
  const TIMESTAMP: byte := 8

  /** What the parser makes of the options from `at` on. */
  function Parsed(opts: seq<byte>, at: nat, s: Stamp): (r: (bool, Stamp))
    decreases |opts| - at
  {
    if at >= |opts| || opts[at] == END then (true, s)
    else if opts[at] == NOP then Parsed(opts, at + 1, s)
    else if at + 1 >= |opts| then (false, s)
    else if opts[at] == TIMESTAMP then
      if opts[at + 1] != 10 || at + 10 > |opts| then (false, s)
      else Parsed(opts, at + 10, Stamp(true, ReadWord(opts[at + 2..at + 6]), ReadWord(opts[at + 6..at + 10])))
    else if Value(opts[at + 1]) <= 1 then (false, s)
    else Parsed(opts, at + Value(opts[at + 1]), s)
  }

  /** `parse_tcp_option`: ends on any bytes and stays within them; the acknowledged timestamp is not reset. */
  method Parse(opts: seq<byte>, tsAck0: nat) returns (ok: bool, s: Stamp)
    ensures (ok, s) == Parsed(opts, 0, Stamp(false, 0, tsAck0))
  {
    s := Stamp(false, 0, tsAck0);
    var at: nat := 0;
    while at < |opts|
      invariant Parsed(opts, at, s) == Parsed(opts, 0, Stamp(false, 0, tsAck0))
      decreases |opts| - at
    {
      if opts[at] == END {
        return true, s;
      } else if opts[at] == NOP {
        at := at + 1;
      } else if opts[at] == TIMESTAMP {
        if at + 1 >= |opts| || opts[at + 1] != 10 || at + 10 > |opts| {
          return false, s;
        }
        s := Stamp(true, ReadWord(opts[at + 2..at + 6]), ReadWord(opts[at + 6..at + 10]));
        at := at + 10;
      } else {
        if at + 1 >= |opts| {
          return false, s;
        }
        var len := Value(opts[at + 1]);
        if len <= 1 {
          return false, s;
        }
        at := at + len;
      }
    }
    ok := true;
  }

  // ----- well-formed options -----

  /** An option of section 3.1 of RFC 9293 or section 3 of RFC 7323. */
  datatype Option = Nop | Ts(ts: nat, tsAck: nat) | Other(kind: byte, body: seq<byte>)

  ghost predicate OptionOk(o: Option) {
    match o
    case Nop => true
    case Ts(ts, tsAck) => ts < U32 && tsAck < U32
    case Other(kind, body) => kind != END && kind != NOP && kind != TIMESTAMP && |body| < 254
  }

  ghost function Encoded(o: Option): (b: seq<byte>)
    requires OptionOk(o)
    ensures |b| >= 1
  {
    match o
    case Nop => [NOP]
    case Ts(ts, tsAck) => [TIMESTAMP, 10] + Word(ts, true) + Word(tsAck, true)
    case Other(kind, body) => [kind, Octet(|body| + 2)] + body
  }

  ghost predicate AllOk(opts: seq<Option>) {
    forall i :: 0 <= i < |opts| ==> OptionOk(opts[i])
  }

  ghost function Encode(opts: seq<Option>): seq<byte>
    requires AllOk(opts)
  {
    if opts == [] then [] else Encoded(opts[0]) + Encode(opts[1..])
  }

  /** The last timestamp wins. */
  function Last(opts: seq<Option>, s: Stamp): Stamp {
    if opts == [] then s
    else Last(opts[1..], if opts[0].Ts? then Stamp(true, opts[0].ts, opts[0].tsAck) else s)
  }

  /** Parsing finds the last timestamp of any list of options, padded by zeros or not. */
  lemma {:induction false} ParseEncode(front: seq<byte>, opts: seq<Option>, padding: seq<byte>, s: Stamp)
    requires AllOk(opts) && (padding == [] || padding[0] == END)
    ensures Parsed(front + Encode(opts) + padding, |front|, s) == (true, Last(opts, s))
    decreases |opts|
  {
    hide Octet, Value, Word, ReadWord, OptionOk, Parsed, Encoded;
    var all := front + Encode(opts) + padding;
    if opts == [] {
      Ends(all, |front|, s);
    } else {
      var o, b := opts[0], Encoded(opts[0]);
      var rest := Encode(opts[1..]) + padding;
      assert all == front + b + rest;
      assert all == (front + b) + Encode(opts[1..]) + padding;
      var s1 := if o.Ts? then Stamp(true, o.ts, o.tsAck) else s;
      ParseOne(front, o, rest, s);
      ParseEncode(front + b, opts[1..], padding, s1);
    }
  }

  /** An option that is cut off before its length, a timestamp that does not have ten bytes, or another option that claims
  less than two. */
  predicate Broken(bad: seq<byte>) {
    && bad != [] && bad[0] != 0 && bad[0] != 1
    && (|bad| == 1 || if bad[0] == 8 then bad[1] != 10 || |bad| < 10 else bad[1] as int <= 1)
  }

  /** Behind any options such a one is refused, and the last timestamp before it remains. */
  lemma {:induction false} BrokenRefused(front: seq<byte>, opts: seq<Option>, bad: seq<byte>, s: Stamp)
    requires AllOk(opts) && Broken(bad)
    ensures Parsed(front + Encode(opts) + bad, |front|, s) == (false, Last(opts, s))
    decreases |opts|
  {
    hide Octet, Word, ReadWord, OptionOk, Parsed, Encoded, Broken;
    var all := front + Encode(opts) + bad;
    if opts == [] {
      RefusedAt(all, |front|, bad, s);
    } else {
      var o, b := opts[0], Encoded(opts[0]);
      var rest := Encode(opts[1..]) + bad;
      assert all == front + b + rest;
      assert all == (front + b) + Encode(opts[1..]) + bad;
      ParseOne(front, o, rest, s);
      BrokenRefused(front + b, opts[1..], bad, if o.Ts? then Stamp(true, o.ts, o.tsAck) else s);
    }
  }

  lemma RefusedAt(all: seq<byte>, at: nat, bad: seq<byte>, s: Stamp)
    requires at <= |all| && all[at..] == bad && Broken(bad)
    ensures Parsed(all, at, s) == (false, s)
  {
    assert all[at] == bad[0] && (|bad| > 1 ==> all[at + 1] == bad[1]);
  }

  lemma Ends(all: seq<byte>, at: nat, s: Stamp)
    requires at >= |all| || all[at] == END
    ensures Parsed(all, at, s) == (true, s)
  {
  }

  lemma ParseOne(front: seq<byte>, o: Option, rest: seq<byte>, s: Stamp)
    requires OptionOk(o)
    ensures var b := Encoded(o); var s1 := if o.Ts? then Stamp(true, o.ts, o.tsAck) else s;
            Parsed(front + b + rest, |front|, s) == Parsed(front + b + rest, |front + b|, s1)
  {
    hide Octet, Word, ReadWord;
    var b, at := Encoded(o), |front|;
    var all := front + b + rest;
    assert all[at] == b[0];
    match o {
      case Nop =>
      case Ts(ts, tsAck) =>
        assert b[1] == all[at + 1] == 10;
        assert all[at + 2..at + 6] == Word(ts, true) && all[at + 6..at + 10] == Word(tsAck, true);
        ReadWordBack(ts);
        ReadWordBack(tsAck);
      case Other(kind, body) =>
        assert all[at + 1] == b[1];
        OctetValue(|body| + 2);
    }
  }

  // ----- what is sent -----

  /** The options of a SYN segment and of any other, as `send_raw_tcp` lays them out. */
  function Sent(syn: bool, ts: nat, tsAck: nat): seq<Option> {
    if syn then [Other(2, [0x05, 0xB4])] + ([Other(4, [])] + ([Ts(ts, tsAck)] + ([Nop] + [Other(3, [5])])))
    else [Nop] + ([Nop] + [Ts(ts, tsAck)])
  }

  function SentBytes(syn: bool, ts: nat, tsAck: nat): (b: seq<byte>)
    requires ts < U32 && tsAck < U32
    ensures |b| == if syn then 20 else 12
  {
    var stamp := [8, 10] + Word(ts, true) + Word(tsAck, true);
    if syn then [2, 4, 0x05, 0xB4] + [4, 2] + stamp + [1] + [3, 3, 5] else [1, 1] + stamp
  }

  /** The options are written behind the 20 bytes of the header; the length is what the data offset says. */
  method PutOptions(buf: array<byte>, syn: bool, ts: nat, tsAck: nat) returns (doff: nat)
    requires buf.Length >= 40 && ts < U32 && tsAck < U32
    modifies buf
    ensures doff == if syn then 10 else 8
    ensures buf[20..doff * 4] == SentBytes(syn, ts, tsAck)
    ensures buf[..20] == old(buf[..20]) && buf[doff * 4..] == old(buf[doff * 4..])
  {
    hide Word;
    var stamp := [8, 10] + Word(ts, true) + Word(tsAck, true);
    var front: seq<byte> := [1, 1];
    var back: seq<byte> := [];
    if syn {
      front, back := [2, 4, 0x05, 0xB4] + [4, 2], [1] + [3, 3, 5];
    }
    Put(buf, 20, front);
    Put(buf, 20 + |front|, stamp);
    Put(buf, 32 + |front| - 2, back);
    doff := if syn then 10 else 8;
  }

  lemma SmallOctets()
    ensures Octet(2) == 2 && Octet(3) == 3 && Octet(4) == 4
  {
    assert Octet(0) == 0 && Octet(1) == 1;
  }

  lemma SentIsEncoded(syn: bool, ts: nat, tsAck: nat)
    requires ts < U32 && tsAck < U32
    ensures AllOk(Sent(syn, ts, tsAck)) && SentBytes(syn, ts, tsAck) == Encode(Sent(syn, ts, tsAck))
  {
    hide Octet, Word, Encode, AllOk;
    SmallOctets();
    EncodeLast(Ts(ts, tsAck));
    if syn {
      EncodeLast(Other(3, [5]));
      EncodeFirst(Nop, [Other(3, [5])]);
      EncodeFirst(Ts(ts, tsAck), [Nop] + [Other(3, [5])]);
      EncodeFirst(Other(4, []), [Ts(ts, tsAck)] + ([Nop] + [Other(3, [5])]));
      EncodeFirst(Other(2, [0x05, 0xB4]), [Other(4, [])] + ([Ts(ts, tsAck)] + ([Nop] + [Other(3, [5])])));
    } else {
      EncodeFirst(Nop, [Ts(ts, tsAck)]);
      EncodeFirst(Nop, [Nop] + [Ts(ts, tsAck)]);
    }
  }

  lemma EncodeLast(o: Option)
    requires OptionOk(o)
    ensures AllOk([o]) && Encode([o]) == Encoded(o)
  {
    assert [o][1..] == [];
  }

  lemma EncodeFirst(o: Option, rest: seq<Option>)
    requires OptionOk(o) && AllOk(rest)
    ensures AllOk([o] + rest) && Encode([o] + rest) == Encoded(o) + Encode(rest)
  {
    assert ([o] + rest)[1..] == rest;
  }

  /** The receiver reads the timestamps that the sender wrote. */
  lemma StampArrives(syn: bool, ts: nat, tsAck: nat, s: Stamp)
    requires ts < U32 && tsAck < U32
    ensures Parsed(SentBytes(syn, ts, tsAck), 0, s) == (true, Stamp(true, ts, tsAck))
  {
    var o := Sent(syn, ts, tsAck);
    SentIsEncoded(syn, ts, tsAck);
    ParseEncode([], o, [], s);
    assert [] + Encode(o) + [] == SentBytes(syn, ts, tsAck);
    LastSent(syn, ts, tsAck, s);
  }

  lemma LastSent(syn: bool, ts: nat, tsAck: nat, s: Stamp)
    ensures Last(Sent(syn, ts, tsAck), s) == Stamp(true, ts, tsAck)
  {
    hide Last;
    var stamp := Stamp(true, ts, tsAck);
    var end := [Nop] + [Other(3, [5])];
    LastOne(Other(3, [5]), stamp);
    LastOne(Ts(ts, tsAck), s);
    if syn {
      LastFirst(Nop, [Other(3, [5])], stamp);
      LastFirst(Ts(ts, tsAck), end, s);
      LastFirst(Other(4, []), [Ts(ts, tsAck)] + end, s);
      LastFirst(Other(2, [0x05, 0xB4]), [Other(4, [])] + ([Ts(ts, tsAck)] + end), s);
    } else {
      LastFirst(Nop, [Ts(ts, tsAck)], s);
      LastFirst(Nop, [Nop] + [Ts(ts, tsAck)], s);
    }
  }

  lemma LastOne(o: Option, s: Stamp)
    ensures Last([o], s) == if o.Ts? then Stamp(true, o.ts, o.tsAck) else s
  {
    assert [o][1..] == [];
  }

  lemma LastFirst(o: Option, rest: seq<Option>, s: Stamp)
    ensures Last([o] + rest, s) == Last(rest, if o.Ts? then Stamp(true, o.ts, o.tsAck) else s)
  {
    assert ([o] + rest)[1..] == rest;
  }
}
