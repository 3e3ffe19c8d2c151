/** The bytes of a packet between `send_safer` / `send_bare` and the codec, and the whole way of a payload from
one end of a session to the other. */
module Wire {
  import opened Bytes
  import opened Packets
  import opened CodecSpec
  import opened Gro
  import AntiReplay
  import BlockModes

  const U64: nat := 0x1_0000_0000_0000_0000
  const HEADER: nat := 18
  const HEARTBEAT: byte := 0x68    // 'h'
  const DATA: byte := 0x64         // 'd'
  const BARE: byte := 0x62         // 'b'

  /** What a channel packet carries. */
  datatype Channel = Channel(from: nat, to: nat, seqNo: nat, kind: byte, roller: byte, payload: seq<byte>)

  predicate ChannelOk(c: Channel) {
    c.from < U32 && c.to < U32 && c.seqNo < U64 && (c.kind == HEARTBEAT || c.kind == DATA)
  }

  /** `hton64` */
  function Word64(n: nat): (w: seq<byte>)
    requires n < U64
    ensures |w| == 8
  {
    Word(n / U32, true) + Word(n % U32, true)
  }

  /** `ntoh64` */
  function ReadWord64(w: seq<byte>): (n: nat)
    requires |w| == 8
    ensures n < U64
  {
    ReadWord(w[..4]) * U32 + ReadWord(w[4..])
  }

  lemma ReadWord64Back(n: nat)
    requires n < U64
    ensures ReadWord64(Word64(n)) == n
  {
    hide Word, ReadWord;
    ReadWordBack(n / U32);
    ReadWordBack(n % U32);
    assert Word64(n)[..4] == Word(n / U32, true) && Word64(n)[4..] == Word(n % U32, true);
  }

  /** `send_safer`, up to the encryption. */
  function SaferBytes(c: Channel): (w: seq<byte>)
    requires ChannelOk(c)
    ensures |w| == HEADER + |c.payload|
  {
    Word(c.from, true) + Word(c.to, true) + Word64(c.seqNo) + [c.kind, c.roller] + c.payload
  }

  /** `send_handshake`, up to the encryption: random bytes, the mark, three ids. */
  function BareBytes(iv: seq<byte>, padding: seq<byte>, first: nat, second: nat, third: nat): (w: seq<byte>)
    requires |iv| == |padding| == 8 && first < U32 && second < U32 && third < U32
    ensures |w| == 29
  {
    iv + padding + [BARE] + (Word(first, true) + Word(second, true) + Word(third, true))
  }

  /** What `reserved_parse_safer` reads in its buffer after a plaintext of `len` bytes was put there; behind a
  short one the buffer still holds an older packet. */
  function ReadSafer(buf: seq<byte>, len: nat): Channel
    requires |buf| >= HEADER && len <= |buf|
  {
    Channel(ReadWord(buf[..4]), ReadWord(buf[4..8]), ReadWord64(buf[8..16]), buf[16], buf[17],
            if len >= HEADER then buf[HEADER..len] else [])
  }

  /** The ids `reserved_parse_bare` and `char_to_numbers` find. */
  function ReadBare(buf: seq<byte>, len: nat): Option<(nat, nat, nat)>
    requires len <= |buf| && |buf| >= HEADER
  {
    if buf[16] != BARE || len < 29 then None
    else Some((ReadWord(buf[17..21]), ReadWord(buf[21..25]), ReadWord(buf[25..29])))
  }

  /** Where the fields of a channel packet are: the ids, the number, an 'h' or 'd', the roller, the payload. */
  lemma SaferLayout(c: Channel)
    requires ChannelOk(c)
    ensures var w := SaferBytes(c);
            && |w| == 18 + |c.payload| && w[..4] == Word(c.from, true) && w[4..8] == Word(c.to, true)
            && w[8..12] == Word(c.seqNo / 0x1_0000_0000, true) && w[12..16] == Word(c.seqNo % 0x1_0000_0000, true)
            && w[16] == c.kind && (w[16] == 'h' as bv8 || w[16] == 'd' as bv8) && w[17] == c.roller && w[18..] == c.payload
  {
    hide Word;
    var w := SaferBytes(c);
    assert w[8..16] == Word64(c.seqNo);
    assert w[8..12] == w[8..16][..4] && w[12..16] == w[8..16][4..];
  }

  /** Of a handshake packet: a 'b' in place of the type, behind 16 random bytes, and the ids. */
  lemma BareLayout(iv: seq<byte>, padding: seq<byte>, first: nat, second: nat, third: nat)
    requires |iv| == |padding| == 8 && first < U32 && second < U32 && third < U32
    ensures var w := BareBytes(iv, padding, first, second, third);
            && |w| == 29 && w[..8] == iv && w[8..16] == padding && w[16] == 'b' as bv8
            && w[17..21] == Word(first, true) && w[21..25] == Word(second, true) && w[25..29] == Word(third, true)
  {
    hide Word;
  }

  lemma SaferRoundTrip(c: Channel)
    requires ChannelOk(c)
    ensures ReadSafer(SaferBytes(c), HEADER + |c.payload|) == c && ReadBare(SaferBytes(c), HEADER + |c.payload|) == None
  {
    hide Word, ReadWord, Word64, ReadWord64;
    var w := SaferBytes(c);
    assert w[..4] == Word(c.from, true) && w[4..8] == Word(c.to, true) && w[8..16] == Word64(c.seqNo);
    assert w[16] == c.kind && w[17] == c.roller && w[HEADER..] == c.payload;
    ReadWordBack(c.from);
    ReadWordBack(c.to);
    ReadWord64Back(c.seqNo);
  }

  lemma BareRoundTrip(iv: seq<byte>, padding: seq<byte>, first: nat, second: nat, third: nat)
    requires |iv| == |padding| == 8 && first < U32 && second < U32 && third < U32
    ensures var w := BareBytes(iv, padding, first, second, third);
            ReadBare(w, 29) == Some((first, second, third)) && ReadSafer(w, 29).kind == BARE
  {
    hide Word, ReadWord, ReadWord64;
    var w := BareBytes(iv, padding, first, second, third);
    assert w[17..21] == Word(first, true) && w[21..25] == Word(second, true) && w[25..29] == Word(third, true);
    ReadWordBack(first);
    ReadWordBack(second);
    ReadWordBack(third);
  }

  // ----- the packets of the protocol model -----

  /** What a payload means. */
  function MessageOf(c: Channel): Message {
    if c.kind == HEARTBEAT then Heartbeat
    else if |c.payload| < 4 then Other
    else Data(ReadWord(c.payload[..4]))
  }

  function AsPacket(c: Channel): Packet {
    Safer(c.from, c.to, c.seqNo, MessageOf(c), Value(c.roller))
  }

  /** A heartbeat whatever it carries; data of the conversation whose number its first four bytes are; shorter data is neither. */
  lemma MessageMeans(c: Channel)
    requires ChannelOk(c)
    ensures c.kind == 'h' as bv8 ==> MessageOf(c) == Heartbeat
    ensures c.kind == 'd' as bv8 && |c.payload| < 4 ==> MessageOf(c) == Other
    ensures c.kind == 'd' as bv8 && |c.payload| >= 4 ==>
              MessageOf(c) == Data(0x100_0000 * (c.payload[0] as int) + 0x1_0000 * (c.payload[1] as int)
                                   + 0x100 * (c.payload[2] as int) + (c.payload[3] as int))
  {
  }

  /** `reserved_parse_safer` on a plaintext: the window, and what is delivered. */
  function Parse(f: AntiReplay.Filter, myId: nat, oppositeId: nat, buf: seq<byte>, len: nat): (AntiReplay.Filter, seq<Channel>)
    requires |buf| >= HEADER && len <= |buf|
  {
    var c := ReadSafer(buf, len);
    if c.from != oppositeId || c.to != myId || !AntiReplay.Accepts(f, c.seqNo) then (f, [])
    else (AntiReplay.Spend(f, c.seqNo), if (c.kind == HEARTBEAT || c.kind == DATA) && len >= HEADER then [c] else [])
  }

  /** On the bytes of a channel packet the code does what the protocol model says of the packet. */
  lemma ParseIsModelled(f: AntiReplay.Filter, myId: nat, oppositeId: nat, c: Channel)
    requires ChannelOk(c)
    ensures var w := SaferBytes(c); var p := AsPacket(c);
            Parse(f, myId, oppositeId, w, |w|) ==
            (FilterAfter(f, myId, oppositeId, p), if Delivers(f, myId, oppositeId, p) then [c] else [])
  {
    hide SaferBytes, ReadSafer;
    SaferRoundTrip(c);
  }

  /** A handshake packet read as a channel packet is never delivered, but can move the window by its random bytes. */
  lemma BareIsModelled(f: AntiReplay.Filter, myId: nat, oppositeId: nat, iv: seq<byte>, padding: seq<byte>, first: nat, second: nat, third: nat)
    requires |iv| == |padding| == 8 && first < U32 && second < U32 && third < U32
    ensures var w := BareBytes(iv, padding, first, second, third);
            var p := Bare(first, second, third, Junk(ReadWord(iv[..4]), ReadWord(iv[4..]), ReadWord64(padding)));
            Parse(f, myId, oppositeId, w, 29) == (FilterAfter(f, myId, oppositeId, p), [])
            && !Delivers(f, myId, oppositeId, p)
  {
    hide Word, ReadWord, ReadWord64;
    var w := BareBytes(iv, padding, first, second, third);
    assert w[..4] == iv[..4] && w[4..8] == iv[4..] && w[8..16] == padding && w[16] == BARE;
  }

  /** `reserved_parse_safer` after the decryption, with anti-replay enabled. */
  method ParseSafer(buf: array<byte>, len: nat, window: AntiReplay.Window, myId: nat, oppositeId: nat) returns (out: seq<Channel>)
    requires HEADER <= buf.Length && len <= buf.Length && window.Valid() && window.window as object != buf
    modifies window`maxPacketReceived, window`filter, window.window
    ensures window.Valid() && (window.filter, out) == Parse(old(window.filter), myId, oppositeId, buf[..], len)
  {
    hide ReadWord, ReadWord64, AntiReplay.Accepts, AntiReplay.Spend;
    out := [];
    var from, to, seqNo := ReadWord(buf[..4]), ReadWord(buf[4..8]), ReadWord64(buf[8..16]);
    assert buf[..][..4] == buf[..4] && buf[..][4..8] == buf[4..8] && buf[..][8..16] == buf[8..16];
    if from != oppositeId || to != myId {
      return;
    }
    SpendRefused(window.filter, seqNo);
    var fresh_ := window.IsValid(seqNo, false);
    if !fresh_ {
      return;
    }
    var kind := buf[16];
    if kind != HEARTBEAT && kind != DATA {
      return;
    }
    var roller := buf[17];
    if len < HEADER {
      return;
    }
    assert buf[..][HEADER..len] == buf[HEADER..len];
    out := [Channel(from, to, seqNo, kind, roller, buf[HEADER..len])];
  }

  lemma SpendRefused(f: AntiReplay.Filter, s: nat)
    ensures !AntiReplay.Accepts(f, s) ==> AntiReplay.Spend(f, s) == f
  {
  }

  // ----- the whole way -----

  /** The plaintexts of one buffer, one after another. */
  function ParseAll(f: AntiReplay.Filter, myId: nat, oppositeId: nat, plains: seq<seq<byte>>): (AntiReplay.Filter, seq<Channel>)
    requires forall w <- plains :: |w| >= HEADER
  {
    if plains == [] then (f, [])
    else
      var n := |plains| - 1;
      var (g, out) := ParseAll(f, myId, oppositeId, plains[..n]);
      var (h, more) := Parse(g, myId, oppositeId, plains[n], |plains[n]|);
      (h, out + more)
  }

  ghost predicate AllOk(cs: seq<Channel>) {
    forall i :: 0 <= i < |cs| ==> ChannelOk(cs[i])
  }

  ghost function AllBytes(cs: seq<Channel>): (ws: seq<seq<byte>>)
    requires AllOk(cs)
    ensures |ws| == |cs| && forall i :: 0 <= i < |cs| ==> ws[i] == SaferBytes(cs[i])
    ensures forall w <- ws :: |w| >= HEADER
  {
    seq(|cs|, i requires 0 <= i < |cs| => SaferBytes(cs[i]))
  }

  /** New to the window, all different, and none too far behind another or behind what was accepted before. */
  ghost predicate FreshNumbers(f: AntiReplay.Filter, cs: seq<Channel>) {
    && (forall i :: 0 <= i < |cs| ==>
          cs[i].seqNo !in f.spent && cs[i].seqNo != f.highest && f.highest < cs[i].seqNo + AntiReplay.WINDOW_SIZE)
    && (forall i, j :: 0 <= i < j < |cs| ==> cs[i].seqNo != cs[j].seqNo)
    && (forall i, j :: 0 <= i < |cs| && 0 <= j < |cs| ==> cs[j].seqNo < cs[i].seqNo + AntiReplay.WINDOW_SIZE)
  }

  ghost predicate ForSession(cs: seq<Channel>, myId: nat, oppositeId: nat) {
    forall i :: 0 <= i < |cs| ==> cs[i].from == oppositeId && cs[i].to == myId
  }

  ghost function Numbers(cs: seq<Channel>): set<nat> {
    set i | 0 <= i < |cs| :: cs[i].seqNo
  }

  /** The filter after the numbers of `cs` were accepted. */
  ghost predicate Tracks(f: AntiReplay.Filter, g: AntiReplay.Filter, cs: seq<Channel>) {
    g.spent == f.spent + Numbers(cs) && (g.highest == f.highest || g.highest in Numbers(cs))
  }

  lemma NextIsAccepted(f: AntiReplay.Filter, g: AntiReplay.Filter, cs: seq<Channel>)
    requires cs != [] && FreshNumbers(f, cs) && Tracks(f, g, cs[..|cs| - 1])
    ensures var c := cs[|cs| - 1]; AntiReplay.Accepts(g, c.seqNo) && Tracks(f, AntiReplay.Spend(g, c.seqNo), cs)
  {
    var n := |cs| - 1;
    assert Numbers(cs) == Numbers(cs[..n]) + {cs[n].seqNo} by {
      assert forall i :: 0 <= i < n ==> cs[..n][i] == cs[i];
    }
  }

  lemma FewerNumbers(f: AntiReplay.Filter, cs: seq<Channel>)
    requires cs != [] && FreshNumbers(f, cs)
    ensures FreshNumbers(f, cs[..|cs| - 1])
  {
  }

  /** Fresh packets of the session are delivered whatever their order. */
  lemma {:induction false} FreshArrive(f: AntiReplay.Filter, myId: nat, oppositeId: nat, cs: seq<Channel>)
    requires AllOk(cs) && ForSession(cs, myId, oppositeId) && FreshNumbers(f, cs)
    ensures var (g, out) := ParseAll(f, myId, oppositeId, AllBytes(cs)); out == cs && Tracks(f, g, cs)
  {
    hide ChannelOk, FreshNumbers, Tracks, AntiReplay.Accepts, AntiReplay.Spend, ParseAll, AllBytes;
    if cs == [] {
      TracksNone(f, myId, oppositeId);
    } else {
      FewerNumbers(f, cs);
      var front := cs[..|cs| - 1];
      FreshArrive(f, myId, oppositeId, front);
      var g := ParseAll(f, myId, oppositeId, AllBytes(front)).0;
      NextIsAccepted(f, g, cs);
      ParseLast(f, g, myId, oppositeId, cs);
    }
  }

  lemma ParseLast(f: AntiReplay.Filter, g: AntiReplay.Filter, myId: nat, oppositeId: nat, cs: seq<Channel>)
    requires cs != [] && AllOk(cs) && ForSession(cs, myId, oppositeId)
    requires AllOk(cs[..|cs| - 1]) && ParseAll(f, myId, oppositeId, AllBytes(cs[..|cs| - 1])) == (g, cs[..|cs| - 1])
    requires AntiReplay.Accepts(g, cs[|cs| - 1].seqNo)
    ensures ParseAll(f, myId, oppositeId, AllBytes(cs)) == (AntiReplay.Spend(g, cs[|cs| - 1].seqNo), cs)
  {
    hide ChannelOk, SaferBytes, Parse, ParseAll, AntiReplay.Accepts, AntiReplay.Spend;
    var n := |cs| - 1;
    assert AllBytes(cs)[..n] == AllBytes(cs[..n]);
    ParseAllNext(f, myId, oppositeId, AllBytes(cs));
    ParseFresh(g, cs[n]);
    assert cs == cs[..n] + [cs[n]];
  }

  function AsPackets(cs: seq<Channel>): (ps: seq<Packet>)
    ensures |ps| == |cs|
  {
    seq(|cs|, i requires 0 <= i < |cs| => AsPacket(cs[i]))
  }

  /** Any packets, fresh or not and of any session: on their bytes the code does what the protocol model says of a batch. */
  lemma {:induction false} BatchIsModelled(f: AntiReplay.Filter, myId: nat, oppositeId: nat, cs: seq<Channel>)
    requires AllOk(cs)
    ensures var (g, out) := ParseAll(f, myId, oppositeId, AllBytes(cs));
            Parsed(f, myId, oppositeId, AsPackets(cs)) == (g, AsPackets(out))
  {
    hide ChannelOk, SaferBytes, Parse, ParseAll, AntiReplay.Accepts, AntiReplay.Spend, Parsed, FilterAfter, Delivers,
         AsPacket, AsPackets, AllBytes;
    if cs == [] {
      NothingParsed(f, myId, oppositeId);
    } else {
      var n := |cs| - 1;
      var (g, out) := ParseAll(f, myId, oppositeId, AllBytes(cs[..n]));
      FrontOf(cs);
      BatchIsModelled(f, myId, oppositeId, cs[..n]);
      ParseAllNext(f, myId, oppositeId, AllBytes(cs));
      ParseIsModelled(g, myId, oppositeId, cs[n]);
      ParsedNext(f, myId, oppositeId, AsPackets(cs));
      PacketsMore(out, cs[n]);
    }
  }

  lemma FrontOf(cs: seq<Channel>)
    requires AllOk(cs) && cs != []
    ensures AllOk(cs[..|cs| - 1]) && AllBytes(cs)[..|cs| - 1] == AllBytes(cs[..|cs| - 1])
    ensures AsPackets(cs)[..|cs| - 1] == AsPackets(cs[..|cs| - 1]) && AsPackets(cs)[|cs| - 1] == AsPacket(cs[|cs| - 1])
  {
    hide AsPacket, SaferBytes, ChannelOk;
  }

  lemma PacketsMore(out: seq<Channel>, c: Channel)
    ensures AsPackets(out + [c]) == AsPackets(out) + [AsPacket(c)] && out + [] == out
  {
    hide AsPacket;
  }

  lemma NothingParsed(f: AntiReplay.Filter, myId: nat, oppositeId: nat)
    ensures ParseAll(f, myId, oppositeId, AllBytes([])) == (f, []) && Parsed(f, myId, oppositeId, AsPackets([])) == (f, AsPackets([]))
  {
  }

  lemma ParsedNext(f: AntiReplay.Filter, myId: nat, oppositeId: nat, batch: seq<Packet>)
    requires batch != []
    ensures var n := |batch| - 1; var (g, out) := Parsed(f, myId, oppositeId, batch[..n]);
            Parsed(f, myId, oppositeId, batch) ==
            (FilterAfter(g, myId, oppositeId, batch[n]), if Delivers(g, myId, oppositeId, batch[n]) then out + [batch[n]] else out)
  {
  }

  lemma ParseAllNext(f: AntiReplay.Filter, myId: nat, oppositeId: nat, plains: seq<seq<byte>>)
    requires plains != [] && forall w <- plains :: |w| >= HEADER
    ensures var n := |plains| - 1; var (g, out) := ParseAll(f, myId, oppositeId, plains[..n]);
            var (h, more) := Parse(g, myId, oppositeId, plains[n], |plains[n]|);
            ParseAll(f, myId, oppositeId, plains) == (h, out + more)
  {
  }

  lemma ParseFresh(g: AntiReplay.Filter, c: Channel)
    requires ChannelOk(c) && AntiReplay.Accepts(g, c.seqNo)
    ensures var w := SaferBytes(c); Parse(g, c.to, c.from, w, |w|) == (AntiReplay.Spend(g, c.seqNo), [c])
  {
    hide SaferBytes, ReadSafer;
    SaferRoundTrip(c);
  }

  lemma TracksNone(f: AntiReplay.Filter, myId: nat, oppositeId: nat)
    ensures Tracks(f, f, []) && ParseAll(f, myId, oppositeId, AllBytes([])) == (f, [])
  {
    assert Numbers([]) == {};
  }

  /** The packets fit the receiver's limit once they are encoded. */
  ghost predicate Fit(s: Setup, cs: seq<Channel>, junks: seq<seq<byte>>) {
    && |junks| == |cs| && (forall i :: 0 <= i < |cs| ==> |junks[i]| >= BlockModes.BLOCK)
    && forall i :: 0 <= i < |cs| ==> EncodedLength(s, HEADER + |cs[i].payload|) <= MAX_DATA_LEN
  }

  lemma EncodingGrows(s: Setup, n: nat)
    ensures CipherInput(s, n) >= n && EncodedLength(s, n) >= n
  {
  }

  /** A channel packet is long enough for every cipher and for its frame. */
  lemma FitIsSendable(s: Setup, cs: seq<Channel>, junks: seq<seq<byte>>)
    requires AllOk(cs) && Fit(s, cs, junks)
    ensures Sendable(s, AllBytes(cs), junks)
  {
    hide EncodedLength, CipherInput, SaferBytes, ChannelOk;
    forall i | 0 <= i < |cs| ensures
      var n := HEADER + |cs[i].payload|; CipherInput(s, n) >= n && n <= EncodedLength(s, n) <= MAX_DATA_LEN {
      EncodingGrows(s, HEADER + |cs[i].payload|);
    }
  }

  /** From one end of a session to the other: packets that `send_safer` numbers, encodes and frames arrive through
  `recv_safer_multi` complete and in order, in one raw packet the network glued together, for every cipher and
  authentication and whatever the buffers held before. */
  lemma PayloadsArrive(s: Setup, k: Keys, xor: seq<byte>, f: AntiReplay.Filter, myId: nat, oppositeId: nat,
                       cs: seq<Channel>, junks: seq<seq<byte>>)
    requires SetupOk(s) && KeysOk(k) && |xor| >= 2 && AllOk(cs) && Fit(s, cs, junks)
    requires ForSession(cs, myId, oppositeId) && FreshNumbers(f, cs)
    ensures Sendable(s, AllBytes(cs), junks)
    ensures var raw := Glued(s, k, xor, EncodeAll(s, k, AllBytes(cs), junks));
            var plains := DecodeAll(s, Mirror(k), Split(s, Mirror(k), xor, raw));
            (forall w <- plains :: |w| >= HEADER) && ParseAll(f, myId, oppositeId, plains).1 == cs
  {
    hide SetupOk, KeysOk, Sendable, Glued, EncodeAll, DecodeAll, Split, FreshNumbers, ForSession, AllOk, ParseAll, Tracks, Fit;
    FitIsSendable(s, cs, junks);
    GluedPacketsArrive(s, k, xor, AllBytes(cs), junks);
    FreshArrive(f, myId, oppositeId, cs);
  }
}
