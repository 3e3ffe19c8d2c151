/** Sequence numbers of the fake TCP stream: `after_send_raw0` and `after_recv_raw0` of network.cpp. */
module FakeTcp {
  import opened Bytes

  const U16: nat := 0x1_0000
  const MAX_DATA_LEN: nat := 1800
  const WINDOW_LOWER_BOUND: nat := 40960

  // ----- serial numbers -----

  /** A value of an unsigned type with `n` values, reread as the signed type of that width. */
  function Signed(x: nat, n: nat): int
    requires x < n
  {
    if x < n / 2 then x else x - n
  }

  /** `larger_than_u32` and `larger_than_u16` */
  predicate LargerThan(a: nat, b: nat, n: nat)
    requires n > 0
  {
    Signed((a - b) % n, n) > 0
  }

  function Wrapped(x: nat): (w: nat)
    ensures w < U32
  {
    x % U32
  }

  /** How far `a` is ahead of `b`. */
  function Ahead(a: nat, b: nat): (d: nat)
    ensures d < U32
  {
    (a - b) % U32
  }

  /** The wrapped comparison agrees with the true positions of a stream while these are less than half the space
  apart. */
  lemma LargerIsLarger(x: nat, y: nat, n: nat)
    requires n > 0 && n % 2 == 0 && -(n / 2) <= x - y < n / 2
    ensures LargerThan(x % n, y % n, n) <==> x > y
  {
    ModuloOfDifference(x, y, n);
    SmallModulo(x - y, n);
  }

  lemma ModuloOfDifference(x: int, y: int, n: int)
    requires n > 0
    ensures (x % n - y % n) % n == (x - y) % n
  {
    var k := x / n - y / n;
    assert x - y == (x % n - y % n) + n * k;
    AddMultiple(x % n - y % n, k, n);
  }

  lemma AddMultiple(x: int, k: int, n: int)
    requires n > 0
    ensures (x + n * k) % n == x % n
  {
    assert x + n * k == n * (x / n + k) + x % n;
    UniqueModulo(x + n * k, x / n + k, x % n, n);
  }

  lemma UniqueModulo(x: int, q: int, r: int, n: int)
    requires n > 0 && x == n * q + r && 0 <= r < n
    ensures x % n == r
  {
    var d := x / n - q;
    assert n * d == r - x % n;
    assert d >= 1 ==> n * d >= n;
    assert d <= -1 ==> n * d <= n * -1;
  }

  lemma SmallModulo(d: int, n: int)
    requires n > 0 && -n <= d < n
    ensures d % n == if d < 0 then d + n else d
  {
    if d < 0 {
      UniqueModulo(d, -1, d + n, n);
    } else {
      UniqueModulo(d, 0, d, n);
    }
  }

  // ----- one endpoint -----

  datatype SeqMode = Fixed | Always | Sometimes | WindowScaled | WindowPlain     // seq_mode 0 to 4

  function Window(mode: SeqMode): (w: nat)
    requires mode.WindowScaled? || mode.WindowPlain?
    ensures w == if mode.WindowScaled? then 1310720 else 40960
  {
    if mode.WindowScaled? then Wrapped(WINDOW_LOWER_BOUND * 32) else WINDOW_LOWER_BOUND     // shifted by the window scale, 5
  }

  predicate InWindowMode(mode: SeqMode) {
    mode.WindowScaled? || mode.WindowPlain?
  }

  /** What a segment carries. */
  datatype Segment = Segment(syn: bool, ack: bool, start: nat, dataLen: nat)

  predicate IsData(g: Segment) {
    !g.syn && g.ack && g.dataLen != 0
  }

  /** `raw_info_t`: the sequence fields of what is sent and of what was last received. */
  class RawInfo {
    const mode: SeqMode
    var sendSeq: nat         // send_info.seq
    var sendAck: nat         // send_info.ack_seq
    var peerAck: nat         // recv_info.ack_seq
    var peerAckCount: nat    // recv_info.ack_seq_counter

    ghost predicate Valid()
      reads this
    {
      sendSeq < U32 && sendAck < U32 && peerAck < U32
    }

    /** What decides the numbers of the segments to come. */
    ghost function Side(): Sender
      reads this
    {
      Sender(sendSeq, peerAck, peerAckCount)
    }

    constructor (mode: SeqMode, sendSeq: nat, sendAck: nat)
      requires sendSeq < U32 && sendAck < U32
      ensures Valid() && this.mode == mode && this.sendSeq == sendSeq && this.sendAck == sendAck && peerAck == 0 && peerAckCount == 0
    {
      this.mode, this.sendSeq, this.sendAck, peerAck, peerAckCount := mode, sendSeq, sendAck, 0, 0;
    }

    /** `after_send_raw0` for a segment that was sent with our sequence number. */
    method AfterSend(syn: bool, ack: bool, dataLen: nat, random: nat)
      requires Valid()
      modifies this`sendSeq, this`peerAckCount
      ensures Valid()
      ensures syn || !ack || dataLen == 0 || mode.Fixed? || (mode.Sometimes? && random % 5 != 3) ==> sendSeq == old(sendSeq)
      ensures !syn && ack && dataLen != 0 && (mode.Always? || (mode.Sometimes? && random % 5 == 3)) ==>
                sendSeq == (old(sendSeq) + dataLen) % 0x1_0000_0000
      ensures !syn && ack && dataLen != 0 && InWindowMode(mode) ==>
                var x := (old(sendSeq) + dataLen) % 0x1_0000_0000;
                sendSeq == if old(peerAckCount) < 3 && (x - peerAck) % 0x1_0000_0000 + 1800 <= Window(mode) then x else peerAck
      ensures Side() == if !syn && ack then AfterEvent(mode, old(Side()), Sends(dataLen, random)) else old(Side())
      ensures peerAckCount == if InWindowMode(mode) && !syn && ack && dataLen != 0 && old(peerAckCount) >= 3 then 0 else old(peerAckCount)
    {
      if !syn && ack && dataLen != 0 {
        match mode {
          case Fixed =>
          case Always => sendSeq := Wrapped(sendSeq + dataLen);
          case Sometimes =>
            if random % 5 == 3 {
              sendSeq := Wrapped(sendSeq + dataLen);
            }
          case _ =>
            sendSeq := Wrapped(sendSeq + dataLen);
            ghost var x := sendSeq;
            var window := Window(mode);
            if LargerThan(Wrapped(sendSeq + MAX_DATA_LEN), Wrapped(peerAck + window), U32) {
              sendSeq := peerAck;
            }
            if peerAckCount >= 3 {       // a fast retransmission
              peerAckCount := 0;
              sendSeq := peerAck;
            }
            if LargerThan(peerAck, sendSeq, U32) {
              sendSeq := peerAck;
            }
            ThreeTests(x, peerAck, window);
            NotLarger(peerAck);
            assert Ahead(x, peerAck) == (x - peerAck) % U32;
        }
      }
    }

    /** The acknowledgement fields as `recv_raw_tcp` keeps them. */
    method OnAckField(ackField: nat)
      requires Valid() && ackField < U32
      modifies this`peerAck, this`peerAckCount
      ensures Valid() && peerAck == ackField && Side() == AfterEvent(mode, old(Side()), Hears(ackField))
      ensures peerAckCount == if ackField == old(peerAck) then old(peerAckCount) + 1 else 0
    {
      var last := peerAck;
      peerAck := ackField;
      if peerAck == last {
        peerAckCount := peerAckCount + 1;
      } else {
        peerAckCount := 0;
      }
    }

    /** `after_recv_raw0` */
    method AfterRecv(g: Segment)
      requires Valid() && g.start < U32
      modifies this`sendAck
      ensures Valid() && (g.syn || !g.ack || g.dataLen == 0 ==> sendAck == old(sendAck))
      ensures !g.syn && g.ack && g.dataLen != 0 ==>
                var end := (g.start + g.dataLen) % 0x1_0000_0000;
                && (InWindowMode(mode) ==> sendAck == if g.start == old(sendAck) then end else old(sendAck))
                && (!InWindowMode(mode) ==>
                      sendAck == if 0 < (end - old(sendAck)) % 0x1_0000_0000 < 0x8000_0000 then end else old(sendAck))
      ensures sendAck == NextAck(mode, old(sendAck), g)
    {
      if !g.syn && g.ack && g.dataLen != 0 {
        match mode {
          case WindowScaled | WindowPlain =>
            if g.start == sendAck {
              sendAck := Wrapped(g.start + g.dataLen);
            }
          case _ =>
            if LargerThan(Wrapped(g.start + g.dataLen), sendAck, U32) {
              sendAck := Wrapped(g.start + g.dataLen);
            }
        }
      }
    }
  }

  /** The simple rule: in the window modes the next number stays in front of the peer's acknowledgement and leaves
  room for one more packet in the window, or falls back to the acknowledgement. */
  function NextSeq(mode: SeqMode, data: bool, sendSeq: nat, dataLen: nat, peerAck: nat, count: nat, random: nat): nat {
    var x := Wrapped(sendSeq + dataLen);
    if !data || mode.Fixed? || (mode.Sometimes? && random % 5 != 3) then sendSeq
    else if !InWindowMode(mode) then x
    else if count < 3 && Ahead(x, peerAck) <= Window(mode) - MAX_DATA_LEN then x
    else peerAck
  }

  /** The three comparisons amount to one. */
  lemma ThreeTests(x: nat, ack: nat, window: nat)
    requires x < U32 && ack < U32 && MAX_DATA_LEN < window < U32 / 2
    ensures LargerThan(Wrapped(x + MAX_DATA_LEN), Wrapped(ack + window), U32) || LargerThan(ack, x, U32) <==> Ahead(x, ack) > window - MAX_DATA_LEN
  {
    hide Ahead;
    var y := x - ack + MAX_DATA_LEN - window;
    ModuloOfDifference(x + MAX_DATA_LEN, ack + window, U32);
    AheadIs(x, ack);
    var d := if x < ack then x - ack + U32 else x - ack;
    SmallModulo(d + MAX_DATA_LEN - window, U32);
    if x < ack {
      AddMultiple(y, 1, U32);
    }
    assert y % U32 == (d + MAX_DATA_LEN - window) % U32;
  }

  lemma AheadIs(x: nat, ack: nat)
    requires x < U32 && ack < U32
    ensures Ahead(x, ack) == if x < ack then x - ack + U32 else x - ack
    ensures (ack - x) % U32 == if ack < x then ack - x + U32 else ack - x
  {
    SmallModulo(x - ack, U32);
    SmallModulo(ack - x, U32);
  }

  lemma NotLarger(a: nat)
    ensures !LargerThan(a, a, U32)
  {
  }

  /** After a data segment in a window mode, from any state: the next data packet, of at most 1800 bytes, ends within
  the window that starts at the peer's acknowledgement. */
  lemma NextPacketFits(mode: SeqMode, sendSeq: nat, dataLen: nat, peerAck: nat, count: nat, random: nat, more: nat)
    requires InWindowMode(mode) && peerAck < U32 && more <= MAX_DATA_LEN
    ensures var s := NextSeq(mode, true, sendSeq, dataLen, peerAck, count, random);
            && Ahead(s, peerAck) <= Window(mode) - MAX_DATA_LEN
            && Ahead(Wrapped(s + more), peerAck) == Ahead(s, peerAck) + more <= Window(mode)
  {
    var s := NextSeq(mode, true, sendSeq, dataLen, peerAck, count, random);
    var d := Ahead(s, peerAck);
    assert Ahead(peerAck, peerAck) == 0;
    assert s + more == peerAck + d + more + U32 * ((s - peerAck) / U32);
    ModuloOfDifference(s + more, peerAck, U32);
    AheadPlus(s - peerAck, more);
    assert peerAck % U32 == peerAck;
  }

  lemma AheadPlus(x: int, more: nat)
    requires x % U32 + more < U32
    ensures (x + more) % U32 == x % U32 + more
  {
  }

  /** The acknowledgement after one more segment. */
  function NextAck(mode: SeqMode, ack: nat, g: Segment): nat {
    if !IsData(g) then ack
    else if InWindowMode(mode) then (if g.start == ack then Wrapped(g.start + g.dataLen) else ack)
    else if LargerThan(Wrapped(g.start + g.dataLen), ack, U32) then Wrapped(g.start + g.dataLen) else ack
  }

  // ----- runs -----

  /** The acknowledgement after a run of received segments, oldest first. */
  function AckAfter(mode: SeqMode, ack: nat, run: seq<Segment>): nat {
    if run == [] then ack
    else NextAck(mode, AckAfter(mode, ack, run[..|run| - 1]), run[|run| - 1])
  }

  /** Positions in the run, in order of arrival, of data segments that join end to start, from `start` to `end`. */
  ghost predicate Chain(run: seq<Segment>, at: seq<nat>, start: nat, end: nat) {
    && (forall i :: 0 <= i < |at| ==> at[i] < |run| && IsData(run[at[i]]))
    && (forall i, j :: 0 <= i < j < |at| ==> at[i] < at[j])
    && (if at == [] then start == end
       else && run[at[0]].start == start && end == Wrapped(run[at[|at| - 1]].start + run[at[|at| - 1]].dataLen)
            && forall i :: 0 < i < |at| ==> run[at[i]].start == Wrapped(run[at[i - 1]].start + run[at[i - 1]].dataLen))
  }

  /** How many bytes the chained segments hold. */
  ghost function Length(run: seq<Segment>, at: seq<nat>): nat
    requires forall i :: 0 <= i < |at| ==> at[i] < |run|
  {
    if at == [] then 0 else Length(run, at[..|at| - 1]) + run[at[|at| - 1]].dataLen
  }

  lemma {:induction false} LengthOfPrefix(run: seq<Segment>, at: seq<nat>, g: Segment)
    requires forall i :: 0 <= i < |at| ==> at[i] < |run|
    ensures Length(run + [g], at) == Length(run, at)
  {
    if at != [] {
      LengthOfPrefix(run, at[..|at| - 1], g);
    }
  }

  lemma ChainGrows(run: seq<Segment>, at: seq<nat>, start: nat, end: nat, g: Segment)
    requires Chain(run, at, start, end)
    ensures Chain(run + [g], at, start, end)
    ensures IsData(g) && g.start == end ==> Chain(run + [g], at + [|run|], start, Wrapped(g.start + g.dataLen))
  {
    hide Wrapped, IsData;
    var r := run + [g];
    assert forall i :: 0 <= i < |at| ==> r[at[i]] == run[at[i]];
  }

  lemma LengthGrows(run: seq<Segment>, at: seq<nat>, g: Segment)
    requires forall i :: 0 <= i < |at| ==> at[i] < |run|
    ensures Length(run + [g], at) == Length(run, at)
    ensures Length(run + [g], at + [|run|]) == Length(run, at) + g.dataLen
  {
    LengthOfPrefix(run, at, g);
    assert (at + [|run|])[..|at|] == at;
  }

  lemma AckOfPrefix(mode: SeqMode, ack: nat, run: seq<Segment>, g: Segment)
    ensures AckAfter(mode, ack, run + [g]) == NextAck(mode, AckAfter(mode, ack, run), g)
  {
    assert (run + [g])[..|run|] == run;
  }

  /** In the window modes, over any run of received segments, the acknowledgement is the end of a gap-free chain of
  data segments that did arrive, in the order of their arrival, and it counts their bytes. */
  lemma {:induction false} AckEndsChain(mode: SeqMode, ack: nat, run: seq<Segment>) returns (at: seq<nat>)
    requires InWindowMode(mode) && ack < U32
    ensures Chain(run, at, ack, AckAfter(mode, ack, run))
    ensures Wrapped(ack + Length(run, at)) == AckAfter(mode, ack, run)
  {
    hide Length, Wrapped;
    if run == [] {
      at := [];
      EmptyChain(ack);
    } else {
      var n := |run| - 1;
      var front, g := run[..n], run[n];
      at := AckEndsChain(mode, ack, front);
      assert run == front + [g];
      ChainGrows(front, at, ack, AckAfter(mode, ack, front), g);
      LengthGrows(front, at, g);
      if IsData(g) && g.start == AckAfter(mode, ack, front) {
        WrapTwice(ack + Length(front, at), g.dataLen);
        at := at + [n];
      }
    }
  }

  lemma EmptyChain(ack: nat)
    requires ack < U32
    ensures Length([], []) == 0 && Wrapped(ack) == ack
  {
  }

  lemma WrapTwice(x: nat, y: nat)
    ensures Wrapped(Wrapped(x) + y) == Wrapped(x + y)
  {
    AddMultiple(x % U32 + y, x / U32, U32);
    assert x + y == x % U32 + y + U32 * (x / U32);
  }

  lemma WrappedIs(x: nat)
    ensures Wrapped(x) == x % 0x1_0000_0000
  {
  }

  /** In the other modes the acknowledgement only ever moves forward. */
  lemma AckMovesForward(mode: SeqMode, ack: nat, g: Segment)
    requires ack < U32
    ensures !InWindowMode(mode) ==> Ahead(NextAck(mode, ack, g), ack) < U32 / 2
  {
  }

  function Volume(lens: seq<nat>): nat {
    if lens == [] then 0 else Volume(lens[..|lens| - 1]) + lens[|lens| - 1]
  }

  /** A stream cut into segments of the given lengths. */
  function Cut(ack: nat, lens: seq<nat>): seq<Segment> {
    if lens == [] then []
    else var front := lens[..|lens| - 1]; Cut(ack, front) + [Segment(false, true, Wrapped(ack + Volume(front)), lens[|lens| - 1])]
  }

  lemma InOrderStep(mode: SeqMode, ack: nat, v: nat, len: nat)
    requires InWindowMode(mode) || len < U32 / 2
    ensures NextAck(mode, Wrapped(ack + v), Segment(false, true, Wrapped(ack + v), len)) == Wrapped(ack + v + len)
  {
    hide Wrapped, LargerThan;
    WrapTwice(ack + v, len);
    if !InWindowMode(mode) {
      EndIsAhead(Wrapped(ack + v), len);
    }
  }

  lemma {:induction false} CutAhead(ack: nat, lens: seq<nat>)
    requires lens != []
    ensures var front, len := lens[..|lens| - 1], lens[|lens| - 1];
            && Cut(ack, lens) == Cut(ack, front) + [Segment(false, true, Wrapped(ack + Volume(front)), len)]
            && Volume(lens) == Volume(front) + len && len in lens
            && forall l <- front :: l in lens
  {
    hide Wrapped;
  }

  /** A stream that arrives in order is acknowledged in full in every mode, wherever the numbers wrap; outside the
  window modes segments must be shorter than half the number space. */
  lemma {:induction false} InOrderIsAcknowledged(mode: SeqMode, ack: nat, lens: seq<nat>)
    requires ack < U32 && (InWindowMode(mode) || forall l <- lens :: l < U32 / 2)
    ensures AckAfter(mode, ack, Cut(ack, lens)) == (ack + Volume(lens)) % 0x1_0000_0000
  {
    hide *;
    if lens == [] {
      CutNothing(mode, ack);
    } else {
      var front, len := lens[..|lens| - 1], lens[|lens| - 1];
      CutAhead(ack, lens);
      InOrderIsAcknowledged(mode, ack, front);
      WrappedIs(ack + Volume(front));
      WrappedIs(ack + Volume(lens));
      AckOfPrefix(mode, ack, Cut(ack, front), Segment(false, true, Wrapped(ack + Volume(front)), len));
      InOrderStep(mode, ack, Volume(front), len);
    }
  }

  lemma CutNothing(mode: SeqMode, ack: nat)
    requires ack < U32
    ensures Cut(ack, []) == [] && AckAfter(mode, ack, []) == ack == (ack + Volume([])) % 0x1_0000_0000
  {
  }

  lemma EndIsAhead(start: nat, len: nat)
    requires start < U32 && len < U32 / 2
    ensures LargerThan(Wrapped(start + len), start, U32) <==> len > 0
    ensures len == 0 ==> Wrapped(start + len) == start
  {
    LargerIsLarger(start + len, start, U32);
    SmallModulo(start, U32);
  }

  // ----- runs of the sender -----

  /** What the sender keeps, and what happens to it: data goes out, or a segment with an acknowledgement comes in. */
  datatype Sender = Sender(start: nat, peerAck: nat, count: nat)
  datatype SendEvent = Sends(dataLen: nat, random: nat) | Hears(ackField: nat)

  function AfterEvent(mode: SeqMode, s: Sender, e: SendEvent): Sender {
    match e
    case Sends(len, random) =>
      s.(start := NextSeq(mode, len != 0, s.start, len, s.peerAck, s.count, random),
         count := if InWindowMode(mode) && len != 0 && s.count >= 3 then 0 else s.count)
    case Hears(a) => s.(peerAck := a, count := if a == s.peerAck then s.count + 1 else 0)
  }

  function AfterEvents(mode: SeqMode, s: Sender, run: seq<SendEvent>): Sender {
    if run == [] then s else AfterEvent(mode, AfterEvents(mode, s, run[..|run| - 1]), run[|run| - 1])
  }

  /** The segments that go out in a run. */
  function SegmentsOf(mode: SeqMode, s: Sender, run: seq<SendEvent>): seq<Segment> {
    if run == [] then []
    else
      var front, e := run[..|run| - 1], run[|run| - 1];
      SegmentsOf(mode, s, front) + if e.Sends? then [Segment(false, true, AfterEvents(mode, s, front).start, e.dataLen)] else []
  }

  function Lengths(run: seq<SendEvent>): seq<nat> {
    if run == [] then []
    else Lengths(run[..|run| - 1]) + if run[|run| - 1].Sends? then [run[|run| - 1].dataLen] else []
  }

  /** Whenever data goes out in a window mode, fewer than three acknowledgements were repeated, and one more packet
  fits into the window behind it. */
  ghost predicate Flows(mode: SeqMode, s: Sender, run: seq<SendEvent>) {
    run == [] ||
    var front, e := run[..|run| - 1], run[|run| - 1];
    var t := AfterEvents(mode, s, front);
    && Flows(mode, s, front)
    && (e.Sends? && e.dataLen != 0 && InWindowMode(mode) ==>
          t.count < 3 && ((t.start + e.dataLen) % 0x1_0000_0000 - t.peerAck) % 0x1_0000_0000 + 1800 <= Window(mode))
  }

  lemma FlowStep(mode: SeqMode, s: Sender, t: Sender, v: nat, e: SendEvent)
    requires (mode.Always? || InWindowMode(mode)) && t.start == (s.start + v) % 0x1_0000_0000
    requires e.Sends? && e.dataLen != 0 && InWindowMode(mode) ==>
               t.count < 3 && ((t.start + e.dataLen) % 0x1_0000_0000 - t.peerAck) % 0x1_0000_0000 + 1800 <= Window(mode)
    ensures AfterEvent(mode, t, e).start == (s.start + (v + if e.Sends? then e.dataLen else 0)) % 0x1_0000_0000
  {
    if e.Sends? {
      hide Wrapped;
      WrapTwice(s.start + v, e.dataLen);
      WrappedIs(s.start + v);
      WrappedIs(t.start + e.dataLen);
      WrappedIs(s.start + v + e.dataLen);
    }
  }

  lemma {:induction false} LengthsGrow(run: seq<SendEvent>)
    requires run != []
    ensures var e := run[|run| - 1]; var lens := Lengths(run[..|run| - 1]);
            && Lengths(run) == (if e.Sends? then lens + [e.dataLen] else lens)
            && Volume(Lengths(run)) == Volume(lens) + (if e.Sends? then e.dataLen else 0)
  {
    var e := run[|run| - 1];
    var lens := Lengths(run[..|run| - 1]);
    if e.Sends? { assert (lens + [e.dataLen])[..|lens|] == lens; }
  }

  /** Then the segments join end to start: what goes out is one stream, cut into pieces. */
  lemma {:induction false} SegmentsJoin(mode: SeqMode, s: Sender, run: seq<SendEvent>)
    requires (mode.Always? || InWindowMode(mode)) && s.start < U32 && Flows(mode, s, run)
    ensures SegmentsOf(mode, s, run) == Cut(s.start, Lengths(run))
    ensures AfterEvents(mode, s, run).start == (s.start + Volume(Lengths(run))) % 0x1_0000_0000
  {
    hide *;
    if run == [] {
      NothingSent(mode, s);
    } else {
      var front, e := run[..|run| - 1], run[|run| - 1];
      var t, v := AfterEvents(mode, s, front), Volume(Lengths(front));
      FlowsBack(mode, s, run);
      SegmentsJoin(mode, s, front);
      LengthsGrow(run);
      FlowStep(mode, s, t, v, e);
      WrappedIs(s.start + v);
      CutGrows(mode, s, run);
    }
  }

  lemma {:induction false} FlowsBack(mode: SeqMode, s: Sender, run: seq<SendEvent>)
    requires run != [] && Flows(mode, s, run)
    ensures var t, e := AfterEvents(mode, s, run[..|run| - 1]), run[|run| - 1];
            && Flows(mode, s, run[..|run| - 1]) && AfterEvents(mode, s, run) == AfterEvent(mode, t, e)
            && (e.Sends? && e.dataLen != 0 && InWindowMode(mode) ==>
                  t.count < 3 && ((t.start + e.dataLen) % 0x1_0000_0000 - t.peerAck) % 0x1_0000_0000 + 1800 <= Window(mode))
  {
  }

  lemma {:induction false} CutGrows(mode: SeqMode, s: Sender, run: seq<SendEvent>)
    requires run != [] && SegmentsOf(mode, s, run[..|run| - 1]) == Cut(s.start, Lengths(run[..|run| - 1]))
    requires AfterEvents(mode, s, run[..|run| - 1]).start == Wrapped(s.start + Volume(Lengths(run[..|run| - 1])))
    ensures SegmentsOf(mode, s, run) == Cut(s.start, Lengths(run))
  {
    hide AfterEvents, Volume, Wrapped;
    var front, lens, e := Lengths(run[..|run| - 1]), Lengths(run), run[|run| - 1];
    if e.Sends? {
      assert lens == front + [e.dataLen] && lens[..|lens| - 1] == front;
    } else {
      assert lens == front + [] == front;
    }
  }

  lemma NothingSent(mode: SeqMode, s: Sender)
    requires s.start < U32
    ensures SegmentsOf(mode, s, []) == Cut(s.start, Lengths([])) && AfterEvents(mode, s, []) == s
    ensures Volume(Lengths([])) == 0 && s.start == s.start % 0x1_0000_0000
  {
  }

  lemma {:induction false} FlowsOn(mode: SeqMode, s: Sender, run: seq<SendEvent>)
    requires InWindowMode(mode) && run != [] && run[|run| - 1].Sends? && Flows(mode, s, run[..|run| - 1])
    requires var t, e := AfterEvents(mode, s, run[..|run| - 1]), run[|run| - 1];
             && t.count < 3 && ((t.start + e.dataLen) % 0x1_0000_0000 - t.peerAck) % 0x1_0000_0000 + 1800 <= Window(mode)
    ensures Flows(mode, s, run)
    ensures var t, u := AfterEvents(mode, s, run[..|run| - 1]), AfterEvents(mode, s, run);
            u.peerAck == t.peerAck && u.count == t.count
  {
    hide NextSeq, Window;
  }

  /** What is sent without waiting for acknowledgements flows if it fits into the window, up to one packet. */
  lemma {:induction false} OneWindowFlows(mode: SeqMode, s: Sender, run: seq<SendEvent>)
    requires InWindowMode(mode) && s.start < U32 && s.peerAck < U32 && s.count < 3 && forall e <- run :: e.Sends?
    requires (s.start - s.peerAck) % 0x1_0000_0000 + Volume(Lengths(run)) + 1800 <= Window(mode)
    ensures Flows(mode, s, run)
    ensures AfterEvents(mode, s, run).peerAck == s.peerAck && AfterEvents(mode, s, run).count == s.count
  {
    hide *;
    if run == [] {
      NothingFlows(mode, s);
    } else {
      var front, e := run[..|run| - 1], run[|run| - 1];
      assert e in run && forall f <- front :: f in run;
      LengthsGrow(run);
      OneWindowFlows(mode, s, front);
      assert mode.Always? || InWindowMode(mode);
      SegmentsJoin(mode, s, front);
      WindowIsSmall(mode);
      AheadOfEnd(s.start, s.peerAck, Volume(Lengths(front)), e.dataLen);
      FlowsOn(mode, s, run);
    }
  }

  lemma WindowIsSmall(mode: SeqMode)
    requires InWindowMode(mode)
    ensures Window(mode) < 0x1_0000_0000
  {
  }

  lemma NothingFlows(mode: SeqMode, s: Sender)
    ensures Flows(mode, s, []) && AfterEvents(mode, s, []) == s
  {
  }

  lemma AheadOfEnd(start: nat, ack: nat, sent: nat, len: nat)
    requires (start - ack) % 0x1_0000_0000 + sent + len < 0x1_0000_0000
    ensures (((start + sent) % 0x1_0000_0000 + len) % 0x1_0000_0000 - ack) % 0x1_0000_0000 == (start - ack) % 0x1_0000_0000 + sent + len
  {
    WrapTwice(start + sent, len);
    WrappedIs(start + sent);
    WrappedIs(start + sent + len);
    ModuloOfDifference(start + sent + len, ack, U32);
    ModuloOfDifference((start + sent + len) % U32, ack, U32);
    assert (start + sent + len) % U32 % U32 == (start + sent + len) % U32;
    AheadPlus(start - ack, sent + len);
  }

  /** End to end: what flows and arrives in order is acknowledged up to the number the sender goes on with. */
  lemma FlowIsAcknowledged(mode: SeqMode, other: SeqMode, s: Sender, run: seq<SendEvent>)
    requires (mode.Always? || InWindowMode(mode)) && s.start < U32 && Flows(mode, s, run)
    requires InWindowMode(other) || forall l <- Lengths(run) :: l < U32 / 2
    ensures AckAfter(other, s.start, SegmentsOf(mode, s, run)) == AfterEvents(mode, s, run).start
  {
    SegmentsJoin(mode, s, run);
    InOrderIsAcknowledged(other, s.start, Lengths(run));
  }
}
