/** The client's six-state machine as functions of its state (client.cpp).  Clock readings and fresh random
ids are parameters. */
module ClientSteps {
  import opened Packets
  import AntiReplay

  const HANDSHAKE_TIMEOUT: nat := 5000
  const RETRY_INTERVAL: nat := 1000
  const CONN_TIMEOUT: nat := 10000
  const UPLINK_TIMEOUT: nat := 12000     // client_conn_uplink_timeout
  const HEARTBEAT_INTERVAL: nat := 600

  datatype State = Idle | TcpHandshake | TcpHandshakeDummy | Handshake1 | Handshake2 | Ready

  datatype RawMode = FakeTcp(dummySocket: bool) | Udp | Icmp

  datatype Client = Client(
    constId: nat,
    state: State,
    myId: nat,
    oppositeId: nat,
    filter: AntiReplay.Filter,
    sendSeq: nat,
    myRoller: nat,
    oppositeRoller: nat,
    lastRollerTime: nat,
    lastStateTime: nat,
    lastHbSentTime: nat,
    lastHbRecvTime: nat,
    disabled: bool)                    // the raw connection got too many RSTs

  datatype Out = Out(client: Client, sent: seq<Packet>)

  /** What a call of the timer takes from outside: options, the stale mark in slot 0 of the window, fresh
      ids, the random bytes of a handshake packet, and the clock readings in the order of the code. */
  datatype Env = Env(mode: RawMode, hbMode: nat, srcOk: bool, slot0: bool, idA: nat, idB: nat, junk: Junk,
                     now0: nat, now1: nat, now2: nat, now3: nat, now4: nat)

  /** `send_safer` */
  function SendSafer(c: Client, msg: Message): Out {
    Out(c.(sendSeq := c.sendSeq + 1), [Safer(c.myId, c.oppositeId, c.sendSeq, msg, c.myRoller)])
  }

  /** Leaves the session: a new id, so that old packets no longer match. */
  function Disabled(c: Client, e: Env): Client {
    if c.disabled then c.(state := Idle, myId := e.idA) else c
  }

  /** The part of the timer for the idle state: a fresh id and a fresh window go together. */
  function Restarted(c: Client, e: Env): Client {
    var d := c.(disabled := false, filter := AntiReplay.Fresh(e.slot0), myId := e.idB);
    if !e.srcOk then d
    else d.(state := (match e.mode
                      case FakeTcp(dummy) => if dummy then TcpHandshakeDummy else TcpHandshake
                      case _ => Handshake1),
            lastStateTime := e.now0, lastHbSentTime := 0)
  }

  function TimedOut(c: Client, e: Env): bool {
    e.now1 > c.lastStateTime + HANDSHAKE_TIMEOUT
  }

  function Retries(c: Client, e: Env): bool {
    e.now2 > c.lastHbSentTime + RETRY_INTERVAL
  }

  /** The timer in the handshake states: time out, resend, or wait. */
  function Shaking(c: Client, e: Env): Out
    requires c.state in {TcpHandshake, TcpHandshakeDummy, Handshake1, Handshake2}
  {
    if TimedOut(c, e) then Out(c.(state := Idle), [])
    else if c.state == TcpHandshakeDummy || !Retries(c, e) then Out(c, [])
    else
      Out(c.(lastHbSentTime := e.now3),
          match c.state
          case Handshake1 => [Bare(c.myId, 0, c.constId, e.junk)]
          case Handshake2 => [Bare(c.myId, c.oppositeId, c.constId, e.junk)]
          case _ => [])
  }

  /** The timer in the ready state.  An uplink timeout changes state and id but does not return: a due
      heartbeat is still sent, with the new id. */
  function Beating(c: Client, e: Env): Out
    requires c.state == Ready
  {
    if e.now1 > c.lastHbRecvTime + CONN_TIMEOUT then Out(c.(state := Idle, myId := e.idA), [])
    else
      var d := if e.now2 > c.lastRollerTime + UPLINK_TIMEOUT then c.(state := Idle, myId := e.idA) else c;
      if e.now3 < d.lastHbSentTime + HEARTBEAT_INTERVAL then Out(d, [])
      else var o := SendSafer(d, Heartbeat); Out(o.client.(lastHbSentTime := e.now4), o.sent)
  }

  /** The timer in the state it finds after that. */
  function Acting(c: Client, e: Env): Out {
    match c.state
    case Idle => Out(c, [])
    case Ready => Beating(c, e)
    case _ => Shaking(c, e)
  }

  /** `client_on_timer` */
  function OnTimer(c: Client, e: Env): Out {
    var d := Disabled(c, e);
    Acting(if d.state == Idle then Restarted(d, e) else d, e)
  }

  /** The SYN-ACK arrives. */
  function OnSynAck(c: Client, now: nat, e: Env): Out
    requires c.state in {TcpHandshake, TcpHandshakeDummy}
  {
    OnTimer(c.(state := Handshake1, lastStateTime := now, lastHbSentTime := 0), e)
  }

  /** The answer to handshake1, already found to be for this address and TCP position. */
  function OnBare(c: Client, p: Packet, now: nat, e: Env): Out
    requires c.state == Handshake1
  {
    if p.Bare? && p.second == c.myId
    then OnTimer(c.(oppositeId := p.first, state := Handshake2, lastStateTime := now, lastHbSentTime := 0), e)
    else Out(c, [])
  }

  /** What `reserved_parse_safer` changes on delivery of `p`. */
  function Rolled(c: Client, p: Packet, hbMode: nat, now: nat): Client
    requires p.Safer?
  {
    var r := Roll(Rollers(c.myRoller, c.oppositeRoller, c.lastRollerTime), p, hbMode, now);
    c.(myRoller := r.mine, oppositeRoller := r.theirs, lastRollerTime := r.time)
  }

  /** `reserved_parse_safer` */
  function ParseOne(c: Client, p: Packet, hbMode: nat, now: nat): Client {
    var d := c.(filter := FilterAfter(c.filter, c.myId, c.oppositeId, p));
    if Delivers(c.filter, c.myId, c.oppositeId, p) then Rolled(d, p, hbMode, now) else d
  }

  /** `recv_safer_multi`: the batch of one raw packet. */
  function Parse(c: Client, batch: seq<Packet>, hbMode: nat, nows: seq<nat>): (r: (Client, seq<Packet>))
    requires |nows| == |batch|
    ensures forall p <- r.1 :: p in batch && p.Safer?
  {
    if batch == [] then (c, []) else
    var n := |batch| - 1;
    var (d, out) := Parse(c, batch[..n], hbMode, nows[..n]);
    (ParseOne(d, batch[n], hbMode, nows[n]),
     if Delivers(d.filter, d.myId, d.oppositeId, batch[n]) then out + [batch[n]] else out)
  }

  /** The first channel packet makes a client in handshake2 ready. */
  function Entered(c: Client, now: nat, e: Env): Out {
    if c.state == Handshake2
    then OnTimer(c.(state := Ready, lastHbSentTime := 0, lastHbRecvTime := now, lastRollerTime := now), e)
    else Out(c, [])
  }

  /** `client_on_raw_recv_hs2_or_ready` for one delivered message. */
  function Hear(c: Client, m: Message, now: nat, heard: nat, e: Env): Out {
    var o := Entered(c, now, e);
    if m == Heartbeat || (m.Data? && e.hbMode == 0) then Out(o.client.(lastHbRecvTime := heard), o.sent) else o
  }

  function HearAll(c: Client, msgs: seq<Packet>, now: nat, heard: seq<nat>, e: Env): Out
    requires |heard| == |msgs| && forall p <- msgs :: p.Safer?
  {
    if msgs == [] then Out(c, []) else
    var n := |msgs| - 1;
    var o := HearAll(c, msgs[..n], now, heard[..n], e);
    var q := Hear(o.client, msgs[n].msg, now, heard[n], e);
    Out(q.client, o.sent + q.sent)
  }

  // ----- the timer by its effects -----

  /** A ready client gives up its session, with a fresh id, if and only if it has not heard a heartbeat for 10 s or the
  peer's roller has not changed for 12 s.  A heartbeat goes out if and only if it did hear one and sent none for 600 ms. */
  lemma ReadyTimer(c: Client, e: Env)
    requires c.state == Ready && !c.disabled
    ensures var o := OnTimer(c, e);
            var gone := e.now1 - c.lastHbRecvTime > 10000 || e.now2 - c.lastRollerTime > 12000;
            var beats := e.now1 - c.lastHbRecvTime <= 10000 && e.now3 - c.lastHbSentTime >= 600;
            && o.sent == (if beats then [Safer(o.client.myId, c.oppositeId, c.sendSeq, Heartbeat, c.myRoller)] else [])
            && o.client == c.(state := if gone then Idle else Ready, myId := if gone then e.idA else c.myId,
                              sendSeq := if beats then c.sendSeq + 1 else c.sendSeq,
                              lastHbSentTime := if beats then e.now4 else c.lastHbSentTime)
  {
  }

  /** A handshake state is given up after 5 s; until then its packet goes out again whenever the last is more than a second
  ago, a SYN that is none of the packets here in the TCP handshake, and nothing at all with a dummy socket. */
  lemma ShakeTimer(c: Client, e: Env)
    requires c.state in {TcpHandshake, TcpHandshakeDummy, Handshake1, Handshake2} && !c.disabled
    ensures var o := OnTimer(c, e);
            var again := e.now1 - c.lastStateTime <= 5000 && e.now2 - c.lastHbSentTime > 1000 && c.state != TcpHandshakeDummy;
            && o.client == c.(state := if e.now1 - c.lastStateTime > 5000 then Idle else c.state,
                              lastHbSentTime := if again then e.now3 else c.lastHbSentTime)
            && o.sent == (if again && c.state == Handshake1 then [Bare(c.myId, 0, c.constId, e.junk)]
                          else if again && c.state == Handshake2 then [Bare(c.myId, c.oppositeId, c.constId, e.junk)] else [])
  {
  }

  /** A disabled or idle client starts over with a fresh id and an empty window, unless it finds no address of its own; the
  handshake it begins depends on the mode, and what happens next is what its timer does in that state. */
  lemma IdleTimer(c: Client, e: Env)
    requires c.state == Idle || c.disabled
    ensures var d := OnTimer(c, e).client;
            && !d.disabled && d.myId == e.idB && d.filter == AntiReplay.Fresh(e.slot0) && d.sendSeq == c.sendSeq
            && (!e.srcOk ==> OnTimer(c, e) == Out(d, []) && d.state == Idle)
            && (e.srcOk ==>
                  && d.lastStateTime == e.now0
                  && d.state == (if e.now1 - e.now0 > 5000 then Idle
                                 else if e.mode.FakeTcp? then (if e.mode.dummySocket then TcpHandshakeDummy else TcpHandshake)
                                 else Handshake1)
                  && OnTimer(c, e).sent == if d.state == Handshake1 && e.now2 > 1000 then [Bare(e.idB, 0, c.constId, e.junk)] else [])
  {
  }

  // ----- facts about the state machine -----

  /** Only handshake1's answer leads into handshake2, and only a delivered packet from handshake2 into ready. */
  lemma TimerStates(c: Client, e: Env)
    ensures OnTimer(c, e).client.state == Handshake2 ==> c.state == Handshake2
    ensures OnTimer(c, e).client.state == Ready ==> c.state == Ready
    ensures OnTimer(c, e).client.state in {Handshake2, Ready} ==>
              OnTimer(c, e).client.myId == c.myId && OnTimer(c, e).client.filter == c.filter
    ensures OnTimer(c, e).client.oppositeId == c.oppositeId && OnTimer(c, e).client.constId == c.constId
  {
  }

  /** A timer call keeps the id and the window, or takes a fresh id; it is never in a handshake state with
      a window that was not reset together with the id. */
  lemma TimerIds(c: Client, e: Env)
    ensures var d := OnTimer(c, e).client;
            || (d.myId == c.myId && d.filter == c.filter && d.state in {c.state, Idle})
            || (d.myId == e.idA && d.filter == c.filter && d.state == Idle)
            || (d.myId == e.idB && d.filter == AntiReplay.Fresh(e.slot0) && d.state !in {Handshake2, Ready})
  {
  }

  /** What the timer sends: handshake packets of the state it is in, or a heartbeat. */
  lemma TimerSends(c: Client, e: Env)
    ensures var o := OnTimer(c, e);
            || o.sent == []
            || (o.sent == [Bare(o.client.myId, 0, c.constId, e.junk)] && o.client.state == Handshake1)
            || (o.sent == [Bare(c.myId, c.oppositeId, c.constId, e.junk)] && c.state == o.client.state == Handshake2)
            || (o.sent == [Safer(o.client.myId, c.oppositeId, c.sendSeq, Heartbeat, c.myRoller)] && c.state == Ready
                && o.client.sendSeq == c.sendSeq + 1)
    ensures var o := OnTimer(c, e);
            o.client.sendSeq == c.sendSeq + if o.sent != [] && o.sent[0].Safer? then 1 else 0
  {
  }

  /** Parsing changes neither the state nor the ids; it delivers what the window lets through. */
  lemma {:induction false} ParseFacts(c: Client, batch: seq<Packet>, hbMode: nat, nows: seq<nat>)
    requires |nows| == |batch|
    ensures var (d, out) := Parse(c, batch, hbMode, nows);
            && (d.filter, out) == Parsed(c.filter, c.myId, c.oppositeId, batch)
            && d.state == c.state && d.myId == c.myId && d.oppositeId == c.oppositeId && d.constId == c.constId
            && d.sendSeq == c.sendSeq
  {
    if batch != [] {
      var n := |batch| - 1;
      ParseFacts(c, batch[..n], hbMode, nows[..n]);
    }
  }

  /** Of a batch only the first message can change the state and send anything. */
  lemma {:induction false} HearAllFacts(c: Client, msgs: seq<Packet>, now: nat, heard: seq<nat>, e: Env)
    requires |heard| == |msgs| && forall p <- msgs :: p.Safer?
    ensures var f := if msgs == [] then Out(c, []) else Entered(c, now, e);
            var o := HearAll(c, msgs, now, heard, e);
            && o.sent == f.sent && o.client == f.client.(lastHbRecvTime := o.client.lastHbRecvTime)
            && (msgs != [] ==> o.client.state != Handshake2)
  {
    if msgs != [] {
      var n := |msgs| - 1;
      HearAllFacts(c, msgs[..n], now, heard[..n], e);
      var o := HearAll(c, msgs[..n], now, heard[..n], e);
      TimerStates(c.(state := Ready, lastHbSentTime := 0, lastHbRecvTime := now, lastRollerTime := now), e);
      if n > 0 { assert Entered(o.client, now, e) == Out(o.client, []); }
    }
  }

  lemma ParseNone(c: Client, hbMode: nat)
    ensures Parse(c, [], hbMode, []) == (c, [])
  {
  }

  lemma ParseGrows(c: Client, batch: seq<Packet>, hbMode: nat, nows: seq<nat>, i: nat, now: nat)
    requires |nows| == i < |batch|
    ensures var (d, out) := Parse(c, batch[..i], hbMode, nows);
            Parse(c, batch[..i + 1], hbMode, nows + [now]) ==
            (ParseOne(d, batch[i], hbMode, now),
             if Delivers(d.filter, d.myId, d.oppositeId, batch[i]) then out + [batch[i]] else out)
  {
    assert batch[..i + 1][..i] == batch[..i] && (nows + [now])[..i] == nows;
  }

  lemma HearNone(c: Client, now: nat, e: Env)
    ensures HearAll(c, [], now, [], e) == Out(c, [])
  {
  }

  /** One more message.  Only the first can find the client in handshake2, so from then on it does not
      matter with which readings the timer would run. */
  lemma HearGrows(c: Client, msgs: seq<Packet>, now: nat, heard: seq<nat>, e: Env, i: nat, n: nat, h: nat, f: Env)
    requires |heard| == i < |msgs| && (forall p <- msgs :: p.Safer?) && e.hbMode == f.hbMode
    requires i > 0 ==> HearAll(c, msgs[..i], now, heard, e).client.state != Handshake2
    ensures var o := HearAll(c, msgs[..i], now, heard, e);
            var q := Hear(o.client, msgs[i].msg, n, h, f);
            && HearAll(c, msgs[..i + 1], if i == 0 then n else now, heard + [h], if i == 0 then f else e)
               == Out(q.client, o.sent + q.sent)
            && q.client.state != Handshake2
  {
    assert msgs[..i + 1][..i] == msgs[..i] && (heard + [h])[..i] == heard;
    var o := HearAll(c, msgs[..i], now, heard, e);
    hide OnTimer;
    if o.client.state == Handshake2 {
      TimerStates(o.client.(state := Ready, lastHbSentTime := 0, lastHbRecvTime := n, lastRollerTime := n), f);
    }
  }
}
