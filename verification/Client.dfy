/** The client process's one raw connection, changed in place by the handlers of client.cpp.  Each method
computes the value-level step of the state machine. */
module Client {
  import opened Packets
  import AntiReplay
  import Clock
  import ConvManager
  import L = Lru
  import C = ClientSteps

  /** The raw clock values behind the readings of one handler call. */
  datatype Raws = Raws(r0: nat, r1: nat, r2: nat, r3: nat, r4: nat)

  /** Options and random draws of one call of the timer. */
  datatype Draws = Draws(mode: C.RawMode, hbMode: nat, srcOk: bool, idA: nat, idB: nat, junk: Junk)

  /** The call as the state machine sees it, with the readings it was given. */
  function EnvOf(d: Draws, slot0: bool, n0: nat, n1: nat, n2: nat, n3: nat, n4: nat): C.Env {
    C.Env(d.mode, d.hbMode, d.srcOk, slot0, d.idA, d.idB, d.junk, n0, n1, n2, n3, n4)
  }

  class ClientConn {
    const constId: nat
    const window: AntiReplay.Window
    const convs: ConvManager.ConvManager<nat>
    const clock: Clock.Clock
    var state: C.State
    var myId: nat
    var oppositeId: nat
    var myRoller: nat
    var oppositeRoller: nat
    var lastRollerTime: nat
    var lastStateTime: nat
    var lastHbSentTime: nat
    var lastHbRecvTime: nat
    var disabled: bool

    ghost function View(): C.Client
      reads this, window
    {
      C.Client(constId, state, myId, oppositeId, window.filter, window.antiReplaySeq, myRoller, oppositeRoller,
               lastRollerTime, lastStateTime, lastHbSentTime, lastHbRecvTime, disabled)
    }

    /** Times were read from the clock. */
    ghost predicate TimesOk()
      reads this, clock
    {
      && lastStateTime <= clock.Reading() && lastHbSentTime <= clock.Reading()
      && lastHbRecvTime <= clock.Reading() && lastRollerTime <= clock.Reading()
    }

    ghost predicate Valid()
      reads this, window, window.window, clock, convs, convs.lru
    {
      && window.Valid() && TimesOk()
      && convs.lru.clock == clock && convs.closer == null && convs.Valid() && |convs.convToData| <= ConvManager.MAX_CONV_NUM
    }

    constructor (constId: nat, myId: nat, firstSeq: nat, lastClear: int, clock: Clock.Clock)
      ensures Valid() && fresh(window) && fresh(window.window) && fresh(convs) && fresh(convs.lru) && this.clock == clock
      ensures state == C.Idle && this.myId == myId && this.constId == constId
    {
      this.constId, this.myId, this.clock := constId, myId, clock;
      window := new AntiReplay.Window(firstSeq);
      convs := new ConvManager.ConvManager(clock, null, lastClear);
      state, oppositeId, disabled := C.Idle, 0, false;
      myRoller, oppositeRoller, lastRollerTime, lastStateTime, lastHbSentTime, lastHbRecvTime := 0, 0, 0, 0, 0, 0;
    }

    /** Conversations do not mind the clock moving on. */
    twostate lemma ConvsStay()
      requires old(convs.Valid()) && unchanged(convs) && unchanged(convs.lru) && convs.lru.clock == clock
      requires old(clock.Reading()) <= clock.Reading()
      ensures convs.Valid()
    {
    }

    method SendSafer(msg: Message) returns (sent: seq<Packet>)
      requires window.Valid()
      modifies window`antiReplaySeq
      ensures window.Valid() && C.Out(View(), sent) == C.SendSafer(old(View()), msg)
    {
      var s := window.GetNewSeqForSend();
      sent := [Safer(myId, oppositeId, s, msg, myRoller)];
    }

    /** The idle branch of the timer. */
    method Restart(d: Draws, raw: nat) returns (ghost n0: nat)
      requires window.Valid() && TimesOk()
      modifies this, window`maxPacketReceived, window`filter, clock
      ensures window.Valid() && TimesOk() && old(clock.Reading()) <= n0 == clock.Reading()
      ensures !disabled && myId == d.idB && View().filter == AntiReplay.Fresh(window.window[0] == 1)
      ensures if !d.srcOk
              then state == old(state) && lastStateTime == old(lastStateTime) && lastHbSentTime == old(lastHbSentTime)
              else
                && state == (if d.mode.Udp? || d.mode.Icmp? then C.Handshake1
                             else if d.mode.dummySocket then C.TcpHandshakeDummy else C.TcpHandshake)
                && clock.At() == Clock.Read(old(clock.At()), raw) && lastStateTime == clock.Reading() && lastHbSentTime == 0
      ensures View() == C.Restarted(old(View()), EnvOf(d, window.window[0] == 1, n0, 0, 0, 0, 0))
    {
      hide AntiReplay.Window.Valid, ConvManager.ConvManager.Valid, L.Lru.Valid, L.Linked, Clock.Read;
      n0 := clock.Reading();
      disabled := false;
      window.ReInit();
      myId := d.idB;
      if !d.srcOk { return; }
      if d.mode.FakeTcp? {
        state := if d.mode.dummySocket then C.TcpHandshakeDummy else C.TcpHandshake;
      } else {
        state := C.Handshake1;
      }
      lastStateTime := clock.CurrentTime(raw);
      n0 := lastStateTime;
      lastHbSentTime := 0;
    }

    /** The branches of the timer for the handshake states. */
    method Shake(d: Draws, raw: Raws) returns (sent: seq<Packet>, ghost n1: nat, ghost n2: nat, ghost n3: nat)
      requires window.Valid() && TimesOk()
      requires state in {C.TcpHandshake, C.TcpHandshakeDummy, C.Handshake1, C.Handshake2}
      modifies this, clock
      ensures TimesOk() && old(clock.Reading()) <= n1 <= n2 <= n3 == clock.Reading()
      ensures n1 == Clock.Read(old(clock.At()), raw.r1).top / 1000
      ensures myId == old(myId) && oppositeId == old(oppositeId) && lastStateTime == old(lastStateTime)
      ensures if n1 - old(lastStateTime) > 5000 then state == C.Idle && sent == [] && lastHbSentTime == old(lastHbSentTime)
              else
                && state == old(state)
                && (state != C.TcpHandshakeDummy ==>
                      n2 == Clock.Read(Clock.Read(old(clock.At()), raw.r1), raw.r2).top / 1000)
                && if state == C.TcpHandshakeDummy || n2 - old(lastHbSentTime) <= 1000
                   then sent == [] && lastHbSentTime == old(lastHbSentTime)
                   else
                     && lastHbSentTime == n3
                     && n3 == Clock.Read(Clock.Read(Clock.Read(old(clock.At()), raw.r1), raw.r2), raw.r3).top / 1000
                     && sent == (if state == C.Handshake1 then [Bare(myId, 0, constId, d.junk)]
                                 else if state == C.Handshake2 then [Bare(myId, oppositeId, constId, d.junk)] else [])
      ensures C.Out(View(), sent) == C.Shaking(old(View()), EnvOf(d, false, 0, n1, n2, n3, 0))
    {
      hide AntiReplay.Window.Valid, ConvManager.ConvManager.Valid, L.Lru.Valid, L.Linked, Clock.Read;
      sent := [];
      var now := clock.CurrentTime(raw.r1);
      n1, n2, n3 := now, now, now;
      if now - lastStateTime > C.HANDSHAKE_TIMEOUT {
        state := C.Idle;
        return;
      }
      if state == C.TcpHandshakeDummy { return; }
      now := clock.CurrentTime(raw.r2);
      n2, n3 := now, now;
      if now - lastHbSentTime > C.RETRY_INTERVAL {
        if state == C.Handshake1 {
          sent := [Bare(myId, 0, constId, d.junk)];
        } else if state == C.Handshake2 {
          sent := [Bare(myId, oppositeId, constId, d.junk)];
        }
        lastHbSentTime := clock.CurrentTime(raw.r3);
        n3 := lastHbSentTime;
      }
    }

    /** The branch of the timer for the ready state. */
    method Beat(d: Draws, raw: Raws) returns (sent: seq<Packet>, ghost n1: nat, ghost n2: nat, ghost n3: nat, ghost n4: nat)
      requires window.Valid() && TimesOk() && state == C.Ready
      modifies this, window`antiReplaySeq, clock
      ensures window.Valid() && TimesOk() && old(clock.Reading()) <= n1 <= n2 <= n3 <= n4 == clock.Reading()
      ensures n1 == Clock.Read(old(clock.At()), raw.r1).top / 1000
      ensures n1 - lastHbRecvTime <= 10000 ==>
                && n2 == Clock.Read(Clock.Read(old(clock.At()), raw.r1), raw.r2).top / 1000
                && n3 == Clock.Read(Clock.Read(Clock.Read(old(clock.At()), raw.r1), raw.r2), raw.r3).top / 1000
      ensures state == C.Ready || state == C.Idle
      ensures state == C.Idle <==> n1 - lastHbRecvTime > 10000 || n2 - lastRollerTime > 12000
      ensures myId == if state == C.Idle then d.idA else old(myId)
      ensures lastHbRecvTime == old(lastHbRecvTime) && lastRollerTime == old(lastRollerTime)
      ensures if n1 - lastHbRecvTime <= 10000 && n3 - old(lastHbSentTime) >= 600
              then
                && sent == [Safer(myId, oppositeId, old(window.antiReplaySeq), Heartbeat, myRoller)]
                && clock.At() == Clock.Read(Clock.Read(Clock.Read(Clock.Read(old(clock.At()), raw.r1), raw.r2), raw.r3), raw.r4)
                && lastHbSentTime == n4
              else sent == [] && lastHbSentTime == old(lastHbSentTime)
      ensures C.Out(View(), sent) == C.Beating(old(View()), EnvOf(d, false, 0, n1, n2, n3, n4))
    {
      hide AntiReplay.Window.Valid, ConvManager.ConvManager.Valid, L.Lru.Valid, L.Linked, Clock.Read;
      sent := [];
      var now := clock.CurrentTime(raw.r1);
      n1, n2, n3, n4 := now, now, now, now;
      if now - lastHbRecvTime > C.CONN_TIMEOUT {
        state, myId := C.Idle, d.idA;
        return;
      }
      now := clock.CurrentTime(raw.r2);
      n2 := now;
      if now - lastRollerTime > C.UPLINK_TIMEOUT {
        state, myId := C.Idle, d.idA;
      }
      sent, n3, n4 := SendBeat(raw);
    }

    /** The heartbeat, if it is due. */
    method SendBeat(raw: Raws) returns (sent: seq<Packet>, ghost n3: nat, ghost n4: nat)
      requires window.Valid() && lastHbSentTime <= clock.Reading()
      modifies this`lastHbSentTime, window`antiReplaySeq, clock
      ensures window.Valid() && lastHbSentTime <= clock.Reading() && old(clock.Reading()) <= n3 <= n4 == clock.Reading()
      ensures n3 == Clock.Read(old(clock.At()), raw.r3).top / 1000
      ensures if n3 - old(lastHbSentTime) >= 600
              then
                && sent == [Safer(myId, oppositeId, old(window.antiReplaySeq), Heartbeat, myRoller)]
                && window.antiReplaySeq == old(window.antiReplaySeq) + 1
                && clock.At() == Clock.Read(Clock.Read(old(clock.At()), raw.r3), raw.r4) && lastHbSentTime == n4
              else sent == [] && lastHbSentTime == old(lastHbSentTime) && window.antiReplaySeq == old(window.antiReplaySeq)
    {
      hide AntiReplay.Window.Valid, Clock.Read;
      sent := [];
      var now := clock.CurrentTime(raw.r3);
      n3, n4 := now, now;
      if now - lastHbSentTime < C.HEARTBEAT_INTERVAL { return; }
      sent := SendSafer(Heartbeat);
      lastHbSentTime := clock.CurrentTime(raw.r4);
      n4 := lastHbSentTime;
    }

    /** What the timer does in the state it finds. */
    method Act(d: Draws, raw: Raws) returns (sent: seq<Packet>, ghost n1: nat, ghost n2: nat, ghost n3: nat, ghost n4: nat)
      requires window.Valid() && TimesOk()
      modifies this, window`antiReplaySeq, clock
      ensures window.Valid() && TimesOk() && old(clock.Reading()) <= n1 <= n2 <= n3 <= n4 == clock.Reading()
      ensures C.Out(View(), sent) == C.Acting(old(View()), EnvOf(d, false, 0, n1, n2, n3, n4))
    {
      hide AntiReplay.Window.Valid, ConvManager.ConvManager.Valid, L.Lru.Valid, L.Linked, C.Shaking, C.Beating, Clock.Read;
      sent, n1, n2, n3, n4 := [], clock.Reading(), clock.Reading(), clock.Reading(), clock.Reading();
      if state == C.Ready {
        sent, n1, n2, n3, n4 := Beat(d, raw);
      } else if state != C.Idle {
        sent, n1, n2, n3 := Shake(d, raw);
        n4 := n3;
        ShakeEnv(old(View()), d, n1, n2, n3, n4);
      }
    }

    lemma ShakeEnv(c: C.Client, d: Draws, n1: nat, n2: nat, n3: nat, n4: nat)
      requires c.state in {C.TcpHandshake, C.TcpHandshakeDummy, C.Handshake1, C.Handshake2}
      ensures C.Shaking(c, EnvOf(d, false, 0, n1, n2, n3, 0)) == C.Shaking(c, EnvOf(d, false, 0, n1, n2, n3, n4))
    {
    }

    /** `client_on_timer` after its call of `clear_inactive`. */
    method Timer(d: Draws, raw: Raws) returns (sent: seq<Packet>, ghost e: C.Env)
      requires window.Valid() && TimesOk()
      modifies this, window`antiReplaySeq, window`maxPacketReceived, window`filter, clock
      ensures window.Valid() && TimesOk()
      ensures old(clock.Reading()) <= e.now0 <= e.now1 <= e.now2 <= e.now3 <= e.now4 == clock.Reading()
      ensures e == EnvOf(d, window.window[0] == 1, e.now0, e.now1, e.now2, e.now3, e.now4)
      ensures C.Out(View(), sent) == C.OnTimer(old(View()), e)
    {
      ghost var slot0 := window.window[0] == 1;
      hide AntiReplay.Window.Valid, ConvManager.ConvManager.Valid, L.Lru.Valid, L.Linked, C.Restarted, C.Acting, Clock.Read;
      ghost var n0 := clock.Reading();
      if disabled {
        state, myId := C.Idle, d.idA;
      }
      if state == C.Idle {
        n0 := Restart(d, raw.r0);
      }
      ghost var n1, n2, n3, n4;
      sent, n1, n2, n3, n4 := Act(d, raw);
      e := EnvOf(d, slot0, n0, n1, n2, n3, n4);
      TimerEnv(old(View()), d, slot0, n0, n1, n2, n3, n4);
    }

    /** Each part of the timer takes of the call what it needs. */
    lemma TimerEnv(c: C.Client, d: Draws, slot0: bool, n0: nat, n1: nat, n2: nat, n3: nat, n4: nat)
      ensures var e := EnvOf(d, slot0, n0, n1, n2, n3, n4);
              && C.Disabled(c, e) == (if c.disabled then c.(state := C.Idle, myId := d.idA) else c)
              && (forall u :: C.Restarted(u, e) == C.Restarted(u, EnvOf(d, slot0, n0, 0, 0, 0, 0)))
              && forall u :: C.Acting(u, e) == C.Acting(u, EnvOf(d, false, 0, n1, n2, n3, n4))
    {
    }

    /** `client_on_timer` */
    method OnTimer(d: Draws, raw: Raws, clear: (nat, nat, nat)) returns (sent: seq<Packet>, ghost e: C.Env)
      requires Valid()
      modifies this, window`antiReplaySeq, window`maxPacketReceived, window`filter, convs, convs.lru, clock
      ensures Valid()
      ensures old(clock.Reading()) <= e.now0 <= e.now1 <= e.now2 <= e.now3 <= e.now4 == clock.Reading()
      ensures e == EnvOf(d, window.window[0] == 1, e.now0, e.now1, e.now2, e.now3, e.now4)
      ensures old(state) == C.Ready && !old(disabled) ==>
                && (state == C.Ready || state == C.Idle)
                && (state == C.Idle <==> e.now1 - old(lastHbRecvTime) > 10000 || e.now2 - old(lastRollerTime) > 12000)
                && myId == (if state == C.Idle then d.idA else old(myId))
                && sent == if e.now1 - old(lastHbRecvTime) <= 10000 && e.now3 - old(lastHbSentTime) >= 600
                           then [Safer(myId, oppositeId, old(window.antiReplaySeq), Heartbeat, myRoller)] else []
      ensures old(state) == C.Idle || old(disabled) ==>
                !disabled && myId == d.idB && View().filter == AntiReplay.Fresh(window.window[0] == 1)
                && (!d.srcOk ==> state == C.Idle && sent == [])
      ensures C.Out(View(), sent) == C.OnTimer(old(View()), e)
      ensures convs.convToData.Keys <= old(convs.convToData.Keys)
    {
      hide AntiReplay.Window.Valid, ConvManager.ConvManager.Valid, L.Lru.Valid, L.Linked, C.OnTimer;
      var due;
      ghost var now;
      due, now := convs.ClearInactive(clear.0, clear.1, clear.2);
      FewerConvs(convs.convToData, old(convs.convToData));
      label cleared:
      sent, e := Timer(d, raw);
      ConvsStay@cleared();
      if old(state) == C.Ready && !old(disabled) { C.ReadyTimer(old(View()), e); }
      if old(state) == C.Idle || old(disabled) { C.IdleTimer(old(View()), e); }
    }

    /** A handshake state begins: its time starts and the next timer call sends at once. */
    method EnterState(next: C.State, raw: nat) returns (ghost now: nat)
      requires Valid()
      modifies this`state, this`lastStateTime, this`lastHbSentTime, clock
      ensures Valid() && old(clock.Reading()) <= now <= clock.Reading()
      ensures now == clock.Reading() && clock.At() == Clock.Read(old(clock.At()), raw)
      ensures View() == old(View()).(state := next, lastStateTime := now, lastHbSentTime := 0)
    {
      hide AntiReplay.Window.Valid, ConvManager.ConvManager.Valid, Clock.Read;
      state := next;
      lastStateTime := clock.CurrentTime(raw);
      now := lastStateTime;
      lastHbSentTime := 0;
      ConvsStay();
    }

    method BecomeReady(raw: nat) returns (ghost now: nat)
      requires Valid()
      modifies this`state, this`lastHbSentTime, this`lastHbRecvTime, this`lastRollerTime, clock
      ensures Valid() && old(clock.Reading()) <= clock.Reading()
      ensures now == clock.Reading() && clock.At() == Clock.Read(old(clock.At()), raw)
      ensures View() == old(View()).(state := C.Ready, lastHbSentTime := 0, lastHbRecvTime := now, lastRollerTime := now)
    {
      hide AntiReplay.Window.Valid, ConvManager.ConvManager.Valid, Clock.Read;
      state := C.Ready;
      lastHbSentTime := 0;
      lastHbRecvTime := clock.CurrentTime(raw);
      now := lastHbRecvTime;
      lastRollerTime := lastHbRecvTime;
      ConvsStay();
    }

    /** The SYN-ACK of the remote address, in sequence. */
    method OnSynAck(d: Draws, raw: Raws, rawNow: nat, clear: (nat, nat, nat)) returns (sent: seq<Packet>, ghost now: nat, ghost e: C.Env)
      requires Valid() && state in {C.TcpHandshake, C.TcpHandshakeDummy}
      modifies this, window`antiReplaySeq, window`maxPacketReceived, window`filter, convs, convs.lru, clock
      ensures Valid() && old(clock.Reading()) <= now <= clock.Reading()
      ensures C.Out(View(), sent) == C.OnSynAck(old(View()), now, e)
    {
      hide AntiReplay.Window.Valid, ConvManager.ConvManager.Valid, L.Lru.Valid, L.Linked, C.OnTimer;
      now := EnterState(C.Handshake1, rawNow);
      sent, e := OnTimer(d, raw, clear);
    }

    /** A handshake packet from the remote address; `inPlace` is the TCP position check. */
    method OnBare(p: Packet, inPlace: bool, d: Draws, raw: Raws, rawNow: nat, clear: (nat, nat, nat))
      returns (sent: seq<Packet>, ghost now: nat, ghost e: C.Env)
      requires Valid() && state == C.Handshake1
      modifies this, window`antiReplaySeq, window`maxPacketReceived, window`filter, convs, convs.lru, clock
      ensures Valid() && old(clock.Reading()) <= clock.Reading()
      ensures C.Out(View(), sent) == if inPlace then C.OnBare(old(View()), p, now, e) else C.Out(old(View()), [])
    {
      hide AntiReplay.Window.Valid, ConvManager.ConvManager.Valid, L.Lru.Valid, L.Linked, C.OnTimer;
      sent, now, e := [], 0, EnvOf(d, false, 0, 0, 0, 0, 0);
      if !p.Bare? || p.second != myId || !inPlace { return; }
      oppositeId := p.first;
      now := EnterState(C.Handshake2, rawNow);
      sent, e := OnTimer(d, raw, clear);
    }

    /** `reserved_parse_safer`, with anti-replay enabled: ids, then the window, then the type. */
    method ParseSafer(p: Packet, hbMode: nat, raw: nat) returns (out: seq<Packet>, ghost now: nat)
      requires Valid()
      modifies this, window`maxPacketReceived, window`filter, window.window, clock
      ensures Valid() && old(clock.Reading()) <= clock.Reading()
      ensures View() == C.ParseOne(old(View()), p, hbMode, now)
      ensures out == if Delivers(old(window.filter), old(myId), old(oppositeId), p) then [p] else []
    {
      hide AntiReplay.Window.Valid, ConvManager.ConvManager.Valid, L.Lru.Valid, L.Linked;
      out, now := [], 0;
      var h := Header(p);
      if h.from != oppositeId || h.to != myId { return; }
      var ok := window.IsValid(h.seqNo, false);
      if !ok || !p.Safer? { return; }
      now := Roll(p, hbMode, raw);
      out := [p];
    }

    /** The rollers on delivery: the peer's shows that our packets arrive, ours tells the peer the same. */
    method Roll(p: Packet, hbMode: nat, raw: nat) returns (ghost now: nat)
      requires Valid() && p.Safer?
      modifies this`oppositeRoller, this`lastRollerTime, this`myRoller, clock
      ensures Valid() && old(clock.Reading()) <= clock.Reading()
      ensures p.roller != old(oppositeRoller) ==>
                oppositeRoller == p.roller && clock.At() == Clock.Read(old(clock.At()), raw) && lastRollerTime == clock.Reading()
      ensures p.roller == old(oppositeRoller) ==> oppositeRoller == old(oppositeRoller) && lastRollerTime == old(lastRollerTime)
      ensures myRoller == if hbMode == 0 || p.msg == Heartbeat then (old(myRoller) + 1) % 256 else old(myRoller)
      ensures View() == C.Rolled(old(View()), p, hbMode, now)
    {
      hide AntiReplay.Window.Valid, ConvManager.ConvManager.Valid, Clock.Read;
      now := RollFields(p, hbMode, raw);
      ConvsStay();
    }

    method RollFields(p: Packet, hbMode: nat, raw: nat) returns (ghost now: nat)
      requires p.Safer? && lastRollerTime <= clock.Reading()
      modifies this`oppositeRoller, this`lastRollerTime, this`myRoller, clock
      ensures old(clock.Reading()) <= clock.Reading() && lastRollerTime <= clock.Reading()
      ensures if p.roller != old(oppositeRoller)
              then oppositeRoller == p.roller && clock.At() == Clock.Read(old(clock.At()), raw) && lastRollerTime == now == clock.Reading()
              else oppositeRoller == old(oppositeRoller) && lastRollerTime == old(lastRollerTime)
      ensures myRoller == if hbMode == 0 || p.msg == Heartbeat then (old(myRoller) + 1) % 256 else old(myRoller)
    {
      now := 0;
      if p.roller != oppositeRoller {
        oppositeRoller := p.roller;
        lastRollerTime := clock.CurrentTime(raw);
        now := lastRollerTime;
      }
      if hbMode == 0 || p.msg == Heartbeat {
        myRoller := (myRoller + 1) % 256;
      }
    }

    /** `client_on_raw_recv_hs2_or_ready`: a payload goes to the peer of its conversation, if that is live. */
    method OnSafer(m: Message, d: Draws, raw: Raws, rawNow: nat, rawHeard: nat, rawConv: nat, clear: (nat, nat, nat))
      returns (sent: seq<Packet>, to: seq<nat>, ghost now: nat, ghost heard: nat, ghost e: C.Env)
      requires Valid()
      modifies this, window`antiReplaySeq, window`maxPacketReceived, window`filter, convs, convs.lru, clock
      ensures Valid() && old(clock.Reading()) <= clock.Reading()
      ensures old(state) != C.Handshake2 ==> sent == [] && state == old(state) && myId == old(myId)
      ensures m == Heartbeat || (m.Data? && d.hbMode == 0) ==> lastHbRecvTime == heard && old(clock.Reading()) <= heard <= clock.Reading()
      ensures old(state) == C.Ready && m != Heartbeat && (m.Data? ==> d.hbMode != 0) ==> lastHbRecvTime == old(lastHbRecvTime)
      ensures e.hbMode == d.hbMode && C.Out(View(), sent) == C.Hear(old(View()), m, now, heard, e)
      ensures convs.convToData.Keys <= old(convs.convToData.Keys)
      ensures to == if m.Data? && m.conv in convs.convToData then [convs.convToData[m.conv]] else []
    {
      hide AntiReplay.Window.Valid, ConvManager.ConvManager.Valid, L.Lru.Valid, L.Linked, C.OnTimer;
      to, heard := [], 0;
      sent, now, e := Enter(d, raw, rawNow, clear);
      if m == Heartbeat || (m.Data? && d.hbMode == 0) {
        heard := Touch(rawHeard);
      }
      if m.Data? && convs.IsConvUsed(m.conv) {
        to := Forward(m.conv, rawConv);
      }
    }

    /** The first channel packet of a session makes the client ready and runs the timer. */
    method Enter(d: Draws, raw: Raws, rawNow: nat, clear: (nat, nat, nat))
      returns (sent: seq<Packet>, ghost now: nat, ghost e: C.Env)
      requires Valid()
      modifies this, window`antiReplaySeq, window`maxPacketReceived, window`filter, convs, convs.lru, clock
      ensures Valid() && old(clock.Reading()) <= clock.Reading()
      ensures e.hbMode == d.hbMode && C.Out(View(), sent) == C.Entered(old(View()), now, e)
      ensures convs.convToData.Keys <= old(convs.convToData.Keys)
    {
      hide AntiReplay.Window.Valid, ConvManager.ConvManager.Valid, L.Lru.Valid, L.Linked, C.OnTimer, Valid;
      sent, now, e := [], 0, EnvOf(d, false, 0, 0, 0, 0, 0);
      if state == C.Handshake2 {
        now := BecomeReady(rawNow);
        sent, e := OnTimer(d, raw, clear);
      }
    }

    /** The payload of a live conversation is sent to its local peer. */
    method Forward(conv: nat, raw: nat) returns (to: seq<nat>)
      requires Valid() && conv in convs.convToData
      modifies convs.lru, clock
      ensures Valid() && old(clock.Reading()) <= clock.Reading() && View() == old(View())
      ensures to == [convs.convToData[conv]]
    {
      hide AntiReplay.Window.Valid, L.Linked;
      convs.UpdateActiveTime(conv, raw);
      to := [convs.convToData[conv]];
    }

    /** `recv_safer_multi`: parses the batch of one raw packet before anything of it is handled. */
    method ParseBatch(batch: seq<Packet>, hbMode: nat, raws: seq<nat>) returns (out: seq<Packet>, ghost nows: seq<nat>)
      requires Valid() && |raws| == |batch|
      modifies this, window`maxPacketReceived, window`filter, window.window, clock
      ensures Valid() && old(clock.Reading()) <= clock.Reading()
      ensures |nows| == |batch| && (View(), out) == C.Parse(old(View()), batch, hbMode, nows)
    {
      hide Valid, C.ParseOne, C.Parse;
      out, nows := [], [];
      assert (View(), out) == C.Parse(View(), [], hbMode, nows) by { C.ParseNone(View(), hbMode); }
      assert batch[..0] == [];
      for i := 0 to |batch|
        invariant Valid() && old(clock.Reading()) <= clock.Reading()
        invariant |nows| == i && (View(), out) == C.Parse(old(View()), batch[..i], hbMode, nows)
      {
        ghost var c := View();
        var one;
        ghost var now;
        one, now := ParseSafer(batch[i], hbMode, raws[i]);
        C.ParseGrows(old(View()), batch, hbMode, nows, i, now);
        assert one == [] ==> out + one == out;
        nows := nows + [now];
        out := out + one;
      }
      assert batch[..|batch|] == batch;
    }

    /** `client_on_raw_recv` in handshake2 or ready: the delivered messages one by one.  Those of a packet from another
        address than the server's are dropped once they are parsed. */
    method OnChannel(batch: seq<Packet>, addrOk: bool, d: Draws, raw: Raws, rawNow: nat, raws: seq<nat>, clear: (nat, nat, nat))
      returns (sent: seq<Packet>, out: seq<Packet>, ghost nows: seq<nat>, ghost now: nat, ghost heard: seq<nat>, ghost e: C.Env)
      requires Valid() && |raws| == |batch|
      modifies this, window`antiReplaySeq, window`maxPacketReceived, window`filter, window.window, convs, convs.lru, clock
      ensures Valid() && old(clock.Reading()) <= clock.Reading()
      ensures |nows| == |batch| && out == C.Parse(old(View()), batch, d.hbMode, nows).1 && |heard| == |out|
      ensures var c := C.Parse(old(View()), batch, d.hbMode, nows).0;
              C.Out(View(), sent) == if addrOk then C.HearAll(c, out, now, heard, e) else C.Out(c, [])
    {
      hide Valid, C.Parse, C.HearAll, C.Hear;
      out, nows := ParseBatch(batch, d.hbMode, raws);
      ghost var c := View();
      sent, now, heard, e := [], 0, [], EnvOf(d, false, 0, 0, 0, 0, 0);
      if !addrOk {
        heard := seq(|out|, _ => 0);
        return;
      }
      C.HearNone(c, now, e);
      assert out[..0] == [];
      for i := 0 to |out|
        invariant Valid() && old(clock.Reading()) <= clock.Reading()
        invariant |heard| == i && e.hbMode == d.hbMode
        invariant i > 0 ==> state != C.Handshake2
        invariant C.Out(View(), sent) == C.HearAll(c, out[..i], now, heard, e)
      {
        ghost var u := View();
        var more, to;
        ghost var n, h, f;
        more, to, n, h, f := OnSafer(out[i].msg, d, raw, rawNow, rawNow, rawNow, clear);
        C.HearGrows(c, out, now, heard, e, i, n, h, f);
        if i == 0 { now, e := n, f; }
        heard := heard + [h];
        sent := sent + more;
      }
      assert out[..|out|] == out;
    }

    method Touch(raw: nat) returns (ghost heard: nat)
      requires Valid()
      modifies this`lastHbRecvTime, clock
      ensures Valid() && old(clock.Reading()) <= clock.Reading()
      ensures heard == clock.Reading() && clock.At() == Clock.Read(old(clock.At()), raw)
      ensures View() == old(View()).(lastHbRecvTime := heard)
    {
      hide AntiReplay.Window.Valid, ConvManager.ConvManager.Valid, L.Lru.Valid, L.Linked, Clock.Read;
      lastHbRecvTime := clock.CurrentTime(raw);
      heard := lastHbRecvTime;
      ConvsStay();
    }

    /** `client_on_udp_recv`: finds or makes the conversation of a local peer, and sends when ready. */
    method OnUdp(addr: nat, draws: seq<nat>, raw1: nat, raw2: nat) returns (sent: seq<Packet>, conv: nat)
      requires Valid() && (addr !in convs.dataToConv ==> exists x <- draws :: x !in convs.convToData)
      modifies window`antiReplaySeq, convs`dataToConv, convs`convToData, convs.lru, clock
      ensures Valid() && old(clock.Reading()) <= clock.Reading()
      ensures var room := addr in old(convs.dataToConv) || |old(convs.convToData)| < ConvManager.MAX_CONV_NUM;
              && (room ==> conv in convs.convToData && convs.convToData[conv] == addr)
              && C.Out(View(), sent) == if room && state == C.Ready then C.SendSafer(old(View()), Data(conv)) else C.Out(old(View()), [])
    {
      hide AntiReplay.Window.Valid, ConvManager.ConvManager.Valid, L.Lru.Valid, L.Linked;
      sent := [];
      var ok;
      ok, conv := convs.ConvForPeer(addr, draws, raw1, raw2);
      if ok && state == C.Ready {
        sent := SendSafer(Data(conv));
      }
    }
  }

  lemma FewerConvs(m: map<nat, nat>, n: map<nat, nat>)
    requires m.Keys <= n.Keys
    ensures |m| <= |n|
  {
    assert n.Keys == m.Keys + (n.Keys - m.Keys);
  }
}
