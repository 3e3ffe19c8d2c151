/** Runs of one client once it is ready: what keeps it ready, and how it comes back. */
module ClientRuns {
  import opened Packets
  import opened ClientSteps
  import AntiReplay

  /** The timer runs, a packet is delivered, or a delivered message is handled. */
  datatype Event =
    | Ticks(e: Env)
    | Gets(p: Packet, now: nat)
    | Hears(m: Message, now: nat, heard: nat, e: Env)

  predicate Fits(hbMode: nat, ev: Event) {
    match ev
    case Ticks(_) => true
    case Gets(p, _) => p.Safer?
    case Hears(_, _, _, e) => e.hbMode == hbMode
  }

  function After(c: Client, hbMode: nat, ev: Event): Client
    requires Fits(hbMode, ev)
  {
    match ev
    case Ticks(e) => OnTimer(c, e).client
    case Gets(p, now) => Rolled(c, p, hbMode, now)
    case Hears(m, now, heard, e) => Hear(c, m, now, heard, e).client
  }

  function AfterAll(c: Client, hbMode: nat, run: seq<Event>): Client
    requires forall ev <- run :: Fits(hbMode, ev)
  {
    if run == [] then c else After(AfterAll(c, hbMode, run[..|run| - 1]), hbMode, run[|run| - 1])
  }

  // ----- what the run says by itself -----

  /** When the server was last heard from, `t0` being the time before the run: a heartbeat, or in mode 0 data. */
  function HeardAt(t0: nat, hbMode: nat, run: seq<Event>): nat {
    if run == [] then t0
    else
      var ev := run[|run| - 1];
      if ev.Hears? && (ev.m == Heartbeat || (ev.m.Data? && hbMode == 0)) then ev.heard
      else HeardAt(t0, hbMode, run[..|run| - 1])
  }

  /** The roller of the last packet delivered. */
  function RollerOf(r0: nat, run: seq<Event>): nat {
    if run == [] then r0
    else
      var ev := run[|run| - 1];
      if ev.Gets? && ev.p.Safer? then ev.p.roller else RollerOf(r0, run[..|run| - 1])
  }

  /** When it last changed. */
  function ChangedAt(t0: nat, r0: nat, run: seq<Event>): nat {
    if run == [] then t0
    else
      var front, ev := run[..|run| - 1], run[|run| - 1];
      if ev.Gets? && ev.p.Safer? && ev.p.roller != RollerOf(r0, front) then ev.now else ChangedAt(t0, r0, front)
  }

  /** Whenever the timer runs, the server was heard from in the last 10 s and its roller changed in the last 12 s. */
  predicate InTouch(c: Client, hbMode: nat, run: seq<Event>) {
    run == [] ||
    var front, ev := run[..|run| - 1], run[|run| - 1];
    && InTouch(c, hbMode, front)
    && (ev.Ticks? ==>
          && ev.e.now1 - HeardAt(c.lastHbRecvTime, hbMode, front) <= 10000
          && ev.e.now2 - ChangedAt(c.lastRollerTime, c.oppositeRoller, front) <= 12000)
  }

  /** Over any run a ready client stays ready if and only if it stays in touch; then it keeps both ids, and its two times
  are those the run gives. */
  lemma {:induction false} ReadyWhileInTouch(c: Client, hbMode: nat, run: seq<Event>)
    requires c.state == Ready && !c.disabled && forall ev <- run :: Fits(hbMode, ev)
    ensures var d := AfterAll(c, hbMode, run);
            && (d.state == Ready <==> InTouch(c, hbMode, run)) && d.state != Handshake2
            && (d.state == Ready ==>
                  && !d.disabled && d.myId == c.myId && d.oppositeId == c.oppositeId
                  && d.lastHbRecvTime == HeardAt(c.lastHbRecvTime, hbMode, run)
                  && d.oppositeRoller == RollerOf(c.oppositeRoller, run)
                  && d.lastRollerTime == ChangedAt(c.lastRollerTime, c.oppositeRoller, run))
  {
    if run != [] {
      var front, ev := run[..|run| - 1], run[|run| - 1];
      assert ev in run && forall x <- front :: x in run;
      ReadyWhileInTouch(c, hbMode, front);
      var d := AfterAll(c, hbMode, front);
      hide OnTimer;
      if ev.Ticks? {
        TimerStates(d, ev.e);
        if d.state == Ready { ReadyTimer(d, ev.e); }
      }
    }
  }

  // ----- a raw packet is such a run -----

  lemma AfterMore(c: Client, hbMode: nat, run: seq<Event>, ev: Event)
    requires (forall x <- run :: Fits(hbMode, x)) && Fits(hbMode, ev)
    ensures forall x <- run + [ev] :: Fits(hbMode, x)
    ensures AfterAll(c, hbMode, run + [ev]) == After(AfterAll(c, hbMode, run), hbMode, ev)
  {
    assert (run + [ev])[..|run|] == run;
  }

  /** Parsing its batch delivers some of the packets; but for the window, that is all it does to the client. */
  lemma {:induction false} ParsingIsRun(c: Client, batch: seq<Packet>, hbMode: nat, nows: seq<nat>) returns (run: seq<Event>)
    requires |nows| == |batch|
    ensures var (d, out) := Parse(c, batch, hbMode, nows);
            && |run| == |out| && (forall i :: 0 <= i < |out| ==> run[i].Gets? && run[i].p == out[i])
            && (forall ev <- run :: Fits(hbMode, ev)) && AfterAll(c, hbMode, run) == d.(filter := c.filter)
  {
    run := [];
    if batch != [] {
      var n := |batch| - 1;
      run := ParsingIsRun(c, batch[..n], hbMode, nows[..n]);
      var d := Parse(c, batch[..n], hbMode, nows[..n]).0;
      if Delivers(d.filter, d.myId, d.oppositeId, batch[n]) {
        AfterMore(c, hbMode, run, Gets(batch[n], nows[n]));
        run := run + [Gets(batch[n], nows[n])];
      }
    }
  }

  /** And so is the handling of what was delivered. */
  lemma {:induction false} HandlingIsRun(c: Client, msgs: seq<Packet>, now: nat, heard: seq<nat>, e: Env) returns (run: seq<Event>)
    requires |heard| == |msgs| && forall p <- msgs :: p.Safer?
    ensures |run| == |msgs| && forall i :: 0 <= i < |msgs| ==> msgs[i] in msgs && run[i] == Hears(msgs[i].msg, now, heard[i], e)
    ensures (forall ev <- run :: Fits(e.hbMode, ev)) && AfterAll(c, e.hbMode, run) == HearAll(c, msgs, now, heard, e).client
  {
    hide Hear;
    run := [];
    if msgs != [] {
      var n := |msgs| - 1;
      assert msgs[n] in msgs;
      run := HandlingIsRun(c, msgs[..n], now, heard[..n], e);
      AfterMore(c, e.hbMode, run, Hears(msgs[n].msg, now, heard[n], e));
      run := run + [Hears(msgs[n].msg, now, heard[n], e)];
    }
  }

  // ----- the ways out of the other states -----

  /** Once a ready client is out of touch, its next two timer calls end the session and begin a new one: a fresh id, an empty
  window, and the first handshake of its mode. */
  lemma OutOfTouchReconnects(c: Client, e: Env, f: Env)
    requires c.state == Ready && !c.disabled && f.srcOk && f.now1 - f.now0 <= 5000
    requires e.now1 - c.lastHbRecvTime > 10000 || e.now2 - c.lastRollerTime > 12000
    ensures var d := OnTimer(OnTimer(c, e).client, f);
            && d.client.myId == f.idB && d.client.filter == AntiReplay.Fresh(f.slot0) && d.client.lastStateTime == f.now0
            && d.client.state == (if f.mode.FakeTcp? then (if f.mode.dummySocket then TcpHandshakeDummy else TcpHandshake)
                                  else Handshake1)
            && d.sent == if d.client.state == Handshake1 && f.now2 > 1000 then [Bare(f.idB, 0, c.constId, f.junk)] else []
  {
    hide OnTimer;
    TimerStates(c, e);
    ReadyTimer(c, e);
    IdleTimer(OnTimer(c, e).client, f);
  }

  /** A SYN-ACK starts the first handshake and the answer to it the second; unless the clock leaps, the new state's packet
  goes out at once. */
  lemma HandshakeGoesOn(c: Client, p: Packet, now: nat, e: Env)
    requires !c.disabled && e.now1 - now <= 5000 && e.now2 > 1000
    ensures c.state in {TcpHandshake, TcpHandshakeDummy} ==>
              var o := OnSynAck(c, now, e);
              && o.client == c.(state := Handshake1, lastStateTime := now, lastHbSentTime := e.now3)
              && o.sent == [Bare(c.myId, 0, c.constId, e.junk)]
    ensures c.state == Handshake1 && p.Bare? && p.second == c.myId ==>
              var o := OnBare(c, p, now, e);
              && o.client == c.(state := Handshake2, oppositeId := p.first, lastStateTime := now, lastHbSentTime := e.now3)
              && o.sent == [Bare(c.myId, p.first, c.constId, e.junk)]
    ensures c.state == Handshake1 && !(p.Bare? && p.second == c.myId) ==> OnBare(c, p, now, e) == Out(c, [])
  {
    hide OnTimer;
    if c.state in {TcpHandshake, TcpHandshakeDummy} {
      ShakeTimer(c.(state := Handshake1, lastStateTime := now, lastHbSentTime := 0), e);
    }
    if c.state == Handshake1 && p.Bare? && p.second == c.myId {
      ShakeTimer(c.(oppositeId := p.first, state := Handshake2, lastStateTime := now, lastHbSentTime := 0), e);
    }
  }

  /** The first message delivered in the second handshake makes the client ready, in touch from now, and a heartbeat goes
  out at once. */
  lemma FirstMessageMakesReady(c: Client, m: Message, now: nat, heard: nat, e: Env)
    requires c.state == Handshake2 && !c.disabled && e.now1 - now <= 10000 && e.now2 - now <= 12000 && e.now3 >= 600
    ensures var o := Hear(c, m, now, heard, e);
            && o.client.state == Ready && o.client.myId == c.myId && o.client.lastRollerTime == now
            && o.client.lastHbRecvTime == (if m == Heartbeat || (m.Data? && e.hbMode == 0) then heard else now)
            && o.sent == [Safer(c.myId, c.oppositeId, c.sendSeq, Heartbeat, c.myRoller)]
  {
    hide OnTimer;
    ReadyTimer(c.(state := Ready, lastHbSentTime := 0, lastHbRecvTime := now, lastRollerTime := now), e);
  }
}
