/** Whoever was heard from in the last four minutes is still served, over every run of the server's code with any
clients. */
module CodeSurvival {
  import opened Connection
  import opened Packets
  import opened Sessions
  import opened Handshake
  import opened HandshakeSteps
  import opened HandshakeServer
  import opened HandshakeRuns
  import opened HandshakeLink
  import opened ServerSurvival
  import C = ClientSteps
  import T = ServerTable
  import E = ServerEvents
  import H = ServerHandlers
  import P = ServerLoop
  import V = Server

  // ----- a run of the protocol is a run of the table -----

  lemma OneEvent(t: T.Table, ev: E.Event, u: T.Table)
    requires TableStep(t, ev, u)
    ensures TableRun(t, [ev], u)
  {
    hide T.Inv, E.Step, E.Enabled;
    E.StepKeeps(t, ev);
    NoEvents(u);
    assert [ev][1..] == [];
    assert E.Possible(u, [ev][1..]) && E.Run(u, [ev][1..]) == u;
  }

  /** What one step of the protocol does to the table. */
  lemma StepIsTableRun(s: Sys, a: Action) returns (events: seq<E.Event>)
    requires T.Inv(s.table) && Enabled(s, a)
    ensures TableRun(s.table, events, Step(s, a).table)
  {
    hide T.Inv, E.Step, E.Enabled, E.Possible, E.Run, Sess, TableStep, Parsed, C.OnTimer, C.Parse, C.HearAll, Replays, Answered;
    NoEvents(s.table);
    match a
    case ServerQuiet(ev, t) =>
      OneEvent(s.table, ev, t);
      events := [ev];
    case ServerOpens(addr, c, r, pos, t, p, _, _) =>
      OneEvent(s.table, E.Arrives(addr, c, r, pos), t);
      events := [E.Arrives(addr, c, r, pos)];
    case ServerShakes(c, p, f, fd, t, o, _, _, _) =>
      OneEvent(s.table, E.Answers(c, p.first, p.third, f, fd), t);
      events := [E.Answers(c, p.first, p.third, f, fd)];
    case ServerSafer(c, batch, evs, t) =>
      events := evs;
    case _ =>
      events := [];
  }

  lemma RunsJoin(t: T.Table, a: seq<E.Event>, u: T.Table, b: seq<E.Event>, v: T.Table)
    requires TableRun(t, a, u) && TableRun(u, b, v)
    ensures TableRun(t, a + b, v)
  {
    hide T.Inv, E.Possible, E.Run;
    E.RunKeeps(t, a);
    EventsAppend(t, a, b);
  }

  lemma TableOk(s: Sys)
    requires Inv(s)
    ensures T.Inv(s.table)
  {
  }

  lemma {:induction false} RunIsTableRun(s: Sys, run: seq<Action>) returns (events: seq<E.Event>)
    requires Inv(s) && Possible(s, run)
    ensures TableRun(s.table, events, Run(s, run).table)
    decreases |run|
  {
    hide Inv, T.Inv, Step, Enabled, E.Possible, E.Run;
    TableOk(s);
    if run == [] {
      NoEvents(s.table);
      events := [];
    } else {
      var first := StepIsTableRun(s, run[0]);
      StepKeeps(s, run[0]);
      var rest := RunIsTableRun(Step(s, run[0]), run[1..]);
      RunsJoin(s.table, first, Step(s, run[0]).table, rest, Run(s, run).table);
      events := first + rest;
    }
  }

  // ----- the code -----

  /** Over every run of the server's code with any clients, a ready connection that was heard from since `heard` is still
  there, ready and heard from since then, as long as that is not more than four minutes ago. */
  lemma HeardStays(s: Sys, x: P.Loop, moves: seq<Move>, k: Config, c: ConnInfo, heard: nat)
    requires Inv(s) && Shows(s, x.s) && Plays(s, x, moves, k)
    requires c in x.s.t.recs && x.s.t.recs[c].state == Ready && heard <= x.s.t.recs[c].lastHbRecvTime
    requires Played(s, x, moves, k).1.s.t.now <= heard + 240000
    ensures var t := Played(s, x, moves, k).1.s.t;
            c in t.recs && t.recs[c].state == Ready && heard <= t.recs[c].lastHbRecvTime
  {
    hide Inv, Shows, Plays, Played, Possible, Run, E.Possible, E.Run, T.Inv;
    var run := PlayIsRun(s, x, moves, k);
    ShowsTable(s, x.s);
    ShowsTable(Run(s, run), Played(s, x, moves, k).1.s);
    var events := RunIsTableRun(s, run);
    RunSpares(s.table, events, c, heard);
  }

  // ----- what a packet renews -----

  /** A batch renews the time if and only if one of its messages shows that the peer is alive. */
  lemma {:induction false} BatchHeard(t: T.Table, c: ConnInfo, msgs: seq<Message>, hbMode: nat, fds: seq<int>, picks: seq<H.Pick>)
    requires c in t.recs && |msgs| == |fds| == |picks| && H.PicksFit(t, c, msgs, hbMode, fds, picks)
    ensures var u := H.Batch(t, c, msgs, hbMode, fds, picks);
            && t.now <= u.now
            && ((exists i :: 0 <= i < |msgs| && Lives(msgs[i], hbMode)) ==> t.now <= u.recs[c].lastHbRecvTime)
            && ((forall i :: 0 <= i < |msgs| ==> !Lives(msgs[i], hbMode)) ==>
                  u.recs[c].lastHbRecvTime == t.recs[c].lastHbRecvTime)
    decreases |msgs|
  {
    hide H.Told, E.OnMessage, E.Unissued;
    var n := |msgs| - 1;
    if n >= 0 {
      var v := H.Batch(t, c, msgs[..n], hbMode, fds[..n], picks[..n]);
      BatchHeard(t, c, msgs[..n], hbMode, fds[..n], picks[..n]);
      ToldHeard(v, c, msgs[n], hbMode, fds[n], picks[n]);
      forall i | 0 <= i < n && Lives(msgs[i], hbMode)
        ensures Lives(msgs[..n][i], hbMode) {
      }
    }
  }

  lemma ToldHeard(t: T.Table, c: ConnInfo, m: Message, hbMode: nat, fd: int, p: H.Pick)
    requires c in t.recs
    ensures var u := H.Told(t, c, m, hbMode, fd, p);
            && u.now == p.after
            && u.recs[c].lastHbRecvTime == if Lives(m, hbMode) then p.heard else t.recs[c].lastHbRecvTime
  {
  }

  /** A ready connection of which the server's code delivers a heartbeat, or in mode 0 data, stays for the next four
  minutes, whatever comes. */
  lemma HeardPeerStays(x: P.Loop, y: P.Loop, p: H.RawPacket, d: P.Done, s: Sys, moves: seq<Move>, k: Config, q: Packet)
    requires T.Inv(x.s.t) && P.Happens(x, y, P.Raw(p), d, k.hbMode, k.dummySocket) && !p.syn
    requires p.addr in x.s.t.mp && x.s.t.mp[p.addr] in x.s.t.recs && x.s.t.recs[x.s.t.mp[p.addr]].state == Ready
    requires q in d.out && q.Safer? && (q.msg == Heartbeat || (q.msg.Data? && k.hbMode == 0))
    requires Inv(s) && Shows(s, y.s) && Plays(s, y, moves, k)
    requires Played(s, y, moves, k).1.s.t.now <= x.s.t.now + 240000
    ensures var c, t := x.s.t.mp[p.addr], Played(s, y, moves, k).1.s.t;
            c in t.recs && t.recs[c].state == Ready && x.s.t.now <= t.recs[c].lastHbRecvTime
  {
    hide Inv, Shows, Plays, Played, T.Inv, H.ChannelDone;
    var c := x.s.t.mp[p.addr];
    ReadyPacket(x, y, p, d, k.hbMode, k.dummySocket);
    ChannelHeard(x.s, y.s, c, p.batch, k.hbMode, d.g.fds, d.out, d.tr, q);
    HeardStays(s, y, moves, k, c, x.s.t.now);
  }

  lemma ReadyPacket(x: P.Loop, y: P.Loop, p: H.RawPacket, d: P.Done, hbMode: nat, dummySocket: bool)
    requires T.Inv(x.s.t) && P.Happens(x, y, P.Raw(p), d, hbMode, dummySocket) && !p.syn
    requires p.addr in x.s.t.mp && x.s.t.mp[p.addr] in x.s.t.recs && x.s.t.recs[x.s.t.mp[p.addr]].state == Ready
    ensures d.Got? && H.ChannelDone(x.s, y.s, x.s.t.mp[p.addr], p.batch, hbMode, d.g.fds, d.out, d.tr)
  {
    hide T.Inv, H.ChannelDone;
  }

  lemma ChannelHeard(x: H.State, y: H.State, c: ConnInfo, batch: seq<Packet>, hbMode: nat, fds: seq<int>, out: seq<Packet>,
          tr: H.Trace, q: Packet)
    requires c in x.t.recs && x.t.recs[c].state == Ready && H.ChannelDone(x, y, c, batch, hbMode, fds, out, tr)
    requires q in out && q.Safer? && Lives(q.msg, hbMode)
    ensures c in y.t.recs && y.t.recs[c].state == Ready && x.t.now <= y.t.recs[c].lastHbRecvTime
  {
    hide H.Batch, H.BatchInside, H.PicksFit, V.AfterBatch, Parsed;
    var t, n, msgs := T.Tick(x.t, tr.at), |out|, H.MessagesOf(out);
    var i :| 0 <= i < n && out[i] == q;
    assert msgs[i] == q.msg;
    BatchHeard(t, c, msgs, hbMode, fds[..n], tr.picks);
    BatchReady(t, c, msgs, hbMode, fds[..n], tr.picks);
  }

  lemma {:induction false} BatchReady(t: T.Table, c: ConnInfo, msgs: seq<Message>, hbMode: nat, fds: seq<int>, picks: seq<H.Pick>)
    requires c in t.recs && |msgs| == |fds| == |picks|
    ensures H.Batch(t, c, msgs, hbMode, fds, picks).recs[c].state == t.recs[c].state
    decreases |msgs|
  {
    hide H.Told;
    var n := |msgs| - 1;
    if n >= 0 {
      BatchReady(t, c, msgs[..n], hbMode, fds[..n], picks[..n]);
      H.ToldStaysReady(H.Batch(t, c, msgs[..n], hbMode, fds[..n], picks[..n]), c, msgs[n], hbMode, fds[n], picks[n]);
    }
  }
}
