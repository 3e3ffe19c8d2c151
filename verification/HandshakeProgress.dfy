/** The handshake can always be completed: from every reachable state any client can connect, again and again,
while the server has room for it. */
module HandshakeProgress {
  import opened Connection
  import opened Packets
  import opened Sessions
  import opened Handshake
  import opened HandshakeSteps
  import opened HandshakeServer
  import opened HandshakeRuns
  import AntiReplay
  import C = ClientSteps
  import T = ServerTable
  import ServerSteps
  import E = ServerEvents

  // ----- runs in a row -----

  lemma {:induction false} RunsJoin(s: Sys, run: seq<Action>, more: seq<Action>)
    requires Possible(s, run) && Possible(Run(s, run), more)
    ensures Possible(s, run + more) && Run(s, run + more) == Run(Run(s, run), more)
    decreases |run|
  {
    hide Enabled, Step;
    if run == [] {
      assert run + more == more;
    } else {
      RunsJoin(Step(s, run[0]), run[1..], more);
      assert (run + more)[0] == run[0] && (run + more)[1..] == run[1..] + more;
    }
  }

  lemma RunOfOne(s: Sys, a: Action)
    requires Enabled(s, a)
    ensures Possible(s, [a]) && Run(s, [a]) == Step(s, a)
  {
    hide Enabled, Step;
    assert [a][1..] == [];
    assert Possible(Step(s, a), []);
  }

  // ----- send numbers of the server -----

  /** A ready connection has sent something, so its next number is not 0, which the client's window would refuse. */
  ghost predicate NumbersStarted(s: Sys) {
    forall o :: o in s.seqs ==> s.seqs[o] >= 1
  }

  lemma StepNumbers(s: Sys, a: Action)
    requires Enabled(s, a) && NumbersStarted(s)
    ensures NumbersStarted(Step(s, a))
  {
    hide TableStep, TableRun, C.OnTimer, C.OnSynAck, C.OnBare, C.SendSafer, Heard, Sess, C.Parse, C.HearAll, Parsed, Replays, FreshIds, Answered;
    if a.ServerShakes? {
      ShakenNumbers(s, a.t, a.c, a.p, a.o, a.slot0, a.firstSeq, a.roller);
    }
  }

  lemma ShakenNumbers(s: Sys, t: T.Table, c: ConnInfo, p: Packet, o: ConnInfo, slot0: bool, firstSeq: nat, roller: nat)
    requires NumbersStarted(s) && p.Bare? && c in Sess(s.table)
    requires Sess(t) == Sess(s.table) - {c} || Answered(Sess(s.table), Sess(t), c, o, p.first, p.third)
    ensures NumbersStarted(Shaken(s, t, c, p, o, slot0, firstSeq, roller))
  {
    hide Sess;
  }

  lemma {:induction false} RunNumbers(s: Sys, run: seq<Action>)
    requires NumbersStarted(s) && Possible(s, run)
    ensures NumbersStarted(Run(s, run))
    decreases |run|
  {
    hide Enabled, Step, NumbersStarted;
    if run != [] {
      StepNumbers(s, run[0]);
      RunNumbers(Step(s, run[0]), run[1..]);
    }
  }

  // ----- a client that is not delayed -----

  /** A call within one millisecond, at any time after the first second: nothing times out, every packet is due. */
  function Prompt(mode: C.RawMode, slot0: bool, idA: nat, idB: nat, junk: Junk, now: nat): C.Env {
    C.Env(mode, 0, true, slot0, idA, idB, junk, now, now, now, now, now)
  }

  predicate IsPrompt(e: C.Env) {
    e == Prompt(e.mode, e.slot0, e.idA, e.idB, e.junk, e.now0) && e.now0 > C.RETRY_INTERVAL
  }

  lemma IdleTimer(c: C.Client, e: C.Env)
    requires c.state == C.Idle && IsPrompt(e)
    ensures var o := C.OnTimer(c, e);
            && o.client.myId == e.idB && o.client.filter == AntiReplay.Fresh(e.slot0) && o.client.constId == c.constId && !o.client.disabled
            && (e.mode.FakeTcp? ==> o.client.state in {C.TcpHandshake, C.TcpHandshakeDummy})
            && (!e.mode.FakeTcp? ==> o.client.state == C.Handshake1 && o.sent == [Bare(e.idB, 0, c.constId, e.junk)])
  {
  }

  lemma SynAckTimer(c: C.Client, e: C.Env)
    requires c.state in {C.TcpHandshake, C.TcpHandshakeDummy} && !c.disabled && IsPrompt(e)
    ensures var o := C.OnSynAck(c, e.now0, e);
            && o.client.state == C.Handshake1 && o.client.myId == c.myId && o.client.filter == c.filter
            && o.client.constId == c.constId && !o.client.disabled && o.sent == [Bare(c.myId, 0, c.constId, e.junk)]
  {
  }

  lemma BareTimer(c: C.Client, p: Packet, e: C.Env)
    requires c.state == C.Handshake1 && !c.disabled && p.Bare? && p.second == c.myId && IsPrompt(e)
    ensures var o := C.OnBare(c, p, e.now0, e);
            && o.client.state == C.Handshake2 && o.client.myId == c.myId && o.client.oppositeId == p.first && o.client.filter == c.filter
            && o.client.constId == c.constId && !o.client.disabled && o.sent == [Bare(c.myId, p.first, c.constId, e.junk)]
  {
  }

  lemma HeartbeatEnters(c: C.Client, p: Packet, slot0: bool, e: C.Env)
    requires c.state == C.Handshake2 && !c.disabled && c.filter == AntiReplay.Fresh(slot0) && IsPrompt(e)
    requires p.Safer? && p.from == c.oppositeId && p.to == c.myId && p.seqNo >= 1 && p.msg == Heartbeat
    ensures |C.Parse(c, [p], 0, [e.now0]).1| == 1
    ensures var d := Heard(c, [p], true, [e.now0], e.now0, [e.now0], e).client;
            d.state == C.Ready && d.myId == c.myId && d.oppositeId == c.oppositeId && d.constId == c.constId
  {
    C.ParseNone(c, 0);
    assert [p][..0] == [] && [e.now0][..0] == [];
    var (d, out) := C.Parse(c, [p], 0, [e.now0]);
    assert d == C.ParseOne(c, p, 0, e.now0) && out == [p];
    C.HearNone(d, e.now0, e);
    assert out[..0] == [];
    EnteredStaysReady(d, e);
  }

  lemma EnteredStaysReady(c: C.Client, e: C.Env)
    requires c.state == C.Handshake2 && !c.disabled && IsPrompt(e)
    ensures var d := C.Entered(c, e.now0, e).client;
            d.state == C.Ready && d.myId == c.myId && d.oppositeId == c.oppositeId && d.constId == c.constId
  {
  }

  // ----- the steps of one connection -----

  /** What a run for client `i` leaves alone. */
  ghost predicate OnlyClient(s: Sys, u: Sys, i: nat) {
    && u.clients.Keys == s.clients.Keys && i in s.clients && u.clients[i].constId == s.clients[i].constId
    && forall j :: j in s.clients && j != i ==> u.clients[j] == s.clients[j]
  }

  /** Client `i` waits for the answer to its first handshake packet. */
  ghost predicate Asking(s: Sys, i: nat, id: nat, slot0: bool) {
    && i in s.clients && s.clients[i].state == C.Handshake1 && s.clients[i].myId == id && !s.clients[i].disabled
    && s.clients[i].filter == AntiReplay.Fresh(slot0)
    && exists junk: Junk :: Bare(id, 0, s.clients[i].constId, junk) in s.up
  }

  lemma OnlyPut(s: Sys, u: Sys, i: nat, d: C.Client)
    requires i in s.clients && u.clients == s.clients[i := d] && d.constId == s.clients[i].constId
    ensures OnlyClient(s, u, i)
  {
  }

  lemma OneSent(p: Packet)
    ensures p in Elems([p])
  {
  }

  /** The timer of an idle client, and in fake TCP the SYN-ACK after it. */
  lemma Begins(s: Sys, i: nat, e: C.Env, e2: C.Env) returns (run: seq<Action>)
    requires Inv(s) && i in s.clients && s.clients[i].state == C.Idle
    requires IsPrompt(e) && FreshIds(s, e)
    requires IsPrompt(e2) && FreshIds(s, e2) && Fresh2(e) !! Fresh2(e2)
    ensures Possible(s, run)
    ensures var u := Run(s, run);
            && Asking(u, i, e.idB, e.slot0) && OnlyClient(s, u, i) && u.table == s.table && u.seqs == s.seqs
            && u.used <= s.used + Fresh2(e) + Fresh2(e2) && e.idB in u.used
  {
    hide Inv, C.OnTimer, C.OnSynAck;
    var c := s.clients[i];
    var a := ClientTimer(i, e);
    RunOfOne(s, a);
    IdleTimer(c, e);
    var o := C.OnTimer(c, e);
    var u := Step(s, a);
    OnlyPut(s, u, i, o.client);
    if e.mode.FakeTcp? {
      var b := ClientSynAck(i, e2.now0, e2);
      RunOfOne(u, b);
      SynAckTimer(o.client, e2);
      var v := Step(u, b);
      OnlyPut(u, v, i, C.OnSynAck(o.client, e2.now0, e2).client);
      OneSent(Bare(e.idB, 0, c.constId, e2.junk));
      assert Bare(e.idB, 0, c.constId, e2.junk) in v.up;
      RunsJoin(s, [a], [b]);
      run := [a] + [b];
    } else {
      OneSent(Bare(e.idB, 0, c.constId, e.junk));
      assert Bare(e.idB, 0, c.constId, e.junk) in u.up;
      run := [a];
    }
  }

  lemma InvTable(s: Sys)
    requires Inv(s)
    ensures T.Inv(s.table)
  {
  }

  const NO_JUNK: Junk := Junk(0, 0, 0)

  /** The server lets a new address in and answers. */
  lemma Opens(s: Sys, i: nat, id: nat, slot0: bool, a: Address, c: ConnInfo, sid: nat) returns (act: Action)
    requires Inv(s) && Asking(s, i, id, slot0) && sid !in s.used
    requires a !in s.table.mp && c !in s.table.recs && |s.table.mp| < T.MAX_HANDSHAKE_CONN_NUM
    ensures Enabled(s, act)
    ensures var u := Step(s, act);
            && u.clients == s.clients && u.seqs == s.seqs && u.up == s.up && u.used == s.used + {sid}
            && Bare(sid, id, 0, NO_JUNK) in u.down && Waiting(u.table, c, sid)
            && u.table.constIdMp == s.table.constIdMp && u.table.readyNum == s.table.readyNum && u.table.fds == s.table.fds
  {
    hide Inv, T.Inv, Sess;
    InvTable(s);
    var r := T.Rec(Handshake1, a, s.table.now, 0, sid, 0, 0, 0, false, map[]);
    var junk: Junk :| Bare(id, 0, s.clients[i].constId, junk) in s.up;
    var ev := E.Arrives(a, c, r, 0);
    ArrivalSession(s.table, a, c, r, 0);
    act := ServerOpens(a, c, r, 0, E.Step(s.table, ev), Bare(id, 0, s.clients[i].constId, junk), 0, NO_JUNK);
  }

  /** A connection the server just opened, with its id. */
  ghost predicate Waiting(t: T.Table, c: ConnInfo, sid: nat) {
    && c in Sess(t) && Sess(t)[c] == Shaking(sid)
    && c in t.recs && t.recs[c].state == Handshake1 && t.recs[c].myId == sid && t.recs[c].lastStateTime == t.now
  }

  /** The client takes the answer and confirms it. */
  lemma Confirms(s: Sys, i: nat, id: nat, slot0: bool, sid: nat, e: C.Env) returns (act: Action)
    requires Asking(s, i, id, slot0) && Bare(sid, id, 0, NO_JUNK) in s.down
    requires IsPrompt(e) && FreshIds(s, e)
    ensures Enabled(s, act)
    ensures var u := Step(s, act);
            && Confirmed(u, i, id, slot0, sid) && OnlyClient(s, u, i)
            && u.table == s.table && u.seqs == s.seqs && u.used == s.used + Fresh2(e)
            && Bare(id, sid, s.clients[i].constId, e.junk) in u.up
  {
    hide C.OnTimer, C.OnBare;
    var p := Bare(sid, id, 0, NO_JUNK);
    act := ClientBare(i, p, e.now0, e);
    BareTimer(s.clients[i], p, e);
    OnlyPut(s, Step(s, act), i, C.OnBare(s.clients[i], p, e.now0, e).client);
    OneSent(Bare(id, sid, s.clients[i].constId, e.junk));
  }

  ghost predicate Confirmed(s: Sys, i: nat, id: nat, slot0: bool, sid: nat) {
    && i in s.clients && s.clients[i].state == C.Handshake2 && s.clients[i].myId == id && s.clients[i].oppositeId == sid
    && s.clients[i].filter == AntiReplay.Fresh(slot0) && !s.clients[i].disabled
  }

  /** There is room for a ready connection of const id `k`, or there is one to recover. */
  ghost predicate HasRoom(t: T.Table, k: nat) {
    k in t.constIdMp || t.readyNum < T.MAX_READY_CONN_NUM
  }

  /** The table after the confirmation: the const id is served with the new ids. */
  lemma TableServes(t: T.Table, c: ConnInfo, id: nat, k: nat, f: nat, fd: int)
    requires T.Inv(t) && E.Enabled(t, E.Answers(c, id, k, f, fd)) && HasRoom(t, k) && t.recs[c].lastStateTime == t.now
    ensures var u := E.Step(t, E.Answers(c, id, k, f, fd));
            exists o :: o in u.recs && u.recs[o].state == Ready && u.recs[o].myId == t.recs[c].myId
  {
    hide T.Inv;
    var s := T.SetRec(t, c, t.recs[c].(oppositeId := id));
    ServerSteps.IdSetKeeps(t, c, id);
    E.HandshakeOutcome(s, c, k, f, fd);
    if k in s.constIdMp {
      E.IndexedIsReady(s, k);
      NotLater(s, s.constIdMp[k]);
    }
    var u := E.PreReady(s, c, k, f, fd);
    assert u == E.Step(t, E.Answers(c, id, k, f, fd));
    assert u.recs[u.constIdMp[k]].state == Ready && u.recs[u.constIdMp[k]].myId == s.recs[c].myId;
  }

  lemma NotLater(t: T.Table, o: ConnInfo)
    requires T.Inv(t) && o in t.recs
    ensures t.recs[o].lastStateTime <= t.now
  {
    T.ConnAt(t, o);
  }

  /** The server's side of a completed handshake. */
  ghost predicate Served2(s: Sys, o: ConnInfo, id: nat, sid: nat, k: nat) {
    IsServing(s, o) && Sess(s.table)[o] == Established(sid, id, k)
  }

  /** The server takes the confirmation and sends its first channel packet. */
  lemma Serves(s: Sys, c: ConnInfo, sid: nat, p: Packet, f: nat) returns (act: Action, o: ConnInfo, hb: Packet)
    requires p in s.up && p.Bare? && p.second == sid != 0
    requires Inv(s) && NumbersStarted(s) && Waiting(s.table, c, sid) && HasRoom(s.table, p.third) && E.Unissued(s.table, f)
    ensures Enabled(s, act)
    ensures var u := Step(s, act);
            && u.clients == s.clients && u.used == s.used && Served2(u, o, p.first, sid, p.third)
            && hb in u.down && hb.Safer? && hb.from == sid && hb.to == p.first && hb.seqNo >= 1 && hb.msg == Heartbeat
  {
    hide Inv, T.Inv, Sess, Answered, Served2, TableStep, FreshIds, HasRoom, E.Unissued, NumbersStarted, Step;
    var ev := E.Answers(c, p.first, p.third, f, 0);
    InvTable(s);
    AnswersEnabled(s.table, c, sid, p.first, p.third, f);
    o := ShakesIsPossible(s, c, p, f, 0, false, 1, 0);
    var t := E.Step(s.table, ev);
    act := ServerShakes(c, p, f, 0, t, o, false, 1, 0);
    TableServes(s.table, c, p.first, p.third, f, 0);
    NotRetired(s, c, t, sid);
    hb := NowServed(s, c, sid, p, t, o);
    StepIsShaken(s, c, p, f, t, o);
  }

  lemma AnswersEnabled(t: T.Table, c: ConnInfo, sid: nat, id: nat, k: nat, f: nat)
    requires Waiting(t, c, sid) && E.Unissued(t, f)
    ensures E.Enabled(t, E.Answers(c, id, k, f, 0))
  {
  }

  lemma StepIsShaken(s: Sys, c: ConnInfo, p: Packet, f: nat, t: T.Table, o: ConnInfo)
    requires Enabled(s, ServerShakes(c, p, f, 0, t, o, false, 1, 0))
    ensures p.Bare? && c in Sess(s.table)
    ensures Sess(t) == Sess(s.table) - {c} || Answered(Sess(s.table), Sess(t), c, o, p.first, p.third)
    ensures Step(s, ServerShakes(c, p, f, 0, t, o, false, 1, 0)) == Shaken(s, t, c, p, o, false, 1, 0)
  {
    hide Sess, Answered, TableStep, Shaken;
  }

  /** What the answer leaves when it does not end the session. */
  lemma NowServed(s: Sys, c: ConnInfo, sid: nat, p: Packet, t: T.Table, o: ConnInfo) returns (hb: Packet)
    requires p.Bare? && p.second == sid && c in Sess(s.table) && Sess(s.table)[c] == Shaking(sid) && NumbersStarted(s)
    requires Sess(t) != Sess(s.table) - {c} && Answered(Sess(s.table), Sess(t), c, o, p.first, p.third)
    ensures var u := Shaken(s, t, c, p, o, false, 1, 0);
            && u.clients == s.clients && u.used == s.used && Served2(u, o, p.first, sid, p.third)
            && hb in u.down && hb.Safer? && hb.from == sid && hb.to == p.first && hb.seqNo >= 1 && hb.msg == Heartbeat
  {
    hide Sess;
    hb := SaferFrom(Serving(s, t, p, o, false, 1), o, Heartbeat, 0);
  }

  /** Nobody else had the id, so its session was not just ended. */
  lemma NotRetired(s: Sys, c: ConnInfo, t: T.Table, sid: nat)
    requires Inv(s) && Waiting(s.table, c, sid)
    requires exists o :: o in t.recs && t.recs[o].state == Ready && t.recs[o].myId == sid
    ensures Sess(t) != Sess(s.table) - {c}
  {
    hide T.Inv;
    var o :| o in t.recs && t.recs[o].state == Ready && t.recs[o].myId == sid;
    assert o in Sess(t) && Sess(t)[o].myId == sid;
  }

  /** The server's packet makes the client ready. */
  lemma Enters(s: Sys, i: nat, id: nat, slot0: bool, sid: nat, hb: Packet, e: C.Env) returns (act: Action)
    requires Confirmed(s, i, id, slot0, sid) && hb in s.down
    requires hb.Safer? && hb.from == sid && hb.to == id && hb.seqNo >= 1 && hb.msg == Heartbeat
    requires IsPrompt(e) && FreshIds(s, e)
    ensures Enabled(s, act)
    ensures var u := Step(s, act);
            && OnlyClient(s, u, i) && u.table == s.table && u.filters == s.filters && u.seqs == s.seqs
            && u.clients[i].state == C.Ready && u.clients[i].myId == id && u.clients[i].oppositeId == sid
  {
    hide C.OnTimer, C.Parse, C.HearAll, Heard;
    act := ClientSafer(i, [hb], true, [e.now0], e.now0, [e.now0], e);
    HeartbeatEnters(s.clients[i], hb, slot0, e);
    OnlyPut(s, Step(s, act), i, Heard(s.clients[i], [hb], true, [e.now0], e.now0, [e.now0], e).client);
  }

  // ----- the whole connection -----

  /** `n` ids drawn one after another. */
  ghost predicate Draws(ids: seq<nat>, used: set<nat>) {
    && (forall x <- ids :: x !in used && x != 0)
    && forall i, j :: 0 <= i < j < |ids| ==> ids[i] != ids[j]
  }

  /** Client `i` is connected: both ends are ready with mirrored ids. */
  ghost predicate Connected(s: Sys, i: nat, o: ConnInfo) {
    && i in s.clients && s.clients[i].state == C.Ready
    && Served2(s, o, s.clients[i].myId, s.clients[i].oppositeId, s.clients[i].constId)
  }

  lemma OnlyTwice(s: Sys, u: Sys, v: Sys, i: nat)
    requires OnlyClient(s, u, i) && OnlyClient(u, v, i)
    ensures OnlyClient(s, v, i)
  {
  }

  lemma OnlyNone(s: Sys, u: Sys, i: nat)
    requires i in s.clients && u.clients == s.clients
    ensures OnlyClient(s, u, i)
  {
  }

  lemma DrawnFresh(ids: seq<nat>, used: set<nat>, s: Sys, mode: C.RawMode, now: nat, j: nat)
    requires Draws(ids, used) && j + 1 < |ids| && s.used <= used + Taken(ids, j)
    ensures FreshIds(s, Prompt(mode, false, ids[j], ids[j + 1], NO_JUNK, now)) && ids[j] !in s.used && ids[j] != 0
    ensures s.used + Fresh2(Prompt(mode, false, ids[j], ids[j + 1], NO_JUNK, now)) <= used + Taken(ids, j + 2)
    ensures s.used + {ids[j]} <= used + Taken(ids, j + 1)
  {
    assert ids[j] in ids && ids[j + 1] in ids;
  }

  ghost function Taken(ids: seq<nat>, n: nat): set<nat>
    requires n <= |ids|
  {
    set i | 0 <= i < n :: ids[i]
  }

  /** A client in any state starts over and asks. */
  lemma Asks(s: Sys, i: nat, mode: C.RawMode, now: nat, ids: seq<nat>) returns (run: seq<Action>)
    requires now > C.RETRY_INTERVAL
    requires Inv(s) && i in s.clients && Draws(ids, s.used) && |ids| == 10
    ensures Possible(s, run)
    ensures var u := Run(s, run);
            && Asking(u, i, ids[2], false) && OnlyClient(s, u, i) && u.table == s.table && u.used <= s.used + Taken(ids, 5)
  {
    hide Inv, Draws, FreshIds, Asking, OnlyClient, Possible, Run, Taken;
    TakenNone(ids);
    DrawnFresh(ids, s.used, s, mode, now, 0);
    var a := ClientReconnects(i, ids[0]);
    var u := Step(s, a);
    OnlyPut(s, u, i, u.clients[i]);
    RunOfOne(s, a);
    StepKeeps(s, a);
    var e, e2 := Prompt(mode, false, ids[1], ids[2], NO_JUNK, now), Prompt(mode, false, ids[3], ids[4], NO_JUNK, now);
    DrawnFresh(ids, s.used, u, mode, now, 1);
    LaterFresh(ids, s.used, u, mode, now);
    var more := Begins(u, i, e, e2);
    RunsJoin(s, [a], more);
    run := [a] + more;
    OnlyTwice(s, u, Run(u, more), i);
  }

  lemma TakenNone(ids: seq<nat>)
    ensures Taken(ids, 0) == {}
  {
  }

  lemma LaterFresh(ids: seq<nat>, used: set<nat>, u: Sys, mode: C.RawMode, now: nat)
    requires Draws(ids, used) && |ids| == 10 && u.used <= used + Taken(ids, 1)
    ensures var e, e2 := Prompt(mode, false, ids[1], ids[2], NO_JUNK, now), Prompt(mode, false, ids[3], ids[4], NO_JUNK, now);
            FreshIds(u, e2) && Fresh2(e) !! Fresh2(e2) && u.used + Fresh2(e) + Fresh2(e2) <= used + Taken(ids, 5)
  {
  }

  /** The server lets the asking client in, and the client confirms. */
  lemma Meets(s: Sys, i: nat, mode: C.RawMode, now: nat, a: Address, c: ConnInfo, ids: seq<nat>, used: set<nat>) returns (a1: Action, a2: Action)
    requires now > C.RETRY_INTERVAL
    requires Inv(s) && NumbersStarted(s) && |ids| == 10 && Asking(s, i, ids[2], false)
    requires a !in s.table.mp && c !in s.table.recs && |s.table.mp| < T.MAX_HANDSHAKE_CONN_NUM
    requires Draws(ids, used) && s.used <= used + Taken(ids, 5)
    ensures Enabled(s, a1) && Enabled(Step(s, a1), a2)
    ensures var u := Step(Step(s, a1), a2);
            && Inv(u) && NumbersStarted(u) && OnlyClient(s, u, i) && Confirmed(u, i, ids[2], false, ids[5])
            && Waiting(u.table, c, ids[5]) && u.used <= used + Taken(ids, 8) && Bare(ids[2], ids[5], s.clients[i].constId, NO_JUNK) in u.up
            && u.table.constIdMp == s.table.constIdMp && u.table.readyNum == s.table.readyNum && u.table.fds == s.table.fds
  {
    hide Inv, Draws, FreshIds, OnlyClient, Taken, Enabled, Step, Waiting, Confirmed, NumbersStarted, Sess;
    DrawnFresh(ids, used, s, mode, now, 5);
    a1 := Opens(s, i, ids[2], false, a, c, ids[5]);
    var s1 := Step(s, a1);
    StepKeeps(s, a1);
    StepNumbers(s, a1);
    OnlyNone(s, s1, i);
    DrawnFresh(ids, used, s1, mode, now, 6);
    a2 := Confirms(s1, i, ids[2], false, ids[5], Prompt(mode, false, ids[6], ids[7], NO_JUNK, now));
    StepKeeps(s1, a2);
    StepNumbers(s1, a2);
    OnlyTwice(s, s1, Step(s1, a2), i);
  }

  /** The server takes the confirmation, and its packet makes the client ready. */
  lemma Settles(s: Sys, i: nat, mode: C.RawMode, now: nat, c: ConnInfo, f: nat, ids: seq<nat>, used: set<nat>)
    returns (a3: Action, a4: Action, o: ConnInfo)
    requires now > C.RETRY_INTERVAL
    requires Inv(s) && NumbersStarted(s) && |ids| == 10 && Confirmed(s, i, ids[2], false, ids[5]) && Waiting(s.table, c, ids[5])
    requires HasRoom(s.table, s.clients[i].constId) && E.Unissued(s.table, f)
    requires Bare(ids[2], ids[5], s.clients[i].constId, NO_JUNK) in s.up
    requires Draws(ids, used) && s.used <= used + Taken(ids, 8)
    ensures Enabled(s, a3) && Enabled(Step(s, a3), a4)
    ensures var u := Step(Step(s, a3), a4); Connected(u, i, o) && OnlyClient(s, u, i)
  {
    hide Inv, Draws, FreshIds, OnlyClient, Taken, Enabled, Step, Waiting, HasRoom, E.Unissued, Served2, NumbersStarted, Sess;
    var k, hb := s.clients[i].constId, Bare(0, 0, 0, NO_JUNK);
    NonZero(ids, used);
    a3, o, hb := Serves(s, c, ids[5], Bare(ids[2], ids[5], k, NO_JUNK), f);
    var u := Step(s, a3);
    OnlyNone(s, u, i);
    DrawnFresh(ids, used, u, mode, now, 8);
    SameConfirmed(s, u, i, ids[2], false, ids[5]);
    a4 := Enters(u, i, ids[2], false, ids[5], hb, Prompt(mode, false, ids[8], ids[9], NO_JUNK, now));
    var v := Step(u, a4);
    OnlyTwice(s, u, v, i);
    OnlyConst(s, v, i);
    StillServed(u, v, o, ids[2], ids[5], k);
  }

  lemma NonZero(ids: seq<nat>, used: set<nat>)
    requires Draws(ids, used) && |ids| == 10
    ensures ids[5] != 0
  {
    assert ids[5] in ids;
  }

  lemma SameRoom(t: T.Table, u: T.Table, k: nat, f: nat)
    requires HasRoom(t, k) && E.Unissued(t, f) && u.constIdMp == t.constIdMp && u.readyNum == t.readyNum && u.fds == t.fds
    ensures HasRoom(u, k) && E.Unissued(u, f)
  {
  }

  /** From an asking client to a connection ready at both ends. */
  lemma Completes(s: Sys, i: nat, mode: C.RawMode, now: nat, a: Address, c: ConnInfo, f: nat, ids: seq<nat>, used: set<nat>)
    returns (run: seq<Action>, o: ConnInfo)
    requires now > C.RETRY_INTERVAL
    requires Inv(s) && NumbersStarted(s) && |ids| == 10 && Asking(s, i, ids[2], false)
    requires HasRoom(s.table, s.clients[i].constId) && E.Unissued(s.table, f)
    requires a !in s.table.mp && c !in s.table.recs && |s.table.mp| < T.MAX_HANDSHAKE_CONN_NUM
    requires Draws(ids, used) && s.used <= used + Taken(ids, 5)
    ensures Possible(s, run)
    ensures Connected(Run(s, run), i, o) && OnlyClient(s, Run(s, run), i)
  {
    hide Inv, Draws, OnlyClient, Possible, Run, Taken, Enabled, Step, Waiting, Confirmed, Connected, NumbersStarted, HasRoom, E.Unissued;
    var a1, a2 := Meets(s, i, mode, now, a, c, ids, used);
    var u := Step(Step(s, a1), a2);
    OnlyConst(s, u, i);
    SameRoom(s.table, u.table, s.clients[i].constId, f);
    var a3, a4;
    a3, a4, o := Settles(u, i, mode, now, c, f, ids, used);
    OnlyTwice(s, u, Step(Step(u, a3), a4), i);
    RunOfFour(s, a1, a2, a3, a4);
    run := [a1] + [a2] + [a3] + [a4];
  }

  lemma OnlyConst(s: Sys, u: Sys, i: nat)
    requires OnlyClient(s, u, i)
    ensures i in s.clients && i in u.clients && u.clients[i].constId == s.clients[i].constId
  {
  }

  lemma SameConfirmed(s: Sys, u: Sys, i: nat, id: nat, slot0: bool, sid: nat)
    requires Confirmed(s, i, id, slot0, sid) && u.clients == s.clients
    ensures Confirmed(u, i, id, slot0, sid)
  {
  }

  lemma StillServed(s: Sys, u: Sys, o: ConnInfo, id: nat, sid: nat, k: nat)
    requires Served2(s, o, id, sid, k) && u.table == s.table && u.filters == s.filters && u.seqs == s.seqs
    ensures Served2(u, o, id, sid, k)
  {
  }

  lemma RunOfFour(s: Sys, a1: Action, a2: Action, a3: Action, a4: Action)
    requires Enabled(s, a1) && Enabled(Step(s, a1), a2) && Enabled(Step(Step(s, a1), a2), a3)
    requires Enabled(Step(Step(Step(s, a1), a2), a3), a4)
    ensures Possible(s, [a1] + [a2] + [a3] + [a4])
    ensures Run(s, [a1] + [a2] + [a3] + [a4]) == Step(Step(Step(Step(s, a1), a2), a3), a4)
  {
    hide Enabled, Step, Possible, Run;
    RunOfOne(s, a1);
    RunOfOne(Step(s, a1), a2);
    RunOfOne(Step(Step(s, a1), a2), a3);
    RunOfOne(Step(Step(Step(s, a1), a2), a3), a4);
    RunsJoin(s, [a1], [a2]);
    RunsJoin(s, [a1] + [a2], [a3]);
    RunsJoin(s, [a1] + [a2] + [a3], [a4]);
  }

  /** From every reachable state, whatever state client `i` is in, and in every mode, a run at one moment `now` connects
  it and leaves the other clients as they are, if the server has room and the client comes from an address the server
  does not know. */
  lemma CanConnect(s: Sys, run: seq<Action>, i: nat, mode: C.RawMode, now: nat, a: Address, c: ConnInfo, f: nat, ids: seq<nat>)
    returns (more: seq<Action>, o: ConnInfo)
    requires now > C.RETRY_INTERVAL
    requires Start(s) && Possible(s, run)
    requires var u := Run(s, run);
             && i in u.clients && HasRoom(u.table, u.clients[i].constId) && E.Unissued(u.table, f)
             && a !in u.table.mp && c !in u.table.recs && |u.table.mp| < T.MAX_HANDSHAKE_CONN_NUM
             && Draws(ids, u.used) && |ids| == 10
    ensures Possible(s, run + more)
    ensures Connected(Run(s, run + more), i, o) && OnlyClient(Run(s, run), Run(s, run + more), i)
  {
    hide Possible, Run, Inv, Draws, Connected, OnlyClient, HasRoom, E.Unissued, NumbersStarted, Asking, Start, Taken;
    StartInv(s);
    StartNumbers(s);
    RunKeeps(s, run);
    var u := Run(s, run);
    var first := Asks(u, i, mode, now, ids);
    RunsJoin(s, run, first);
    var v := Run(u, first);
    RunKeeps(u, first);
    RunNumbers(s, run + first);
    OnlyConst(u, v, i);
    var second;
    second, o := Completes(v, i, mode, now, a, c, f, ids, u.used);
    RunsJoin(s, run + first, second);
    OnlyTwice(u, v, Run(v, second), i);
    more := first + second;
    assert run + first + second == run + more;
  }

  lemma StartNumbers(s: Sys)
    requires Start(s)
    ensures NumbersStarted(s)
  {
  }
}
