/** The protocol of `HandshakeSteps` is what the server's code does: whatever one event of the server's loop does to
the connections on the heap is a run of protocol steps, with the same packets sent and delivered. */
module HandshakeLink {
  import opened Connection
  import opened Packets
  import opened Sessions
  import opened Handshake
  import opened HandshakeSteps
  import opened HandshakeServer
  import opened HandshakeRuns
  import AntiReplay
  import C = ClientSteps
  import T = ServerTable
  import E = ServerEvents
  import H = ServerHandlers
  import V = Server
  import P = ServerLoop
  import ServerSweep

  /** The protocol's state shows the server's: the table, and of each ready connection the window and the number. */
  ghost predicate Shows(s: Sys, x: H.State) {
    && s.table == x.t
    && (forall c :: c in x.ins ==> c in s.filters && s.filters[c] == x.ins[c].filter && c in s.seqs && s.seqs[c] == x.ins[c].sendSeq)
    && (forall c :: c in Sess(x.t) && Sess(x.t)[c].Established? ==> c in x.ins)
  }

  // ----- events of the table -----

  lemma {:induction false} EventsAppend(t: T.Table, a: seq<E.Event>, b: seq<E.Event>)
    requires T.Inv(t) && E.Possible(t, a) && T.Inv(E.Run(t, a)) && E.Possible(E.Run(t, a), b)
    ensures E.Possible(t, a + b) && E.Run(t, a + b) == E.Run(E.Run(t, a), b)
    decreases |a|
  {
    hide T.Inv, E.Step, E.Enabled;
    if a == [] {
      assert a + b == b;
    } else {
      E.StepKeeps(t, a[0]);
      EventsAppend(E.Step(t, a[0]), a[1..], b);
      assert (a + b)[1..] == a[1..] + b;
    }
  }

  /** The events a batch of messages is made of. */
  ghost function Replay(c: ConnInfo, msgs: seq<Message>, hbMode: nat, fds: seq<int>, picks: seq<H.Pick>): seq<E.Event>
    requires |msgs| == |fds| == |picks|
    decreases |msgs|
  {
    var n := |msgs| - 1;
    if n < 0 then [] else
    Replay(c, msgs[..n], hbMode, fds[..n], picks[..n])
      + [E.Ticks(picks[n].heard), E.Speaks(c, msgs[n], hbMode, picks[n].f, fds[n]), E.Ticks(picks[n].after)]
  }

  lemma ToldIsEvents(t: T.Table, c: ConnInfo, msg: Message, hbMode: nat, fd: int, p: H.Pick)
    requires T.Inv(t) && c in t.recs && t.recs[c].state == Ready && t.now <= p.heard <= p.after && E.Unissued(t, p.f)
    ensures var run := [E.Ticks(p.heard), E.Speaks(c, msg, hbMode, p.f, fd), E.Ticks(p.after)];
            E.Possible(t, run) && E.Run(t, run) == H.Told(t, c, msg, hbMode, fd, p)
  {
    hide T.Inv, E.Possible, E.Run;
    var e, f, g := E.Ticks(p.heard), E.Speaks(c, msg, hbMode, p.f, fd), E.Ticks(p.after);
    E.StepKeeps(t, e);
    var u := E.Step(t, e);
    E.StepKeeps(u, f);
    var v := E.Step(u, f);
    assert v.now == p.heard;
    E.StepKeeps(v, g);
    E.ThreeSteps(t, e, f, g, u, v, E.Step(v, g));
  }

  lemma {:induction false} BatchIsEvents(t: T.Table, c: ConnInfo, msgs: seq<Message>, hbMode: nat, fds: seq<int>,
          picks: seq<H.Pick>)
    requires T.Inv(t) && c in t.recs && t.recs[c].state == Ready && |msgs| == |fds| == |picks|
    requires H.PicksFit(t, c, msgs, hbMode, fds, picks)
    ensures var run := Replay(c, msgs, hbMode, fds, picks);
            E.Possible(t, run) && E.Run(t, run) == H.Batch(t, c, msgs, hbMode, fds, picks)
    ensures T.Inv(H.Batch(t, c, msgs, hbMode, fds, picks)) && H.Batch(t, c, msgs, hbMode, fds, picks).recs[c].state == Ready
    decreases |msgs|
  {
    hide T.Inv, E.Possible, E.Run, E.Unissued, H.Told;
    var n := |msgs| - 1;
    if n < 0 {
      NoEvents(t);
    } else {
      BatchIsEvents(t, c, msgs[..n], hbMode, fds[..n], picks[..n]);
      var u := H.Batch(t, c, msgs[..n], hbMode, fds[..n], picks[..n]);
      ToldIsEvents(u, c, msgs[n], hbMode, fds[n], picks[n]);
      H.ToldStaysReady(u, c, msgs[n], hbMode, fds[n], picks[n]);
      var a := Replay(c, msgs[..n], hbMode, fds[..n], picks[..n]);
      var b := [E.Ticks(picks[n].heard), E.Speaks(c, msgs[n], hbMode, picks[n].f, fds[n]), E.Ticks(picks[n].after)];
      EventsAppend(t, a, b);
      E.RunKeeps(t, a + b);
    }
  }

  lemma NoEvents(t: T.Table)
    requires T.Inv(t)
    ensures E.Possible(t, []) && E.Run(t, []) == t
  {
  }

  lemma {:induction false} ReplaysMore(c: ConnInfo, msgs: seq<Packet>, events: seq<E.Event>, p: Packet, more: seq<E.Event>)
    requires (forall q <- msgs :: q.Safer?) && p.Safer? && (forall q <- msgs + [p] :: q.Safer?)
    requires Replays(c, msgs, events) && Replays(c, [p], more)
    ensures Replays(c, msgs + [p], events + more)
    decreases |events|
  {
    if events == [] {
      assert events + more == more && msgs + [p] == [p];
    } else {
      assert (events + more)[1..] == events[1..] + more;
      if events[0].Ticks? {
        ReplaysMore(c, msgs, events[1..], p, more);
      } else {
        assert (msgs + [p])[1..] == msgs[1..] + [p];
        ReplaysMore(c, msgs[1..], events[1..], p, more);
      }
    }
  }

  lemma ReplaysOne(c: ConnInfo, p: Packet, hbMode: nat, fd: int, k: H.Pick)
    requires p.Safer?
    ensures Replays(c, [p], [E.Ticks(k.heard), E.Speaks(c, p.msg, hbMode, k.f, fd), E.Ticks(k.after)])
  {
    var a, b, d := E.Ticks(k.heard), E.Speaks(c, p.msg, hbMode, k.f, fd), E.Ticks(k.after);
    assert [a, b, d][1..] == [b, d] && [b, d][1..] == [d] && [d][1..] == [] && [p][1..] == [];
    assert Replays(c, [], []);
    assert Replays(c, [], [d]);
    assert Replays(c, [p], [b, d]);
  }

  lemma {:induction false} ReplayReplays(c: ConnInfo, out: seq<Packet>, hbMode: nat, fds: seq<int>, picks: seq<H.Pick>)
    requires (forall q <- out :: q.Safer?) && |out| == |fds| == |picks|
    ensures Replays(c, out, Replay(c, H.MessagesOf(out), hbMode, fds, picks))
    decreases |out|
  {
    var n := |out| - 1;
    if n >= 0 {
      assert forall q <- out[..n] :: q in out;
      ReplayReplays(c, out[..n], hbMode, fds[..n], picks[..n]);
      ReplaysOne(c, out[n], hbMode, fds[n], picks[n]);
      assert H.MessagesOf(out)[..n] == H.MessagesOf(out[..n]);
      assert out[..n] + [out[n]] == out;
      ReplaysMore(c, out[..n], Replay(c, H.MessagesOf(out[..n]), hbMode, fds[..n], picks[..n]), out[n],
                  [E.Ticks(picks[n].heard), E.Speaks(c, out[n].msg, hbMode, picks[n].f, fds[n]), E.Ticks(picks[n].after)]);
    }
  }

  // ----- short runs of the protocol -----

  /** What a run on the server's side came to: the server's state, the packets it sent, what it delivered, the id it
  drew.  Clients, their packets and their deliveries are not touched. */
  ghost predicate Did(s: Sys, u: Sys, y: H.State, sent: set<Packet>, out: seq<Packet>, drawn: set<nat>) {
    && Inv(u) && Shows(u, y)
    && u.clients == s.clients && u.up == s.up && u.reached == s.reached && u.toClients == s.toClients
    && u.down == s.down + sent && u.toServer == s.toServer + out && u.used == s.used + drawn
  }

  lemma RunOne(s: Sys, a: Action)
    requires Inv(s) && Enabled(s, a)
    ensures Possible(s, [a]) && Run(s, [a]) == Step(s, a) && Inv(Step(s, a))
  {
    hide Inv, Enabled, Step;
    StepKeeps(s, a);
    assert [a][1..] == [];
    assert Possible(Step(s, a), []) && Run(Step(s, a), []) == Step(s, a);
  }

  lemma RunTwo(s: Sys, a: Action, b: Action)
    requires Inv(s) && Enabled(s, a) && Enabled(Step(s, a), b)
    ensures Possible(s, [a, b]) && Run(s, [a, b]) == Step(Step(s, a), b) && Inv(Step(s, a)) && Inv(Step(Step(s, a), b))
  {
    hide Inv, Enabled, Step, Possible, Run;
    RunOne(s, a);
    RunOne(Step(s, a), b);
    RunMore(s, [a, b]);
    assert [a, b][1..] == [b];
  }

  lemma RunThree(s: Sys, a: Action, b: Action, c: Action)
    requires Inv(s) && Enabled(s, a) && Enabled(Step(s, a), b) && Enabled(Step(Step(s, a), b), c)
    ensures Possible(s, [a, b, c]) && Run(s, [a, b, c]) == Step(Step(Step(s, a), b), c)
    ensures Inv(Step(s, a)) && Inv(Step(Step(s, a), b)) && Inv(Step(Step(Step(s, a), b), c))
  {
    hide Inv, Enabled, Step, Possible, Run;
    RunOne(s, a);
    RunTwo(Step(s, a), b, c);
    RunMore(s, [a, b, c]);
    assert [a, b, c][1..] == [b, c];
  }

  lemma RunMore(s: Sys, run: seq<Action>)
    requires run != [] && Enabled(s, run[0]) && Possible(Step(s, run[0]), run[1..])
    ensures Possible(s, run) && Run(s, run) == Run(Step(s, run[0]), run[1..])
  {
    hide Enabled, Step;
  }

  function Quiet(t: T.Table, now: nat): Action {
    ServerQuiet(E.Ticks(now), T.Tick(t, now))
  }

  lemma QuietStep(s: Sys, now: nat)
    requires Inv(s) && s.table.now <= now
    ensures Enabled(s, Quiet(s.table, now)) && Step(s, Quiet(s.table, now)) == s.(table := T.Tick(s.table, now))
    ensures Sess(T.Tick(s.table, now)) == Sess(s.table) && T.Inv(s.table) && T.Inv(T.Tick(s.table, now))
  {
    TableInv(s);
    hide T.Inv, Inv, Sess;
    SameSessions(s.table, T.Tick(s.table, now));
    E.StepKeeps(s.table, E.Ticks(now));
  }

  lemma TableInv(s: Sys)
    requires Inv(s)
    ensures T.Inv(s.table)
  {
  }

  // ----- handshake packets -----

  /** The payload is that of a handshake packet some client sent. */
  ghost predicate Carries(up: set<Packet>, h: H.Shake) {
    h.Ids? ==> exists p :: p in up && p.Bare? && p.first == h.first && p.second == h.second && p.third == h.third
  }

  ghost function BareOf(up: set<Packet>, h: H.Shake): (p: Packet)
    requires h.Ids? && Carries(up, h)
    ensures p in up && p.Bare? && p.first == h.first && p.second == h.second && p.third == h.third
  {
    var p :| p in up && p.Bare? && p.first == h.first && p.second == h.second && p.third == h.third;
    p
  }

  ghost function PlaceOf(x: T.Table, y: T.Table, a: Address): (pos: nat)
    requires a in y.mp && y.mp[a] in y.recs
    requires exists pos: nat :: pos <= |x.order| && y == T.Admit(T.Tick(x, y.now), a, y.mp[a], y.recs[y.mp[a]], pos)
    ensures pos <= |x.order| && y == T.Admit(T.Tick(x, y.now), a, y.mp[a], y.recs[y.mp[a]], pos)
  {
    var pos: nat :| pos <= |x.order| && y == T.Admit(T.Tick(x, y.now), a, y.mp[a], y.recs[y.mp[a]], pos);
    pos
  }

  /** A packet from a new address. */
  ghost function OpenRun(s: Sys, x: T.Table, y: T.Table, p: H.RawPacket, myId: nat, constId: nat, junk: Junk): seq<Action>
    requires H.Opens(x, p) && H.Opened(x, y, p.addr, myId) && Carries(s.up, p.bare[0])
  {
    var c := y.mp[p.addr];
    [Quiet(x, y.now), ServerOpens(p.addr, c, y.recs[c], PlaceOf(x, y, p.addr), y, BareOf(s.up, p.bare[0]), constId, junk)]
  }

  lemma OpenIsRun(s: Sys, x: H.State, y: H.State, p: H.RawPacket, myId: nat, constId: nat, junk: Junk)
    requires Inv(s) && Shows(s, x) && H.Opens(x.t, p) && H.Opened(x.t, y.t, p.addr, myId) && y.ins == x.ins
    requires Carries(s.up, p.bare[0]) && myId !in s.used
    ensures var run := OpenRun(s, x.t, y.t, p, myId, constId, junk);
            Possible(s, run) && Did(s, Run(s, run), y, {Bare(myId, p.bare[0].first, constId, junk)}, [], {myId})
  {
    hide Inv, T.Inv, Sess, T.Admit, Possible, Run;
    var c, pos, q := y.t.mp[p.addr], PlaceOf(x.t, y.t, p.addr), BareOf(s.up, p.bare[0]);
    var r := y.t.recs[c];
    QuietStep(s, y.t.now);
    var t := T.Tick(x.t, y.t.now);
    assert E.Enabled(t, E.Arrives(p.addr, c, r, pos));
    ArrivalSession(t, p.addr, c, r, pos);
    RunTwo(s, Quiet(x.t, y.t.now), ServerOpens(p.addr, c, r, pos, y.t, q, constId, junk));
  }

  /** The second handshake as a protocol step. */
  ghost function ConfirmAction(t: T.Table, up: set<Packet>, y: H.State, c: ConnInfo, h: H.Shake, f: nat, fd: int,
          firstSeq: nat): (a: Action)
    requires h.Ids? && Carries(up, h)
    ensures a.ServerShakes?
  {
    var o := if h.third in t.constIdMp then t.constIdMp[h.third] else c;
    ServerShakes(c, BareOf(up, h), f, fd, y.t, o, o in y.ins && y.ins[o].filter == AntiReplay.Fresh(true), firstSeq, 0)
  }

  /** A handshake packet from an address that is shaking hands. */
  ghost function ShakeRun(s: Sys, x: H.State, y: H.State, c: ConnInfo, h: H.Shake, g: H.Given, f: nat, constId: nat,
          junk: Junk): seq<Action>
    requires c in x.t.recs && Carries(s.up, h)
  {
    var quiet := Quiet(x.t, y.t.now);
    if h.Ids? && h.second == 0 then [quiet, ServerAnswersAgain(c, BareOf(s.up, h), constId, junk)]
    else if H.Confirms(x.t, c, h) then [quiet, ConfirmAction(x.t, s.up, y, c, h, f, g.timerFd, g.firstSeq)]
    else [quiet]
  }

  /** The ids of a handshaking connection, before and after the clock moved on. */
  lemma ShakingSession(t: T.Table, c: ConnInfo)
    requires c in t.recs && t.recs[c].state == Handshake1
    ensures c in Sess(t) && Sess(t)[c] == Shaking(t.recs[c].myId)
  {
  }

  lemma AgainIsRun(s: Sys, x: H.State, y: H.State, c: ConnInfo, h: H.Shake, g: H.Given, f: nat, constId: nat, junk: Junk)
    requires Inv(s) && Shows(s, x) && c in x.t.recs && x.t.recs[c].state == Handshake1 && Carries(s.up, h)
    requires !H.Confirms(x.t, c, h) && x.t.now <= y.t.now && y == H.State(T.Tick(x.t, y.t.now), x.ins)
    ensures var run := ShakeRun(s, x, y, c, h, g, f, constId, junk);
            && Possible(s, run)
            && Did(s, Run(s, run), y, if h.Ids? && h.second == 0 then {Bare(x.t.recs[c].myId, h.first, constId, junk)} else {}, [], {})
  {
    hide Inv, T.Inv, Sess, Possible, Run;
    QuietStep(s, y.t.now);
    var quiet := Quiet(x.t, y.t.now);
    if h.Ids? && h.second == 0 {
      ShakingSession(x.t, c);
      RunTwo(s, quiet, ServerAnswersAgain(c, BareOf(s.up, h), constId, junk));
    } else {
      RunOne(s, quiet);
    }
  }

  /** The second handshake at time `now`: its packet is one of the protocol's. */
  lemma ConfirmPossible(s: Sys, c: ConnInfo, p: Packet, f: nat, fd: int, slot0: bool, firstSeq: nat) returns (o: ConnInfo)
    requires Inv(s) && c in s.table.recs && s.table.recs[c].state == Handshake1 && E.Unissued(s.table, f)
    requires p in s.up && p.Bare? && p.second != 0 && p.second == s.table.recs[c].myId
    ensures T.Inv(s.table) && o == (if p.third in s.table.constIdMp then s.table.constIdMp[p.third] else c)
    ensures var t := E.Step(s.table, E.Answers(c, p.first, p.third, f, fd));
            && c in Sess(s.table) && Sess(s.table)[c] == Shaking(p.second)
            && Enabled(s, ServerShakes(c, p, f, fd, t, o, slot0, firstSeq, 0))
            && if E.TurnedAway(s.table, c, p.third) then Sess(t) == Sess(s.table) - {c}
               else Answered(Sess(s.table), Sess(t), c, o, p.first, p.third)
  {
    hide Inv, T.Inv, Sess, E.Step, E.TurnedAway;
    TableInv(s);
    ShakingSession(s.table, c);
    o := ShakesIsPossible(s, c, p, f, fd, slot0, firstSeq, 0);
    o := AnswerSessions(s.table, c, p.first, p.third, f, fd);
  }

  /** An answered handshake is not an ended one. */
  lemma AnsweredIsNotEnded(m: map<ConnInfo, Session>, n: map<ConnInfo, Session>, c: ConnInfo, o: ConnInfo, id: nat, k: nat)
    requires c in m && Answered(m, n, c, o, id, k)
    requires forall a, b :: a in m && b in m && m[a].myId == m[b].myId ==> a == b
    ensures n != m - {c} && o in n && n[o] == Established(m[c].myId, id, k)
  {
  }

  lemma DistinctSessions(s: Sys)
    requires Inv(s)
    ensures var m := Sess(s.table); forall a, b :: a in m && b in m && m[a].myId == m[b].myId ==> a == b
  {
    hide Sess;
  }

  /** The protocol's state after an answered handshake. */
  lemma AnsweredShows(s: Sys, x: H.Insides, y: H.State, c: ConnInfo, p: Packet, o: ConnInfo, slot0: bool,
          firstSeq: nat, sent: seq<Packet>)
    requires p.Bare? && c in s.table.recs && c in Sess(s.table) && Sess(s.table)[c] == Shaking(s.table.recs[c].myId)
    requires Shows(s, H.State(s.table, x)) && Answered(Sess(s.table), Sess(y.t), c, o, p.first, p.third)
    requires o in Sess(y.t) && Sess(y.t)[o] == Established(s.table.recs[c].myId, p.first, p.third)
    requires o in y.ins && y.ins[o].filter == AntiReplay.Fresh(slot0) && y.ins == x[o := y.ins[o]]
    requires if o == c then y.ins[o].sendSeq == firstSeq + 1 && sent == [Safer(s.table.recs[c].myId, p.first, firstSeq, Heartbeat, 0)]
             else o in x && y.ins[o].sendSeq == x[o].sendSeq + 1 && sent == [Safer(s.table.recs[c].myId, p.first, x[o].sendSeq, Heartbeat, 0)]
    ensures IsServing(Serving(s, y.t, p, o, slot0, firstSeq), o)
    ensures var u := Sending(Serving(s, y.t, p, o, slot0, firstSeq), o, Heartbeat, 0);
            Shows(u, y) && u.down == s.down + Elems(sent)
  {
    hide Sess, Serving, Sending, Shows;
    var v := Serving(s, y.t, p, o, slot0, firstSeq);
    ServingFields(s, x, y.t, c, p, o, slot0, firstSeq);
    ElemsOne(sent[0]);
    ShowsPut(s, x, y, o, AntiReplay.Fresh(slot0), v.seqs[o] + 1, Sending(v, o, Heartbeat, 0));
  }

  lemma ServingFields(s: Sys, x: H.Insides, t: T.Table, c: ConnInfo, p: Packet, o: ConnInfo, slot0: bool, firstSeq: nat)
    requires p.Bare? && c in s.table.recs && c in Sess(s.table) && Sess(s.table)[c] == Shaking(s.table.recs[c].myId)
    requires Shows(s, H.State(s.table, x)) && Answered(Sess(s.table), Sess(t), c, o, p.first, p.third)
    requires o in Sess(t) && Sess(t)[o] == Established(s.table.recs[c].myId, p.first, p.third)
    requires o != c ==> o in x
    ensures var v, n := Serving(s, t, p, o, slot0, firstSeq), if o == c then firstSeq else x[o].sendSeq;
            && IsServing(v, o) && v.seqs[o] == n
            && var u := Sending(v, o, Heartbeat, 0);
              && u.table == t && u.filters == s.filters[o := AntiReplay.Fresh(slot0)] && u.seqs == s.seqs[o := n + 1]
              && u.down == s.down + {Safer(s.table.recs[c].myId, p.first, n, Heartbeat, 0)}
  {
    hide Sess;
  }

  /** One window and one number changed. */
  lemma ShowsPut(s: Sys, x: H.Insides, y: H.State, o: ConnInfo, f: AntiReplay.Filter, n: nat, u: Sys)
    requires Shows(s, H.State(s.table, x)) && o in y.ins && y.ins == x[o := y.ins[o]] && y.ins[o].filter == f && y.ins[o].sendSeq == n
    requires forall d :: d in Sess(y.t) && Sess(y.t)[d].Established? && d != o ==> d in Sess(s.table) && Sess(s.table)[d].Established?
    requires u.table == y.t && u.filters == s.filters[o := f] && u.seqs == s.seqs[o := n]
    ensures Shows(u, y)
  {
    hide Sess;
  }

  /** What the second handshake does to the insides, seen as one of its two outcomes. */
  lemma InsideOutcome(x: H.Insides, y: H.Insides, t: T.Table, c: ConnInfo, h: H.Shake, firstSeq: nat, sent: seq<Packet>)
    requires T.Inv(t) && c in t.recs && t.recs[c].state == Handshake1 && H.Confirms(t, c, h)
    requires H.ShakenInside(x, y, t, c, h, firstSeq, sent)
    ensures var o := if h.third in t.constIdMp then t.constIdMp[h.third] else c;
            if E.TurnedAway(t, c, h.third) then y == x && sent == []
            else
              && o in y && V.IsFresh(y[o].filter) && y == x[o := y[o]]
              && if o == c then y[o].sendSeq == firstSeq + 1 && sent == [Safer(t.recs[c].myId, h.first, firstSeq, Heartbeat, 0)]
                 else o in x && y[o].sendSeq == x[o].sendSeq + 1 && sent == [Safer(t.recs[c].myId, h.first, x[o].sendSeq, Heartbeat, 0)]
  {
    hide T.Inv, Sess;
    Announced(t, c, h.first, h.third);
    if h.third in t.constIdMp { E.IndexedIsReady(t, h.third); }
  }

  /** What is known when a second handshake is answered, once the clock was read. */
  ghost predicate Answering(s: Sys, x: H.Insides, y: H.State, c: ConnInfo, h: H.Shake, f: nat, fd: int,
          firstSeq: nat, sent: seq<Packet>) {
    && Inv(s) && T.Inv(s.table) && Shows(s, H.State(s.table, x)) && Carries(s.up, h)
    && c in s.table.recs && s.table.recs[c].state == Handshake1 && H.Confirms(s.table, c, h) && E.Unissued(s.table, f)
    && y.t == H.Shaken(s.table, c, h, f, fd) && H.ShakenInside(x, y.ins, s.table, c, h, firstSeq, sent)
  }

  lemma AnsweringPossible(s: Sys, x: H.Insides, y: H.State, c: ConnInfo, h: H.Shake, f: nat, fd: int, firstSeq: nat,
          sent: seq<Packet>)
    requires Answering(s, x, y, c, h, f, fd, firstSeq, sent)
    ensures var t, p, a := s.table, BareOf(s.up, h), ConfirmAction(s.table, s.up, y, c, h, f, fd, firstSeq);
            && Enabled(s, a) && c in Sess(t) && Sess(t)[c] == Shaking(t.recs[c].myId)
            && (if E.TurnedAway(t, c, h.third) then Sess(y.t) == Sess(t) - {c} else Answered(Sess(t), Sess(y.t), c, a.o, h.first, h.third))
  {
    hide Inv, T.Inv, Sess, E.Step, E.TurnedAway, Answered, H.ShakenInside, Enabled, Shows, BareOf;
    var a := ConfirmAction(s.table, s.up, y, c, h, f, fd, firstSeq);
    var o := ConfirmPossible(s, c, a.p, f, fd, a.slot0, firstSeq);
  }

  lemma ConfirmEnds(s: Sys, x: H.Insides, y: H.State, c: ConnInfo, h: H.Shake, f: nat, fd: int, firstSeq: nat, sent: seq<Packet>)
    requires Answering(s, x, y, c, h, f, fd, firstSeq, sent) && E.TurnedAway(s.table, c, h.third)
    ensures var a := ConfirmAction(s.table, s.up, y, c, h, f, fd, firstSeq);
            Enabled(s, a) && Did(s, Step(s, a), y, Elems(sent), [], {})
  {
    hide Inv, T.Inv, Sess, E.Step, E.TurnedAway, H.ShakenInside, Enabled, Shows, Elems, Step, BareOf, H.Shaken,
         ConfirmAction;
    var a := ConfirmAction(s.table, s.up, y, c, h, f, fd, firstSeq);
    AnsweringPossible(s, x, y, c, h, f, fd, firstSeq, sent);
    InsideOutcome(x, y.ins, s.table, c, h, firstSeq, sent);
    StepKeeps(s, a);
    ActionFields(s, y, c, h, f, fd, firstSeq);
    ShakesStep(s, a);
    NoElems();
    EndedShows(s, y, c);
  }

  lemma ActionFields(s: Sys, y: H.State, c: ConnInfo, h: H.Shake, f: nat, fd: int, firstSeq: nat)
    requires h.Ids? && Carries(s.up, h)
    ensures var a := ConfirmAction(s.table, s.up, y, c, h, f, fd, firstSeq);
            && a.t == y.t && a.c == c && a.p.Bare? && a.p.first == h.first && a.p.third == h.third && a.firstSeq == firstSeq && a.roller == 0
            && a.o == (if h.third in s.table.constIdMp then s.table.constIdMp[h.third] else c)
            && (a.o in y.ins && V.IsFresh(y.ins[a.o].filter) ==> y.ins[a.o].filter == AntiReplay.Fresh(a.slot0))
  {
  }

  lemma ConfirmServes(s: Sys, x: H.Insides, y: H.State, c: ConnInfo, h: H.Shake, f: nat, fd: int, firstSeq: nat,
          sent: seq<Packet>)
    requires Answering(s, x, y, c, h, f, fd, firstSeq, sent) && !E.TurnedAway(s.table, c, h.third)
    ensures var a := ConfirmAction(s.table, s.up, y, c, h, f, fd, firstSeq);
            Enabled(s, a) && Did(s, Step(s, a), y, Elems(sent), [], {})
  {
    hide Inv, T.Inv, Sess, E.Step, E.TurnedAway, Answered, H.ShakenInside, Enabled, V.IsFresh, Serving, Sending,
         Shows, Elems, Step, IsServing, BareOf, H.Shaken, ConfirmAction;
    var a := ConfirmAction(s.table, s.up, y, c, h, f, fd, firstSeq);
    AnsweringPossible(s, x, y, c, h, f, fd, firstSeq, sent);
    InsideOutcome(x, y.ins, s.table, c, h, firstSeq, sent);
    StepKeeps(s, a);
    ActionFields(s, y, c, h, f, fd, firstSeq);
    ShakesStep(s, a);
    DistinctSessions(s);
    AnsweredIsNotEnded(Sess(s.table), Sess(y.t), c, a.o, h.first, h.third);
    AnsweredShows(s, x, y, c, a.p, a.o, a.slot0, firstSeq, sent);
    SendingFields(Serving(s, y.t, a.p, a.o, a.slot0, firstSeq), a.o, s, y.t, a.p, a.slot0, firstSeq);
  }

  lemma ShakesStep(s: Sys, a: Action)
    requires Enabled(s, a) && a.ServerShakes?
    ensures var m, n := Sess(s.table), Sess(a.t); var v := Serving(s, a.t, a.p, a.o, a.slot0, a.firstSeq);
            && (n == m - {a.c} ==> Step(s, a) == s.(table := a.t))
            && (n != m - {a.c} && IsServing(v, a.o) ==> Step(s, a) == Sending(v, a.o, Heartbeat, a.roller))
  {
    hide Sess, TableStep, Serving, Sending;
  }

  lemma SendingFields(v: Sys, o: ConnInfo, s: Sys, t: T.Table, p: Packet, slot0: bool, firstSeq: nat)
    requires p.Bare? && v == Serving(s, t, p, o, slot0, firstSeq) && IsServing(v, o)
    ensures var u := Sending(v, o, Heartbeat, 0);
            && u.clients == s.clients && u.up == s.up && u.reached == s.reached && u.toClients == s.toClients
            && u.toServer == s.toServer && u.used == s.used
  {
    hide Sess;
  }

  lemma ConfirmIsRun(s: Sys, x: H.State, y: H.State, c: ConnInfo, h: H.Shake, g: H.Given, f: nat, sent: seq<Packet>,
          constId: nat, junk: Junk)
    requires Inv(s) && Shows(s, x) && c in x.t.recs && x.t.recs[c].state == Handshake1 && Carries(s.up, h)
    requires H.Confirms(x.t, c, h) && x.t.now <= y.t.now && E.Unissued(x.t, f) && T.Inv(T.Tick(x.t, y.t.now))
    requires y.t == H.Shaken(T.Tick(x.t, y.t.now), c, h, f, g.timerFd)
    requires H.ShakenInside(x.ins, y.ins, T.Tick(x.t, y.t.now), c, h, g.firstSeq, sent)
    ensures var run := ShakeRun(s, x, y, c, h, g, f, constId, junk);
            Possible(s, run) && Did(s, Run(s, run), y, Elems(sent), [], {})
  {
    hide Inv, T.Inv, Sess, Possible, Run, E.Step, E.TurnedAway, H.ShakenInside, H.Shaken, Enabled, BareOf, Elems,
         ConfirmAction;
    var quiet := Quiet(x.t, y.t.now);
    QuietStep(s, y.t.now);
    RunOne(s, quiet);
    var v := Step(s, quiet);
    SameAction(x.t, y.t.now, s.up, y, c, h, f, g.timerFd, g.firstSeq);
    if E.TurnedAway(v.table, c, h.third) {
      ConfirmEnds(v, x.ins, y, c, h, f, g.timerFd, g.firstSeq, sent);
    } else {
      ConfirmServes(v, x.ins, y, c, h, f, g.timerFd, g.firstSeq, sent);
    }
    RunTwo(s, quiet, ConfirmAction(x.t, s.up, y, c, h, f, g.timerFd, g.firstSeq));
  }

  lemma SameAction(t: T.Table, now: nat, up: set<Packet>, y: H.State, c: ConnInfo, h: H.Shake, f: nat, fd: int, firstSeq: nat)
    requires h.Ids? && Carries(up, h)
    ensures ConfirmAction(T.Tick(t, now), up, y, c, h, f, fd, firstSeq) == ConfirmAction(t, up, y, c, h, f, fd, firstSeq)
  {
  }

  lemma NoElems()
    ensures Elems([]) == {}
  {
  }

  lemma EndedShows(s: Sys, y: H.State, c: ConnInfo)
    requires Sess(y.t) == Sess(s.table) - {c} && Shows(s, H.State(s.table, y.ins))
    ensures Shows(s.(table := y.t), y)
  {
    hide Sess;
  }

  // ----- channel packets -----

  lemma ReadySession(t: T.Table, c: ConnInfo)
    requires c in t.recs && t.recs[c].state == Ready
    ensures c in Sess(t) && Sess(t)[c] == Established(t.recs[c].myId, t.recs[c].oppositeId, t.recs[c].constId)
  {
  }

  /** A packet from a ready connection. */
  ghost function ChannelRun(x: H.State, y: H.State, c: ConnInfo, batch: seq<Packet>, hbMode: nat, fds: seq<int>,
          out: seq<Packet>, tr: H.Trace): seq<Action>
    requires (forall q <- out :: q.Safer?) && |out| == |tr.picks| <= |fds|
  {
    [Quiet(x.t, tr.at), ServerSafer(c, batch, Replay(c, H.MessagesOf(out), hbMode, fds[..|out|], tr.picks), y.t)]
  }

  /** Messages leave the window and the send number alone. */
  lemma {:induction false} BatchKeepsWindow(x: V.Inside, t: T.Table, c: ConnInfo, msgs: seq<Message>, hbMode: nat,
          fds: seq<int>, picks: seq<H.Pick>)
    requires c in t.recs && |msgs| == |fds| == |picks|
    ensures var y := H.BatchInside(x, t, c, msgs, hbMode, fds, picks); y.filter == x.filter && y.sendSeq == x.sendSeq
    decreases |msgs|
  {
    var n := |msgs| - 1;
    if n >= 0 {
      BatchKeepsWindow(x, t, c, msgs[..n], hbMode, fds[..n], picks[..n]);
    }
  }

  lemma ChannelEvents(t: T.Table, y: T.Table, c: ConnInfo, hbMode: nat, fds: seq<int>, out: seq<Packet>, picks: seq<H.Pick>)
    requires T.Inv(t) && c in t.recs && t.recs[c].state == Ready && (forall q <- out :: q.Safer?) && |out| == |fds| == |picks|
    requires H.PicksFit(t, c, H.MessagesOf(out), hbMode, fds, picks) && y == H.Batch(t, c, H.MessagesOf(out), hbMode, fds, picks)
    ensures var run := Replay(c, H.MessagesOf(out), hbMode, fds, picks);
            Replays(c, out, run) && TableRun(t, run, y) && Sess(y) == Sess(t)
  {
    hide T.Inv, Sess, E.Possible, E.Run, H.PicksFit, H.Batch, Replays, Replay;
    BatchIsEvents(t, c, H.MessagesOf(out), hbMode, fds, picks);
    ReplayReplays(c, out, hbMode, fds, picks);
    ReplaySessions(t, c, out, Replay(c, H.MessagesOf(out), hbMode, fds, picks));
  }

  /** The window of `c` after the packet. */
  lemma ChannelShows(s: Sys, x: H.Insides, y: H.State, c: ConnInfo, batch: seq<Packet>, g: AntiReplay.Filter)
    requires Shows(s, H.State(s.table, x)) && Sess(y.t) == Sess(s.table) && c in x && c in y.ins && y.ins == x[c := y.ins[c]]
    requires y.ins[c].filter == g && y.ins[c].sendSeq == x[c].sendSeq
    ensures Shows(s.(table := y.t, filters := s.filters[c := g]), y)
  {
    hide Sess;
  }

  /** A batch in the protocol. */
  lemma SaferStep(s: Sys, x: H.Insides, c: ConnInfo, batch: seq<Packet>, out: seq<Packet>, events: seq<E.Event>, t: T.Table)
    requires Shows(s, H.State(s.table, x)) && c in s.table.recs && s.table.recs[c].state == Ready && c in x
    requires var r := s.table.recs[c];
             && c in Sess(s.table) && Sess(s.table)[c] == Established(r.myId, r.oppositeId, r.constId)
             && out == Parsed(x[c].filter, r.myId, r.oppositeId, batch).1
    requires (forall q <- batch :: q in s.up) && (forall q <- out :: q.Safer?) && Replays(c, out, events) && TableRun(s.table, events, t)
    ensures var r, a := s.table.recs[c], ServerSafer(c, batch, events, t);
            && Enabled(s, a)
            && Step(s, a) == s.(table := t, filters := s.filters[c := Parsed(x[c].filter, r.myId, r.oppositeId, batch).0],
                                toServer := s.toServer + out)
  {
    hide Sess, Parsed, Replays, TableRun;
  }

  lemma ShowsMore(s: Sys, y: H.State, log: seq<Packet>)
    requires Shows(s, y)
    ensures Shows(s.(toServer := log), y)
  {
    hide Sess;
  }

  lemma ChannelIsRun(s: Sys, x: H.State, y: H.State, c: ConnInfo, batch: seq<Packet>, hbMode: nat, fds: seq<int>,
          out: seq<Packet>, tr: H.Trace)
    requires Inv(s) && Shows(s, x) && c in x.t.recs && x.t.recs[c].state == Ready && H.ChannelDone(x, y, c, batch, hbMode, fds, out, tr)
    requires forall q <- batch :: q in s.up
    ensures (forall q <- out :: q.Safer?) && |out| == |tr.picks| <= |fds|
    ensures var run := ChannelRun(x, y, c, batch, hbMode, fds, out, tr);
            Possible(s, run) && Did(s, Run(s, run), y, {}, out, {})
  {
    hide Inv, T.Inv, Sess, Possible, Run, H.PicksFit, H.Batch, H.BatchInside, Parsed, RollAll, Replay, Replays,
         TableRun, Shows, Enabled, Step;
    ShowsTable(s, x);
    var n := |out|;
    var t, r, msgs := T.Tick(x.t, tr.at), x.t.recs[c], H.MessagesOf(out);
    QuietStep(s, tr.at);
    SameShownAll(s, x.ins, t);
    RunOne(s, Quiet(x.t, tr.at));
    var v := s.(table := t);
    ReadySession(t, c);
    ChannelEvents(t, y.t, c, hbMode, fds[..n], out, tr.picks);
    BatchKeepsWindow(V.AfterBatch(x.ins[c], r, batch, out, hbMode, tr.nows), t, c, msgs, hbMode, fds[..n], tr.picks);
    var a := ServerSafer(c, batch, Replay(c, msgs, hbMode, fds[..n], tr.picks), y.t);
    ChannelShows(v, x.ins, y, c, batch, Parsed(x.ins[c].filter, r.myId, r.oppositeId, batch).0);
    SaferStep(v, x.ins, c, batch, out, a.events, y.t);
    ShowsMore(v.(table := y.t, filters := v.filters[c := Parsed(x.ins[c].filter, r.myId, r.oppositeId, batch).0]), y, s.toServer + out);
    RunTwo(s, Quiet(x.t, tr.at), a);
  }

  lemma ShowsTable(s: Sys, x: H.State)
    requires Shows(s, x)
    ensures s.table == x.t && x == H.State(s.table, x.ins)
  {
    hide Sess;
  }

  // ----- timers and conversations -----

  /** A ready connection sends one packet. */
  lemma SendIsStep(s: Sys, x: H.Insides, y: H.Insides, c: ConnInfo, msg: Message, roller: nat)
    requires Inv(s) && Shows(s, H.State(s.table, x)) && c in s.table.recs && s.table.recs[c].state == Ready
    requires c in x && c in y && y == x[c := y[c]] && y[c].filter == x[c].filter && y[c].sendSeq == x[c].sendSeq + 1
    ensures var r, a := s.table.recs[c], ServerSends(c, msg, roller);
            && Enabled(s, a)
            && Did(s, Step(s, a), H.State(s.table, y), {Safer(r.myId, r.oppositeId, x[c].sendSeq, msg, roller)}, [], {})
  {
    hide Inv, Sess, Shows;
    ReadySession(s.table, c);
    ServesReady(s, x, c);
    StepKeeps(s, ServerSends(c, msg, roller));
    ShowsPut(s, x, H.State(s.table, y), c, y[c].filter, y[c].sendSeq, Step(s, ServerSends(c, msg, roller)));
  }

  lemma ServesReady(s: Sys, x: H.Insides, c: ConnInfo)
    requires Shows(s, H.State(s.table, x)) && c in Sess(s.table) && Sess(s.table)[c].Established?
    ensures c in x && IsServing(s, c) && s.seqs[c] == x[c].sendSeq && s.filters[c] == x[c].filter
    ensures s.filters == s.filters[c := x[c].filter]
  {
    hide Sess;
  }

  ghost function ConvRun(x: H.State, c: ConnInfo, conv: nat, sent: seq<Packet>): seq<Action>
    requires c in x.ins
  {
    if sent == [] then [] else [ServerSends(c, Data(conv), x.ins[c].rollers.mine)]
  }

  lemma RunNone(s: Sys, y: H.State)
    requires Inv(s) && Shows(s, y)
    ensures Possible(s, []) && Did(s, Run(s, []), y, {}, [], {}) && Elems([]) == {}
  {
    hide Inv, Sess;
  }

  lemma ElemsOne(p: Packet)
    ensures Elems([p]) == {p}
  {
  }

  lemma ConvIsRun(s: Sys, x: H.State, y: H.State, c: ConnInfo, conv: nat, recvLen: int, sent: seq<Packet>)
    requires Inv(s) && Shows(s, x) && c in x.t.recs && x.t.recs[c].state == Ready && H.ConvDone(x, y, c, conv, recvLen, sent)
    ensures Possible(s, ConvRun(x, c, conv, sent)) && Did(s, Run(s, ConvRun(x, c, conv, sent)), y, Elems(sent), [], {})
  {
    hide Inv, Sess, Possible, Run, Enabled, Step, Shows, Elems;
    ShowsTable(s, x);
    if sent == [] {
      RunNone(s, y);
    } else {
      SendIsStep(s, x.ins, y.ins, c, Data(conv), x.ins[c].rollers.mine);
      RunOne(s, ServerSends(c, Data(conv), x.ins[c].rollers.mine));
      ElemsOne(sent[0]);
    }
  }

  ghost function TimerRun(x: H.State, y: H.State, c: ConnInfo, sent: seq<Packet>): seq<Action>
    requires c in x.t.recs && c in x.ins && c in y.ins
  {
    var kept := H.Listed(x.t.recs[c].convs, y.ins[c].list);
    var u := T.DropConvs(x.t, c, kept);
    [ServerQuiet(E.Expires(c, kept), u), Quiet(u, y.t.now)] + (if sent == [] then [] else [ServerSends(c, Heartbeat, x.ins[c].rollers.mine)])
  }

  /** Expired conversations go. */
  lemma ExpireIsRun(s: Sys, c: ConnInfo, kept: map<nat, nat>, now: nat)
    requires Inv(s) && c in s.table.recs && s.table.recs[c].state == Ready && s.table.now <= now
    requires kept.Keys <= s.table.recs[c].convs.Keys && forall k :: k in kept ==> kept[k] == s.table.recs[c].convs[k]
    ensures var u := T.DropConvs(s.table, c, kept); var a, b := ServerQuiet(E.Expires(c, kept), u), Quiet(u, now);
            && Enabled(s, a) && Enabled(Step(s, a), b) && Step(Step(s, a), b) == s.(table := T.Tick(u, now))
            && Inv(s.(table := T.Tick(u, now))) && Sess(T.Tick(u, now)) == Sess(s.table)
  {
    hide Inv, T.Inv, Sess, T.DropConvs;
    TableInv(s);
    var u := T.DropConvs(s.table, c, kept);
    var a := ServerQuiet(E.Expires(c, kept), u);
    QuietSessions(s.table, E.Expires(c, kept));
    StepKeeps(s, a);
    SameNow(s.table, c, kept);
    QuietStep(Step(s, a), now);
    StepKeeps(Step(s, a), Quiet(u, now));
  }

  lemma SameNow(t: T.Table, c: ConnInfo, kept: map<nat, nat>)
    requires c in t.recs
    ensures var u := T.DropConvs(t, c, kept);
            && u.now == t.now && c in u.recs
            && u.recs[c].state == t.recs[c].state && u.recs[c].myId == t.recs[c].myId && u.recs[c].oppositeId == t.recs[c].oppositeId
  {
  }

  /** The protocol does not see a cleaned list or a new time stamp. */
  lemma SameShown(s: Sys, x: H.Insides, t: T.Table, c: ConnInfo, z: V.Inside)
    requires Shows(s, H.State(s.table, x)) && Sess(t) == Sess(s.table) && c in x && z.filter == x[c].filter && z.sendSeq == x[c].sendSeq
    ensures Shows(s.(table := t), H.State(t, x[c := z]))
  {
    hide Sess;
  }

  lemma TimerIsRun(s: Sys, x: H.State, y: H.State, c: ConnInfo, sent: seq<Packet>, rd: H.Readings)
    requires Inv(s) && Shows(s, x) && c in x.t.recs && x.t.recs[c].state == Ready && H.TimerDone(x, y, c, sent, rd)
    ensures Possible(s, TimerRun(x, y, c, sent)) && Did(s, Run(s, TimerRun(x, y, c, sent)), y, Elems(sent), [], {})
  {
    hide Inv, T.Inv, Sess, Possible, Run, Enabled, Step, Shows, Elems, V.Cleared, T.DropConvs;
    ShowsTable(s, x);
    var kept := H.Listed(x.t.recs[c].convs, y.ins[c].list);
    var u := T.DropConvs(x.t, c, kept);
    var a, b := ServerQuiet(E.Expires(c, kept), u), Quiet(u, y.t.now);
    ExpireIsRun(s, c, kept, y.t.now);
    SameNow(x.t, c, kept);
    var v := s.(table := y.t);
    var z := y.ins[c].(sendSeq := x.ins[c].sendSeq);
    SameShown(s, x.ins, y.t, c, z);
    if sent == [] {
      assert [a, b] + [] == [a, b] && y.ins == x.ins[c := z];
      NoElems();
      RunTwo(s, a, b);
    } else {
      var d := ServerSends(c, Heartbeat, x.ins[c].rollers.mine);
      SendIsStep(v, x.ins[c := z], y.ins, c, Heartbeat, x.ins[c].rollers.mine);
      RunThree(s, a, b, d);
      ElemsOne(sent[0]);
      assert [a, b] + [d] == [a, b, d];
    }
  }

  ghost function CleanRun(x: P.Loop, y: P.Loop, asked: nat, now: nat): seq<Action> {
    if asked > x.lastClear + H.CONN_CLEAR_INTERVAL then [Quiet(x.s.t, now), ServerQuiet(E.Cleans, y.s.t)] else [Quiet(x.s.t, now)]
  }

  lemma LeftShown(s: Sys, x: H.Insides, y: H.State)
    requires Shows(s, H.State(s.table, x)) && Submap(Sess(y.t), Sess(s.table)) && V.LeftInside(x, y.ins, y.t)
    ensures Shows(s.(table := y.t), y)
  {
  }

  lemma CleansIsStep(s: Sys, x: H.Insides, y: H.State)
    requires Inv(s) && T.Inv(s.table) && Shows(s, H.State(s.table, x))
    requires y.t == ServerSweep.Sweep(s.table, ServerSweep.Quota(|s.table.mp|)) && V.LeftInside(x, y.ins, y.t)
    ensures var a := ServerQuiet(E.Cleans, y.t);
            Enabled(s, a) && Inv(Step(s, a)) && Step(s, a) == s.(table := y.t) && Shows(Step(s, a), y)
  {
    hide Inv, T.Inv, Sess, Shows, V.LeftInside, Submap;
    QuietSessions(s.table, E.Cleans);
    LeftShown(s, x, y);
    StepKeeps(s, ServerQuiet(E.Cleans, y.t));
  }

  lemma CleanIsRun(s: Sys, x: P.Loop, y: P.Loop, asked: nat, now: nat)
    requires Inv(s) && Shows(s, x.s) && T.Inv(x.s.t) && P.CleanDone(x, y, asked, now)
    ensures Possible(s, CleanRun(x, y, asked, now)) && Did(s, Run(s, CleanRun(x, y, asked, now)), y.s, {}, [], {})
  {
    hide Inv, T.Inv, Sess, Possible, Run, Shows, V.LeftInside, Submap, Enabled, Step, ServerSweep.Sweep, Did;
    ShowsTable(s, x.s);
    QuietStep(s, now);
    RunOne(s, Quiet(x.s.t, now));
    SameShownAll(s, x.s.ins, T.Tick(x.s.t, now));
    if asked > x.lastClear + H.CONN_CLEAR_INTERVAL {
      CleanRuns(s, x, y, now);
    } else {
      CleanSkipped(s, x, y, now);
    }
  }

  lemma CleanRuns(s: Sys, x: P.Loop, y: P.Loop, now: nat)
    requires Inv(s) && T.Inv(T.Tick(s.table, now)) && s.table == x.s.t && V.LeftInside(x.s.ins, y.s.ins, y.s.t)
    requires Enabled(s, Quiet(s.table, now)) && Step(s, Quiet(s.table, now)) == s.(table := T.Tick(s.table, now))
    requires Inv(s.(table := T.Tick(s.table, now))) && Shows(s.(table := T.Tick(s.table, now)), H.State(T.Tick(s.table, now), x.s.ins))
    requires y.s.t == ServerSweep.Sweep(T.Tick(s.table, now), ServerSweep.Quota(|s.table.mp|))
    ensures var run := [Quiet(s.table, now), ServerQuiet(E.Cleans, y.s.t)];
            Possible(s, run) && Did(s, Run(s, run), y.s, {}, [], {})
  {
    hide Inv, T.Inv, Sess, Possible, Run, Shows, V.LeftInside, Submap, Enabled, Step, ServerSweep.Sweep;
    CleansIsStep(s.(table := T.Tick(s.table, now)), x.s.ins, y.s);
    RunTwo(s, Quiet(s.table, now), ServerQuiet(E.Cleans, y.s.t));
  }

  lemma CleanSkipped(s: Sys, x: P.Loop, y: P.Loop, now: nat)
    requires Inv(s) && s.table == x.s.t && V.LeftInside(x.s.ins, y.s.ins, y.s.t)
    requires Enabled(s, Quiet(s.table, now)) && Step(s, Quiet(s.table, now)) == s.(table := T.Tick(s.table, now))
    requires Inv(s.(table := T.Tick(s.table, now))) && Shows(s.(table := T.Tick(s.table, now)), H.State(T.Tick(s.table, now), x.s.ins))
    requires y.s.t == T.Tick(s.table, now)
    ensures var run := [Quiet(s.table, now)]; Possible(s, run) && Did(s, Run(s, run), y.s, {}, [], {})
  {
    hide Inv, T.Inv, Sess, Possible, Run, Shows, V.LeftInside, Submap, Enabled, Step;
    RunOne(s, Quiet(s.table, now));
    SubmapSelf(Sess(y.s.t));
    LeftShown(s.(table := T.Tick(s.table, now)), x.s.ins, y.s);
  }

  lemma SubmapSelf(m: map<ConnInfo, Session>)
    ensures Submap(m, m)
  {
  }

  lemma SameShownAll(s: Sys, x: H.Insides, t: T.Table)
    requires Shows(s, H.State(s.table, x)) && Sess(t) == Sess(s.table)
    ensures Shows(s.(table := t), H.State(t, x))
  {
    hide Sess;
  }

  // ----- any event -----

  /** What an event sends besides answers to a SYN. */
  ghost function SentBy(e: P.LoopEvent, d: P.Done, constId: nat, junk: Junk): set<Packet> {
    match d
    case Got(_, SendIds(my, opposite), sent, _, _) => Elems(sent) + {Bare(my, opposite, constId, junk)}
    case Got(_, _, sent, _, _) => Elems(sent)
    case Ran(_, _, sent, _) => Elems(sent)
    case _ => {}
  }

  function DeliveredBy(d: P.Done): seq<Packet> {
    if d.Got? then d.out else []
  }

  /** The id a new connection draws. */
  function DrawnBy(x: P.Loop, e: P.LoopEvent, d: P.Done): set<nat> {
    if e.Raw? && d.Got? && H.Opens(x.s.t, e.p) then {d.g.myId} else {}
  }

  /** The network brings what clients sent, and ids are fresh. */
  ghost predicate Brings(s: Sys, x: P.Loop, e: P.LoopEvent, d: P.Done) {
    && (e.Raw? ==> (e.p.bare != [] ==> Carries(s.up, e.p.bare[0])) && forall q <- e.p.batch :: q in s.up)
    && DrawnBy(x, e, d) !! s.used
  }

  /** The protocol steps an event of the server's loop stands for. */
  ghost function StepsOf(s: Sys, x: P.Loop, y: P.Loop, e: P.LoopEvent, d: P.Done, hbMode: nat, dummySocket: bool,
          constId: nat, junk: Junk): seq<Action>
    requires T.Inv(x.s.t) && P.Happens(x, y, e, d, hbMode, dummySocket) && Brings(s, x, e, d)
  {
    match e
    case GlobalTimer => CleanRun(x, y, d.asked, d.now)
    case Fifo => []
    case Number(f) =>
      (match d.res
       case TimerRan(c) => TimerRun(x.s, y.s, c, d.sent)
       case FromConv(c, conv) => ConvRun(x.s, c, conv, d.sent)
       case Gone => [])
    case Raw(p) =>
      if H.Opens(x.s.t, p) then OpenRun(s, x.s.t, y.s.t, p, d.g.myId, constId, junk)
      else if p.syn || p.addr !in x.s.t.mp then []
      else
        T.AddressedByPeer(x.s.t, p.addr);
        var c := x.s.t.mp[p.addr];
        match x.s.t.recs[c].state
        case Idle => []
        case Handshake1 => if p.bare == [] then [] else ShakeRun(s, x.s, y.s, c, p.bare[0], d.g, d.tr.f, constId, junk)
        case Ready => ChannelRun(x.s, y.s, c, p.batch, hbMode, d.g.fds, d.out, d.tr)
  }

  lemma PacketIsRun(s: Sys, x: P.Loop, y: P.Loop, p: H.RawPacket, d: P.Done, hbMode: nat, dummySocket: bool,
          constId: nat, junk: Junk)
    requires Inv(s) && Shows(s, x.s) && T.Inv(x.s.t) && P.Happens(x, y, P.Raw(p), d, hbMode, dummySocket) && Brings(s, x, P.Raw(p), d)
    ensures var run := StepsOf(s, x, y, P.Raw(p), d, hbMode, dummySocket, constId, junk);
            Possible(s, run) && Did(s, Run(s, run), y.s, SentBy(P.Raw(p), d, constId, junk), d.out, DrawnBy(x, P.Raw(p), d))
  {
    hide Inv, T.Inv, Sess, Possible, Run, Shows, Elems, H.Opened, H.Shaken, H.ShakenInside, H.ChannelDone, Carries,
         OpenRun, ShakeRun, ChannelRun;
    NoElems();
    ShowsTable(s, x.s);
    if H.Opens(x.s.t, p) {
      OpenIsRun(s, x.s, y.s, p, d.g.myId, constId, junk);
    } else if p.syn || p.addr !in x.s.t.mp {
      RunNone(s, y.s);
    } else {
      T.AddressedByPeer(x.s.t, p.addr);
      var c := x.s.t.mp[p.addr];
      match x.s.t.recs[c].state
      case Idle => RunNone(s, y.s);
      case Handshake1 => if p.bare == [] { RunNone(s, y.s); } else { ShakeIsRun(s, x.s, y.s, c, p.bare[0], d, constId, junk); }
      case Ready => ChannelIsRun(s, x.s, y.s, c, p.batch, hbMode, d.g.fds, d.out, d.tr);
    }
  }

  lemma ShakeIsRun(s: Sys, x: H.State, y: H.State, c: ConnInfo, h: H.Shake, d: P.Done, constId: nat, junk: Junk)
    requires Inv(s) && Shows(s, x) && T.Inv(x.t) && c in x.t.recs && x.t.recs[c].state == Handshake1 && Carries(s.up, h)
    requires d.Got? && H.HandshakeDone(x, y, c, h, d.g, d.reply, d.sent, d.tr.f)
    ensures var run := ShakeRun(s, x, y, c, h, d.g, d.tr.f, constId, junk);
            && Possible(s, run)
            && Did(s, Run(s, run), y,
                   Elems(d.sent) + (if d.reply.SendIds? then {Bare(d.reply.myId, d.reply.oppositeId, constId, junk)} else {}), [], {})
  {
    hide Inv, T.Inv, Sess, Possible, Run, Shows, Elems, Carries, ShakeRun, E.Step;
    NoElems();
    if H.Confirms(x.t, c, h) {
      ConfirmIsRun(s, x, y, c, h, d.g, d.tr.f, d.sent, constId, junk);
    } else {
      AgainIsRun(s, x, y, c, h, d.g, d.tr.f, constId, junk);
    }
  }

  /** Whatever happens in the server's loop is a run of the protocol, from any state that shows the server's, with
  the packets sent, the messages delivered and the id drawn. */
  lemma EventIsRun(s: Sys, x: P.Loop, y: P.Loop, e: P.LoopEvent, d: P.Done, hbMode: nat, dummySocket: bool,
          constId: nat, junk: Junk)
    requires Inv(s) && Shows(s, x.s) && T.Inv(x.s.t) && P.Happens(x, y, e, d, hbMode, dummySocket) && Brings(s, x, e, d)
    ensures var run := StepsOf(s, x, y, e, d, hbMode, dummySocket, constId, junk);
            Possible(s, run) && Did(s, Run(s, run), y.s, SentBy(e, d, constId, junk), DeliveredBy(d), DrawnBy(x, e, d))
  {
    hide Inv, T.Inv, Sess, Possible, Run, Shows, Elems, H.Received, H.TimerDone, H.ConvDone, P.CleanDone, CleanRun,
         TimerRun, ConvRun, Carries;
    match e
    case GlobalTimer => CleanIsRun(s, x, y, d.asked, d.now);
    case Raw(p) => PacketIsRun(s, x, y, p, d, hbMode, dummySocket, constId, junk);
    case Fifo => RunNone(s, y.s);
    case Number(f) =>
      match d.res
      case TimerRan(c) => TimerIsRun(s, x.s, y.s, c, d.sent, d.rd);
      case FromConv(c, conv) => ConvIsRun(s, x.s, y.s, c, conv, d.recvLen, d.sent);
  }

  // ----- clients and the server's code together -----

  /** A step of a client, or an event of the server's loop that leads to `y`. */
  datatype Move = OfClient(a: Action) | OfServer(y: P.Loop, e: P.LoopEvent, d: P.Done, junk: Junk)

  predicate IsClients(a: Action) {
    a.ClientTimer? || a.ClientSynAck? || a.ClientBare? || a.ClientSafer? || a.ClientSends? || a.ClientReconnects? || a.ClientReset?
  }

  lemma ClientSide(s: Sys, a: Action)
    requires IsClients(a) && Enabled(s, a)
    ensures var u := Step(s, a); u.table == s.table && u.filters == s.filters && u.seqs == s.seqs && u.toServer == s.toServer
  {
    hide C.OnTimer, C.OnSynAck, C.OnBare, C.SendSafer, Heard, C.Parse, C.HearAll, FreshIds, Reaching;
  }

  lemma ClientShows(s: Sys, x: H.State, a: Action)
    requires Inv(s) && Shows(s, x) && IsClients(a) && Enabled(s, a)
    ensures Inv(Step(s, a)) && Shows(Step(s, a), x) && Step(s, a).toServer == s.toServer
  {
    hide Inv, Sess, Enabled, Step;
    StepKeeps(s, a);
    ClientSide(s, a);
  }

  lemma ShownInv(s: Sys, x: H.State)
    requires Inv(s) && Shows(s, x)
    ensures T.Inv(x.t)
  {
    hide Sess;
  }

  /** The settings of a server. */
  datatype Config = Config(hbMode: nat, dummySocket: bool, constId: nat)

  /** The moves are possible one after the other. */
  ghost predicate Plays(s: Sys, x: P.Loop, moves: seq<Move>, k: Config)
    requires Inv(s) && Shows(s, x.s)
    decreases |moves|
  {
    moves == [] ||
    match moves[0]
    case OfClient(a) => IsClients(a) && Enabled(s, a) && (ClientShows(s, x.s, a); Plays(Step(s, a), x, moves[1..], k))
    case OfServer(y, e, d, junk) =>
      ShownInv(s, x.s);
      && P.Happens(x, y, e, d, k.hbMode, k.dummySocket) && Brings(s, x, e, d)
      && (EventIsRun(s, x, y, e, d, k.hbMode, k.dummySocket, k.constId, junk);
          Plays(Run(s, StepsOf(s, x, y, e, d, k.hbMode, k.dummySocket, k.constId, junk)), y, moves[1..], k))
  }

  /** Where the moves lead: the protocol's state and the server's. */
  ghost function Played(s: Sys, x: P.Loop, moves: seq<Move>, k: Config): (Sys, P.Loop)
    requires Inv(s) && Shows(s, x.s) && Plays(s, x, moves, k)
    decreases |moves|
  {
    if moves == [] then (s, x) else
    match moves[0]
    case OfClient(a) => ClientShows(s, x.s, a); Played(Step(s, a), x, moves[1..], k)
    case OfServer(y, e, d, junk) =>
      ShownInv(s, x.s);
      EventIsRun(s, x, y, e, d, k.hbMode, k.dummySocket, k.constId, junk);
      Played(Run(s, StepsOf(s, x, y, e, d, k.hbMode, k.dummySocket, k.constId, junk)), y, moves[1..], k)
  }

  /** What the server's code delivered, in order. */
  function Deliveries(moves: seq<Move>): seq<Packet> {
    if moves == [] then [] else (if moves[0].OfServer? then DeliveredBy(moves[0].d) else []) + Deliveries(moves[1..])
  }

  lemma {:induction false} RunsAppend(s: Sys, a: seq<Action>, b: seq<Action>)
    requires Possible(s, a) && Possible(Run(s, a), b)
    ensures Possible(s, a + b) && Run(s, a + b) == Run(Run(s, a), b)
    decreases |a|
  {
    hide Enabled, Step;
    if a == [] {
      assert a + b == b;
    } else {
      RunsAppend(Step(s, a[0]), a[1..], b);
      assert (a + b)[1..] == a[1..] + b;
    }
  }

  /** Clients and the server's code together make a run of the protocol. */
  lemma {:induction false} PlayIsRun(s: Sys, x: P.Loop, moves: seq<Move>, k: Config) returns (run: seq<Action>)
    requires Inv(s) && Shows(s, x.s) && Plays(s, x, moves, k)
    ensures var (u, y) := Played(s, x, moves, k);
            Possible(s, run) && u == Run(s, run) && Shows(u, y.s) && u.toServer == s.toServer + Deliveries(moves)
    decreases |moves|
  {
    hide Inv, Enabled, Step, Shows, Sess, P.Happens, Brings, StepsOf, Possible, Run, T.Inv, Plays, Played,
         Deliveries, DeliveredBy;
    if moves == [] {
      run := [];
      RunsNothing(s);
      PlaysNothing(s, x, k);
      NoDeliveries(s.toServer);
    } else {
      var first, v, z := FirstMove(s, x, moves, k);
      var rest := PlayIsRun(v, z, moves[1..], k);
      RunsAppend(s, first, rest);
      DeliveriesMore(s.toServer, moves);
      run := first + rest;
    }
  }

  lemma Together(a: seq<Packet>, b: seq<Packet>, c: seq<Packet>)
    ensures a + b + c == a + (b + c)
  {
  }

  lemma DeliveriesMore(log: seq<Packet>, moves: seq<Move>)
    requires moves != []
    ensures log + (if moves[0].OfServer? then DeliveredBy(moves[0].d) else []) + Deliveries(moves[1..]) == log + Deliveries(moves)
  {
    hide DeliveredBy;
    Together(log, if moves[0].OfServer? then DeliveredBy(moves[0].d) else [], Deliveries(moves[1..]));
  }

  lemma NoDeliveries(log: seq<Packet>)
    ensures log + Deliveries([]) == log
  {
  }

  lemma PlaysNothing(s: Sys, x: P.Loop, k: Config)
    requires Inv(s) && Shows(s, x.s)
    ensures Plays(s, x, [], k) && Played(s, x, [], k) == (s, x)
  {
    hide Inv, Shows;
  }

  lemma FirstMove(s: Sys, x: P.Loop, moves: seq<Move>, k: Config) returns (first: seq<Action>, v: Sys, z: P.Loop)
    requires Inv(s) && Shows(s, x.s) && moves != [] && Plays(s, x, moves, k)
    ensures Possible(s, first) && v == Run(s, first) && Inv(v) && Shows(v, z.s) && Plays(v, z, moves[1..], k)
    ensures Played(s, x, moves, k) == Played(v, z, moves[1..], k)
    ensures v.toServer == s.toServer + (if moves[0].OfServer? then DeliveredBy(moves[0].d) else [])
  {
    hide Inv, Enabled, Step, Shows, Sess, P.Happens, Brings, StepsOf, Possible, Run, T.Inv;
    match moves[0]
    case OfClient(a) =>
      ClientShows(s, x.s, a);
      RunOne(s, a);
      first, v, z := [a], Step(s, a), x;
    case OfServer(y, e, d, junk) =>
      ShownInv(s, x.s);
      EventIsRun(s, x, y, e, d, k.hbMode, k.dummySocket, k.constId, junk);
      first := StepsOf(s, x, y, e, d, k.hbMode, k.dummySocket, k.constId, junk);
      v, z := Run(s, first), y;
  }

  lemma RunsNothing(s: Sys)
    ensures Possible(s, []) && Run(s, []) == s
  {
  }

  /** A server that just started. */
  ghost predicate Starting(s: Sys, x: P.Loop) {
    Start(s) && x.s == H.State(s.table, map[])
  }

  lemma StartingShows(s: Sys, x: P.Loop)
    requires Starting(s, x)
    ensures Inv(s) && Shows(s, x.s)
  {
    StartInv(s);
    hide Inv;
  }

  /** Agreement and at-most-once delivery of the server's code, over every run of any clients with it: each ready
  connection's peer is a client that reached handshake2 with the mirrored ids, each ready client was served with its
  own ids, and nothing is delivered twice or without its partner having sent it. */
  lemma CodeIsSafe(s: Sys, x: P.Loop, moves: seq<Move>, k: Config)
    requires Starting(s, x) && (StartingShows(s, x); Plays(s, x, moves, k))
    ensures Inv(s) && Shows(s, x.s)
    ensures var (u, y) := Played(s, x, moves, k); var out := Deliveries(moves);
            && (forall o :: o in y.s.t.recs && y.s.t.recs[o].state == Ready ==>
                  var r := y.s.t.recs[o];
                  r.oppositeId in u.reached && u.reached[r.oppositeId].oppositeId == r.myId && u.reached[r.oppositeId].constId == r.constId)
            && (forall i :: i in u.clients && u.clients[i].state == C.Ready ==>
                  u.clients[i].oppositeId in u.served && u.served[u.clients[i].oppositeId] == Served(u.clients[i].myId, u.clients[i].constId))
            && (forall i, j :: 0 <= i < j < |out| ==> out[i] != out[j])
            && (forall p <- out :: p in u.up && p.Safer? && p.to in u.served && u.served[p.to].oppositeId == p.from)
  {
    hide Inv, Shows, Plays, Played, Possible, Run, T.Inv;
    StartingShows(s, x);
    var run := PlayIsRun(s, x, moves, k);
    RunsAgree(s, run);
    RunsDeliverOnce(s, run);
    var u := Run(s, run);
    ShowsTable(u, Played(s, x, moves, k).1.s);
    assert s.toServer == [] && [] + Deliveries(moves) == Deliveries(moves);
  }
}
