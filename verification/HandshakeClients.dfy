/** The client's steps keep the protocol's invariant. */
module HandshakeClients {
  import opened Connection
  import opened Packets
  import opened Sessions
  import opened Handshake
  import opened HandshakeSteps
  import C = ClientSteps
  import T = ServerTable

  // ----- one client's entry changes -----

  lemma IdsPut(clients: map<nat, C.Client>, used: set<nat>, i: nat, d: C.Client, ids: set<nat>)
    requires ClientIds(clients, used) && i in clients && ids !! used
    requires d.myId == clients[i].myId || d.myId in ids
    ensures ClientIds(clients[i := d], used + ids)
  {
  }

  /** The history of reached ids gains at most the client's own id. */
  ghost predicate Gains(reached: map<nat, Reached>, more: map<nat, Reached>, id: nat, i: nat, constId: nat) {
    more == reached || (id !in reached && id in more && more == reached[id := more[id]]
                        && more[id].client == i && more[id].constId == constId)
  }

  lemma SessionsPut(s: Sys, i: nat, d: C.Client, more: map<nat, Reached>)
    requires ClientIds(s.clients, s.used) && ClientSessions(s.clients, s.reached, s.served) && i in s.clients
    requires Gains(s.reached, more, s.clients[i].myId, i, d.constId) && ClientOk(i, d, more, s.served)
    ensures ClientSessions(s.clients[i := d], more, s.served)
  {
    forall j | j in s.clients && j != i ensures ClientOk(j, s.clients[j], more, s.served) {
      assert ClientOk(j, s.clients[j], s.reached, s.served);
      assert s.clients[j].myId != s.clients[i].myId;
    }
  }

  lemma ReachedPut(s: Sys, i: nat, d: C.Client, ids: set<nat>, more: map<nat, Reached>)
    requires ReachedOk(s.reached, s.clients, s.used) && i in s.clients && s.clients[i].myId in s.used
    requires d.constId == s.clients[i].constId && Gains(s.reached, more, s.clients[i].myId, i, d.constId)
    ensures ReachedOk(more, s.clients[i := d], s.used + ids)
  {
  }

  lemma ServedMore(s: Sys, id: nat, i: nat, constId: nat, ids: set<nat>, more: map<nat, Reached>)
    requires ServedOk(s.served, s.reached, s.used) && Gains(s.reached, more, id, i, constId)
    ensures ServedOk(s.served, more, s.used + ids)
  {
  }

  ghost predicate BaresOk(sent: seq<Packet>, reached: map<nat, Reached>) {
    forall p <- sent :: p.Bare? && p.second != 0 ==>
      p.first in reached && reached[p.first].oppositeId == p.second && reached[p.first].constId == p.third
  }

  lemma BaresMore(s: Sys, id: nat, i: nat, constId: nat, sent: seq<Packet>, more: map<nat, Reached>)
    requires UpBares(s.up, s.reached) && Gains(s.reached, more, id, i, constId) && BaresOk(sent, more)
    ensures UpBares(s.up + Elems(sent), more)
  {
  }

  /** A move sends at most one packet; a channel packet takes the next number and carries the new id. */
  ghost predicate SendsOne(c: C.Client, d: C.Client, sent: seq<Packet>) {
    || (sent == [] && d.sendSeq >= c.sendSeq)
    || (|sent| == 1 && sent[0].Bare? && d.sendSeq >= c.sendSeq)
    || (|sent| == 1 && sent[0].Safer? && sent[0].from == d.myId && sent[0].seqNo == c.sendSeq && d.sendSeq > c.sendSeq)
  }

  lemma NumbersPut(s: Sys, i: nat, d: C.Client, sent: seq<Packet>, ids: set<nat>)
    requires UpNumbers(s.up, s.clients, s.used) && ClientIds(s.clients, s.used) && i in s.clients && ids !! s.used
    requires d.myId == s.clients[i].myId || d.myId in ids
    requires SendsOne(s.clients[i], d, sent)
    ensures UpNumbers(s.up + Elems(sent), s.clients[i := d], s.used + ids)
  {
    var c, up := s.clients[i], s.up + Elems(sent);
    assert forall p :: p in up ==> p in s.up || (|sent| == 1 && p == sent[0]);
    assert Below(s.up, c.myId, c.sendSeq);
    assert Below(s.up, d.myId, c.sendSeq);
    forall j | j in s.clients && j != i ensures Below(up, s.clients[j].myId, s.clients[j].sendSeq) {
      assert Below(s.up, s.clients[j].myId, s.clients[j].sendSeq);
    }
  }

  /** What was delivered to one client: packets for its id, new to its window. */
  ghost predicate DeliveredTo(s: Sys, id: nat, out: seq<Packet>) {
    && (forall e <- out :: e in s.down && e.Safer? && e.to == id)
    && Once(s.toClients + out)
  }

  lemma LogPut(s: Sys, i: nat, d: C.Client, ids: set<nat>, out: seq<Packet>)
    requires ClientLog(s.clients, s.used, s.toClients) && ClientIds(s.clients, s.used) && i in s.clients && ids !! s.used
    requires DeliveredTo(s, s.clients[i].myId, out) && Spent(s.toClients + out, d.myId, d.filter)
    ensures ClientLog(s.clients[i := d], s.used + ids, s.toClients + out)
  {
    var log := s.toClients + out;
    forall e | e in log ensures Header(e).to in s.used {
      assert e in s.toClients || e in out;
    }
    forall j | j in s.clients && j != i ensures Spent(log, s.clients[j].myId, s.clients[j].filter) {
      forall e | e in log && Header(e).to == s.clients[j].myId ensures Header(e).seqNo in s.clients[j].filter.spent {
        assert e in s.toClients || e in out;
      }
    }
  }

  lemma ServerSessionsMore(s: Sys, ids: set<nat>)
    requires ServerSessions(Sess(s.table), s.used, s.served, s.filters, s.seqs)
    ensures ServerSessions(Sess(s.table), s.used + ids, s.served, s.filters, s.seqs)
  {
  }

  lemma SentMore(s: Sys, sent: seq<Packet>, out: seq<Packet>, u: Sys)
    requires Sent(s) && forall e <- out :: e in s.down && e.Safer?
    requires u.up == s.up + Elems(sent) && u.down == s.down && u.toServer == s.toServer && u.toClients == s.toClients + out
    ensures Sent(u)
  {
    forall e | e in u.toClients ensures e in u.down && e.Safer? { assert e in s.toClients || e in out; }
  }

  ghost function After(s: Sys, i: nat, o: C.Out, ids: set<nat>, more: map<nat, Reached>, out: seq<Packet>): Sys {
    Moved(s, i, o, ids).(reached := more, toClients := s.toClients + out)
  }

  /** Any move of a client that fits these conditions keeps the invariant. */
  ghost predicate GoodMove(s: Sys, i: nat, o: C.Out, ids: set<nat>, more: map<nat, Reached>, out: seq<Packet>)
    requires i in s.clients
  {
    var c, d := s.clients[i], o.client;
    && ids !! s.used && (d.myId == c.myId || d.myId in ids) && d.constId == c.constId
    && Gains(s.reached, more, c.myId, i, c.constId) && ClientOk(i, d, more, s.served)
    && BaresOk(o.sent, more) && SendsOne(c, d, o.sent)
    && DeliveredTo(s, c.myId, out) && Spent(s.toClients + out, d.myId, d.filter)
  }

  lemma MoveKeeps(s: Sys, i: nat, o: C.Out, ids: set<nat>, more: map<nat, Reached>, out: seq<Packet>)
    requires Inv(s) && i in s.clients && GoodMove(s, i, o, ids, more, out)
    ensures Inv(After(s, i, o, ids, more, out))
  {
    hide T.Inv, ClientSessions, ReachedOk, UpBares, DownSafers, ServedOk, ServerSessions, ServerLog, ClientLog, UpNumbers,
         DownNumbers, Sent, Sess, ClientOk, BaresOk, SendsOne, Spent, Once, Gains;
    var c, d := s.clients[i], o.client;
    IdsPut(s.clients, s.used, i, d, ids);
    SessionsPut(s, i, d, more);
    ReachedPut(s, i, d, ids, more);
    ServedMore(s, c.myId, i, c.constId, ids, more);
    BaresMore(s, c.myId, i, c.constId, o.sent, more);
    NumbersPut(s, i, d, o.sent, ids);
    LogPut(s, i, d, ids, out);
    ServerSessionsMore(s, ids);
    SentMore(s, o.sent, out, After(s, i, o, ids, more, out));
  }

  // ----- the timer -----

  /** The window goes with the id: what was delivered to an id is spent as long as the id stays, and
      nothing was ever delivered to a fresh id. */
  lemma TimerSpends(s: Sys, c: C.Client, e: C.Env, log: seq<Packet>)
    requires Spent(log, c.myId, c.filter) && FreshIds(s, e) && forall q <- log :: Header(q).to in s.used
    ensures var d := C.OnTimer(c, e).client; Spent(log, d.myId, d.filter)
  {
    hide C.OnTimer;
    C.TimerIds(c, e);
  }

  lemma TimerOk(s: Sys, i: nat, c: C.Client, e: C.Env, more: map<nat, Reached>)
    requires FreshIds(s, e) && ClientOk(i, c, more, s.served) && forall id :: id in more ==> id in s.used
    ensures var o := C.OnTimer(c, e);
            && ClientOk(i, o.client, more, s.served) && BaresOk(o.sent, more) && SendsOne(c, o.client, o.sent)
            && o.client.constId == c.constId && (o.client.myId == c.myId || o.client.myId in Fresh2(e))
  {
    hide C.OnTimer;
    C.TimerIds(c, e);
    C.TimerStates(c, e);
    C.TimerSends(c, e);
  }

  /** A client that was prepared as `c` and then runs its timer. */
  lemma TimerMove(s: Sys, i: nat, c: C.Client, e: C.Env, more: map<nat, Reached>, out: seq<Packet>, heard: nat)
    requires Inv(s) && i in s.clients && FreshIds(s, e)
    requires c.myId == s.clients[i].myId && c.constId == s.clients[i].constId && c.sendSeq == s.clients[i].sendSeq
    requires ClientOk(i, c, more, s.served) && Gains(s.reached, more, c.myId, i, c.constId)
    requires DeliveredTo(s, c.myId, out) && Spent(s.toClients + out, c.myId, c.filter)
    ensures var o := C.OnTimer(c, e);
            Inv(After(s, i, C.Out(o.client.(lastHbRecvTime := heard), o.sent), Fresh2(e), more, out))
  {
    hide Inv, C.OnTimer, DeliveredTo, Once, Spent, Gains, ClientOk, BaresOk;
    var o := C.OnTimer(c, e);
    GainedIds(s, i, more, c.myId);
    LoggedIds(s, i, out);
    TimerSpends(s, c, e, s.toClients + out);
    TimerOk(s, i, c, e, more);
    var q := C.Out(o.client.(lastHbRecvTime := heard), o.sent);
    SameButHeard(i, o.client, heard, more, s.served);
    MoveKeeps(s, i, q, Fresh2(e), more, out);
  }

  lemma SameButHeard(i: nat, c: C.Client, heard: nat, more: map<nat, Reached>, served: map<nat, Served>)
    requires ClientOk(i, c, more, served)
    ensures ClientOk(i, c.(lastHbRecvTime := heard), more, served)
  {
  }

  lemma GainedIds(s: Sys, i: nat, more: map<nat, Reached>, id: nat)
    requires Inv(s) && i in s.clients && id == s.clients[i].myId && Gains(s.reached, more, id, i, s.clients[i].constId)
    ensures forall x :: x in more ==> x in s.used
  {
  }

  lemma LoggedIds(s: Sys, i: nat, out: seq<Packet>)
    requires Inv(s) && i in s.clients && DeliveredTo(s, s.clients[i].myId, out)
    ensures forall q <- s.toClients + out :: Header(q).to in s.used
  {
    forall q | q in s.toClients + out ensures Header(q).to in s.used {
      assert q in s.toClients || q in out;
    }
  }

  lemma NothingNew(s: Sys, i: nat)
    requires Inv(s) && i in s.clients
    ensures s.toClients + [] == s.toClients && DeliveredTo(s, s.clients[i].myId, [])
    ensures Spent(s.toClients, s.clients[i].myId, s.clients[i].filter)
    ensures Gains(s.reached, s.reached, s.clients[i].myId, i, s.clients[i].constId)
    ensures ClientOk(i, s.clients[i], s.reached, s.served)
  {
    assert s.toClients + [] == s.toClients;
  }

  // ----- the client's steps -----

  lemma ClientTimerKeeps(s: Sys, i: nat, e: C.Env)
    requires Inv(s) && Enabled(s, ClientTimer(i, e))
    ensures Inv(Step(s, ClientTimer(i, e)))
  {
    hide Inv, C.OnTimer, DeliveredTo, Spent, Gains, ClientOk;
    NothingNew(s, i);
    TimerMove(s, i, s.clients[i], e, s.reached, [], C.OnTimer(s.clients[i], e).client.lastHbRecvTime);
    assert Step(s, ClientTimer(i, e)) == After(s, i, C.OnTimer(s.clients[i], e), Fresh2(e), s.reached, []);
  }

  lemma ClientSynAckKeeps(s: Sys, i: nat, now: nat, e: C.Env)
    requires Inv(s) && Enabled(s, ClientSynAck(i, now, e))
    ensures Inv(Step(s, ClientSynAck(i, now, e)))
  {
    hide Inv, C.OnTimer, DeliveredTo, Spent, Gains;
    NothingNew(s, i);
    var c := s.clients[i].(state := C.Handshake1, lastStateTime := now, lastHbSentTime := 0);
    TimerMove(s, i, c, e, s.reached, [], C.OnTimer(c, e).client.lastHbRecvTime);
    assert Step(s, ClientSynAck(i, now, e)) == After(s, i, C.OnTimer(c, e), Fresh2(e), s.reached, []);
  }

  lemma StaysPut(s: Sys, i: nat, ids: set<nat>)
    requires Inv(s) && i in s.clients && ids !! s.used
    ensures Inv(After(s, i, C.Out(s.clients[i], []), ids, s.reached, []))
  {
    hide Inv, DeliveredTo, Spent, Gains, ClientOk;
    NothingNew(s, i);
    MoveKeeps(s, i, C.Out(s.clients[i], []), ids, s.reached, []);
  }

  /** A client in handshake1 has an id nobody reached handshake2 with. */
  lemma BareReaches(s: Sys, i: nat, p: Packet, d: C.Client)
    requires Inv(s) && i in s.clients && s.clients[i].state == C.Handshake1 && p.Bare? && p.second == s.clients[i].myId
    requires d.state == C.Handshake2 && d.myId == s.clients[i].myId && d.oppositeId == p.first && d.constId == s.clients[i].constId
    ensures ClientOk(i, d, Reaching(s, i, p), s.served)
    ensures Gains(s.reached, Reaching(s, i, p), d.myId, i, d.constId)
  {
    assert ClientOk(i, s.clients[i], s.reached, s.served);
  }

  lemma ClientBareKeeps(s: Sys, i: nat, p: Packet, now: nat, e: C.Env)
    requires Inv(s) && Enabled(s, ClientBare(i, p, now, e))
    ensures Inv(Step(s, ClientBare(i, p, now, e)))
  {
    hide Inv, C.OnTimer, DeliveredTo, Spent, ClientOk, Gains;
    NothingNew(s, i);
    var c := s.clients[i];
    if p.Bare? && p.second == c.myId {
      var d := c.(oppositeId := p.first, state := C.Handshake2, lastStateTime := now, lastHbSentTime := 0);
      BareReaches(s, i, p, d);
      TimerMove(s, i, d, e, Reaching(s, i, p), [], C.OnTimer(d, e).client.lastHbRecvTime);
      assert Step(s, ClientBare(i, p, now, e)) == After(s, i, C.OnTimer(d, e), Fresh2(e), Reaching(s, i, p), []);
    } else {
      StaysPut(s, i, Fresh2(e));
      assert Step(s, ClientBare(i, p, now, e)) == After(s, i, C.Out(c, []), Fresh2(e), s.reached, []);
    }
  }

  /** A batch delivers packets of the session only, each once. */
  lemma ParsedFits(s: Sys, i: nat, batch: seq<Packet>)
    requires Inv(s) && i in s.clients && forall p <- batch :: p in s.down
    ensures var c := s.clients[i]; var (g, out) := Parsed(c.filter, c.myId, c.oppositeId, batch);
            DeliveredTo(s, c.myId, out) && Spent(s.toClients + out, c.myId, g)
            && (out != [] ==> c.oppositeId in s.served && s.served[c.oppositeId].oppositeId == c.myId)
  {
    var c := s.clients[i];
    var (g, out) := Parsed(c.filter, c.myId, c.oppositeId, batch);
    ParsedSpends(c.filter, c.myId, c.oppositeId, batch);
    if out != [] { assert out[0] in out; }
    var log := s.toClients + out;
    forall e | e in log && Header(e).to == c.myId ensures Header(e).seqNo in g.spent {
      assert e in s.toClients || e in out;
    }
    forall j, k | 0 <= j < k < |log| ensures Header(log[j]).to != Header(log[k]).to || Header(log[j]).seqNo != Header(log[k]).seqNo {
      if j < |s.toClients| <= k {
        assert log[j] in s.toClients && log[k] in out;
      }
    }
  }

  lemma ClientSaferKeeps(s: Sys, i: nat, batch: seq<Packet>, addrOk: bool, nows: seq<nat>, now: nat, heard: seq<nat>, e: C.Env)
    requires Inv(s) && Enabled(s, ClientSafer(i, batch, addrOk, nows, now, heard, e))
    ensures Inv(Step(s, ClientSafer(i, batch, addrOk, nows, now, heard, e)))
  {
    hide Inv, C.OnTimer, DeliveredTo, Spent, Parsed, C.Parse, C.HearAll, Gains;
    NothingNew(s, i);
    ParsedFits(s, i, batch);
    var c := s.clients[i];
    var (d, out) := C.Parse(c, batch, e.hbMode, nows);
    C.ParseFacts(c, batch, e.hbMode, nows);
    C.HearAllFacts(d, out, now, heard, e);
    var o := Heard(c, batch, addrOk, nows, now, heard, e);
    if addrOk && out != [] && c.state == C.Handshake2 {
      var r := d.(state := C.Ready, lastHbSentTime := 0, lastHbRecvTime := now, lastRollerTime := now);
      TimerMove(s, i, r, e, s.reached, out, o.client.lastHbRecvTime);
    } else {
      assert GoodMove(s, i, o, Fresh2(e), s.reached, out);
      MoveKeeps(s, i, o, Fresh2(e), s.reached, out);
    }
    assert Step(s, ClientSafer(i, batch, addrOk, nows, now, heard, e)) == After(s, i, o, Fresh2(e), s.reached, out);
  }

  lemma ClientSendsKeeps(s: Sys, i: nat, conv: nat)
    requires Inv(s) && Enabled(s, ClientSends(i, conv))
    ensures Inv(Step(s, ClientSends(i, conv)))
  {
    hide Inv, DeliveredTo, Spent, Gains;
    NothingNew(s, i);
    var o := C.SendSafer(s.clients[i], Data(conv));
    assert GoodMove(s, i, o, {}, s.reached, []);
    MoveKeeps(s, i, o, {}, s.reached, []);
    assert Step(s, ClientSends(i, conv)) == After(s, i, o, {}, s.reached, []);
  }

  /** A fresh id starts with nothing delivered to it, whatever the window holds. */
  lemma ClientReconnectsKeeps(s: Sys, i: nat, id: nat)
    requires Inv(s) && Enabled(s, ClientReconnects(i, id))
    ensures Inv(Step(s, ClientReconnects(i, id)))
  {
    hide Inv, DeliveredTo, Gains;
    NothingNew(s, i);
    LoggedIds(s, i, []);
    GainedIds(s, i, s.reached, s.clients[i].myId);
    var o := C.Out(s.clients[i].(state := C.Idle, myId := id), []);
    assert GoodMove(s, i, o, {id}, s.reached, []);
    MoveKeeps(s, i, o, {id}, s.reached, []);
    assert Step(s, ClientReconnects(i, id)) == After(s, i, o, {id}, s.reached, []);
  }

  lemma ClientResetKeeps(s: Sys, i: nat)
    requires Inv(s) && Enabled(s, ClientReset(i))
    ensures Inv(Step(s, ClientReset(i)))
  {
    hide Inv, DeliveredTo, Gains, Spent;
    NothingNew(s, i);
    var o := C.Out(s.clients[i].(disabled := true), []);
    assert GoodMove(s, i, o, {}, s.reached, []);
    MoveKeeps(s, i, o, {}, s.reached, []);
    assert Step(s, ClientReset(i)) == After(s, i, o, {}, s.reached, []);
  }
}
