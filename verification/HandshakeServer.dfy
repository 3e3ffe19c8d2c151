/** The server's steps keep the protocol's invariant; so do runs. */
module HandshakeServer {
  import opened Connection
  import opened Packets
  import opened Sessions
  import opened Handshake
  import opened HandshakeSteps
  import opened HandshakeClients
  import AntiReplay
  import T = ServerTable
  import E = ServerEvents

  // ----- sessions end -----

  lemma FewerSessions(s: Sys, m: map<ConnInfo, Session>, n: map<ConnInfo, Session>)
    requires Submap(n, m) && ServerSessions(m, s.used, s.served, s.filters, s.seqs)
    requires ServerLog(m, s.filters, s.served, s.toServer) && DownNumbers(s.down, m, s.seqs)
    ensures ServerSessions(n, s.used, s.served, s.filters, s.seqs)
    ensures ServerLog(n, s.filters, s.served, s.toServer) && DownNumbers(s.down, n, s.seqs)
  {
  }

  lemma ShrinkKeeps(s: Sys, t: T.Table)
    requires Inv(s) && T.Inv(t) && Submap(Sess(t), Sess(s.table))
    ensures Inv(s.(table := t))
  {
    hide T.Inv, ClientIds, ClientSessions, ReachedOk, UpBares, DownSafers, ServedOk, ServerSessions, ServerLog, ClientLog,
         UpNumbers, DownNumbers, Sess, Submap;
    FewerSessions(s, Sess(s.table), Sess(t));
  }

  lemma ServerQuietKeeps(s: Sys, ev: E.Event, t: T.Table)
    requires Inv(s) && Enabled(s, ServerQuiet(ev, t))
    ensures Inv(Step(s, ServerQuiet(ev, t)))
  {
    hide Inv, E.Step, T.Inv;
    E.StepKeeps(s.table, ev);
    QuietSessions(s.table, ev);
    ShrinkKeeps(s, t);
  }

  // ----- handshake packets of the server -----

  lemma BareDown(s: Sys, p: Packet)
    requires Inv(s) && p.Bare?
    ensures Inv(s.(down := s.down + {p}))
  {
    hide T.Inv, ClientIds, ClientSessions, ReachedOk, UpBares, ServedOk, ServerSessions, ServerLog, ClientLog, UpNumbers, Sess;
    BareDownParts(s, p);
    hide DownSafers, DownNumbers;
  }

  lemma BareDownParts(s: Sys, p: Packet)
    requires DownSafers(s.down, s.served) && DownNumbers(s.down, Sess(s.table), s.seqs) && p.Bare?
    ensures DownSafers(s.down + {p}, s.served) && DownNumbers(s.down + {p}, Sess(s.table), s.seqs)
  {
    hide Sess;
    forall c | c in Sess(s.table) && Sess(s.table)[c].Established? && c in s.seqs
      ensures Below(s.down + {p}, Sess(s.table)[c].myId, s.seqs[c]) {
      assert Below(s.down, Sess(s.table)[c].myId, s.seqs[c]);
    }
  }

  lemma OpenSession(s: Sys, c: ConnInfo, id: nat, n: map<ConnInfo, Session>)
    requires var m := Sess(s.table); n == m[c := Shaking(id)] && c !in m && id !in s.used
    requires ServerSessions(Sess(s.table), s.used, s.served, s.filters, s.seqs) && ServedOk(s.served, s.reached, s.used)
    requires ServerLog(Sess(s.table), s.filters, s.served, s.toServer) && DownNumbers(s.down, Sess(s.table), s.seqs)
    ensures ServerSessions(n, s.used + {id}, s.served, s.filters, s.seqs)
    ensures ServerLog(n, s.filters, s.served, s.toServer) && DownNumbers(s.down, n, s.seqs)
  {
    hide Sess, Spent, Below;
  }

  lemma MoreUsed(s: Sys, ids: set<nat>)
    requires ClientIds(s.clients, s.used) && ReachedOk(s.reached, s.clients, s.used) && ServedOk(s.served, s.reached, s.used)
    requires ClientLog(s.clients, s.used, s.toClients) && UpNumbers(s.up, s.clients, s.used)
    ensures ClientIds(s.clients, s.used + ids) && ReachedOk(s.reached, s.clients, s.used + ids)
    ensures ServedOk(s.served, s.reached, s.used + ids)
    ensures ClientLog(s.clients, s.used + ids, s.toClients) && UpNumbers(s.up, s.clients, s.used + ids)
  {
    hide Spent, Below, Once, Named;
  }

  lemma OpenKeeps(s: Sys, t: T.Table, c: ConnInfo, id: nat)
    requires Inv(s) && T.Inv(t) && Sess(t) == Sess(s.table)[c := Shaking(id)] && c !in Sess(s.table) && id !in s.used
    ensures Inv(s.(table := t, used := s.used + {id}))
  {
    hide T.Inv, ClientIds, ClientSessions, ReachedOk, UpBares, DownSafers, ServedOk, ServerSessions, ServerLog, ClientLog,
         UpNumbers, DownNumbers, Sess;
    OpenSession(s, c, id, Sess(t));
    MoreUsed(s, {id});
  }

  lemma ServerOpensKeeps(s: Sys, a: Action)
    requires Inv(s) && Enabled(s, a) && a.ServerOpens?
    ensures Inv(Step(s, a))
  {
    hide Inv, E.Step, T.Inv, E.Enabled;
    match a
    case ServerOpens(addr, c, r, pos, t, p, k, junk) =>
      E.StepKeeps(s.table, E.Arrives(addr, c, r, pos));
      ArrivalSession(s.table, addr, c, r, pos);
      OpenKeeps(s, t, c, r.myId);
      BareDown(s.(table := t, used := s.used + {r.myId}), Bare(r.myId, p.first, k, junk));
  }

  lemma ServerAnswersAgainKeeps(s: Sys, a: Action)
    requires Inv(s) && Enabled(s, a) && a.ServerAnswersAgain?
    ensures Inv(Step(s, a))
  {
    hide Inv;
    BareDown(s, Bare(Sess(s.table)[a.c].myId, a.p.first, a.constId, a.junk));
  }

  // ----- channel packets of the server -----

  lemma SaferDown(s: Sys, c: ConnInfo, msg: Message, roller: nat)
    requires DownSafers(s.down, s.served) && DownNumbers(s.down, Sess(s.table), s.seqs)
    requires ServerSessions(Sess(s.table), s.used, s.served, s.filters, s.seqs) && IsServing(s, c)
    ensures var u := Sending(s, c, msg, roller);
            && DownSafers(u.down, u.served) && DownNumbers(u.down, Sess(u.table), u.seqs)
            && ServerSessions(Sess(u.table), u.used, u.served, u.filters, u.seqs)
  {
    hide Sess;
    var m, u, p := Sess(s.table), Sending(s, c, msg, roller), SaferFrom(s, c, msg, roller);
    assert SessionOk(c, m[c], s.served, s.filters, s.seqs);
    assert Below(s.down, m[c].myId, s.seqs[c]);
    forall d | d in m && m[d].Established? && d in u.seqs ensures Below(u.down, m[d].myId, u.seqs[d]) {
      assert Below(s.down, m[d].myId, s.seqs[d]);
    }
    forall d | d in m ensures SessionOk(d, m[d], u.served, u.filters, u.seqs) {
      assert SessionOk(d, m[d], s.served, s.filters, s.seqs);
    }
  }

  lemma SendingKeeps(s: Sys, c: ConnInfo, msg: Message, roller: nat)
    requires Inv(s) && IsServing(s, c)
    ensures Inv(Sending(s, c, msg, roller))
  {
    SaferDown(s, c, msg, roller);
    hide T.Inv, ClientIds, ClientSessions, ReachedOk, UpBares, DownSafers, ServedOk, ServerSessions, ServerLog, ClientLog,
         UpNumbers, DownNumbers, Sess;
  }

  // ----- a handshake completes -----

  lemma ServeSessions(s: Sys, n: map<ConnInfo, Session>, c: ConnInfo, p: Packet, o: ConnInfo, u: Sys)
    requires p.Bare? && IsShaking(s, c) && Sess(s.table)[c].myId == p.second
    requires Answered(Sess(s.table), n, c, o, p.first, p.third)
    requires ServerSessions(Sess(s.table), s.used, s.served, s.filters, s.seqs)
    requires u.used == s.used && u.served == s.served[p.second := Served(p.first, p.third)]
    requires o in u.filters && o in u.seqs && s.filters.Keys <= u.filters.Keys && s.seqs.Keys <= u.seqs.Keys
    ensures ServerSessions(n, u.used, u.served, u.filters, u.seqs)
  {
    hide Sess;
    var m := Sess(s.table);
    forall d | d in n ensures n[d].myId in u.used && SessionOk(d, n[d], u.served, u.filters, u.seqs) {
      if d != o {
        assert SessionOk(d, m[d], s.served, s.filters, s.seqs);
        assert m[d].myId != m[c].myId;
      }
    }
  }

  /** Nothing was delivered to an id that is not served yet, and nothing was sent from it. */
  lemma ServeLogs(s: Sys, n: map<ConnInfo, Session>, c: ConnInfo, p: Packet, o: ConnInfo, u: Sys)
    requires p.Bare? && IsShaking(s, c) && Sess(s.table)[c].myId == p.second && p.second !in s.served
    requires Answered(Sess(s.table), n, c, o, p.first, p.third)
    requires ServerLog(Sess(s.table), s.filters, s.served, s.toServer) && DownNumbers(s.down, Sess(s.table), s.seqs)
    requires DownSafers(s.down, s.served)
    requires u.served == s.served[p.second := Served(p.first, p.third)] && u.toServer == s.toServer && u.down == s.down
    requires o in u.filters && u.filters == s.filters[o := u.filters[o]] && o in u.seqs && u.seqs == s.seqs[o := u.seqs[o]]
    ensures ServerLog(n, u.filters, u.served, u.toServer) && DownNumbers(u.down, n, u.seqs) && DownSafers(u.down, u.served)
  {
    hide Sess;
    var m := Sess(s.table);
    forall d | d in n && n[d].Established? && d in u.filters ensures Spent(u.toServer, n[d].myId, u.filters[d]) {
      if d != o { assert Spent(s.toServer, m[d].myId, s.filters[d]); }
    }
    forall d | d in n && n[d].Established? && d in u.seqs ensures Below(u.down, n[d].myId, u.seqs[d]) {
      if d != o { assert Below(s.down, m[d].myId, s.seqs[d]); }
    }
  }

  /** The partner of the new session reached handshake2 with exactly these ids. */
  lemma ServeHistory(s: Sys, p: Packet)
    requires UpBares(s.up, s.reached) && ServedOk(s.served, s.reached, s.used) && ClientSessions(s.clients, s.reached, s.served)
    requires p in s.up && p.Bare? && p.second != 0 && p.second !in s.served && p.second in s.used
    ensures var served := s.served[p.second := Served(p.first, p.third)];
            ServedOk(served, s.reached, s.used) && ClientSessions(s.clients, s.reached, served)
  {
    var served := s.served[p.second := Served(p.first, p.third)];
    forall i | i in s.clients ensures ClientOk(i, s.clients[i], s.reached, served) {
      assert ClientOk(i, s.clients[i], s.reached, s.served);
    }
  }

  lemma ShakingIds(s: Sys, c: ConnInfo)
    requires Inv(s) && IsShaking(s, c)
    ensures Sess(s.table)[c].myId in s.used && Sess(s.table)[c].myId !in s.served
  {
    assert SessionOk(c, Sess(s.table)[c], s.served, s.filters, s.seqs);
  }

  lemma ServingKeeps(s: Sys, t: T.Table, c: ConnInfo, p: Packet, o: ConnInfo, slot0: bool, firstSeq: nat)
    requires Inv(s) && T.Inv(t) && IsShaking(s, c)
    requires p in s.up && p.Bare? && p.second != 0 && p.second == Sess(s.table)[c].myId
    requires Answered(Sess(s.table), Sess(t), c, o, p.first, p.third)
    requires p.second in s.used && p.second !in s.served
    ensures Inv(Serving(s, t, p, o, slot0, firstSeq))
  {
    hide T.Inv, Answered, ClientIds, ClientSessions, ReachedOk, UpBares, DownSafers, ServedOk, ServerSessions, ServerLog, ClientLog,
         UpNumbers, DownNumbers, Sess;
    var u := Serving(s, t, p, o, slot0, firstSeq);
    ServeSessions(s, Sess(t), c, p, o, u);
    ServeLogs(s, Sess(t), c, p, o, u);
    ServeHistory(s, p);
  }

  lemma NowServing(s: Sys, t: T.Table, c: ConnInfo, p: Packet, o: ConnInfo, slot0: bool, firstSeq: nat)
    requires IsShaking(s, c) && p.Bare? && Answered(Sess(s.table), Sess(t), c, o, p.first, p.third)
    ensures IsServing(Serving(s, t, p, o, slot0, firstSeq), o)
  {
    hide Sess;
  }

  lemma ServerShakesKeeps(s: Sys, a: Action)
    requires Inv(s) && Enabled(s, a) && a.ServerShakes?
    ensures Inv(Step(s, a))
  {
    hide Inv, T.Inv, E.Step, E.Enabled, Sess;
    match a
    case ServerShakes(c, p, f, fd, t, o, slot0, firstSeq, roller) =>
      E.StepKeeps(s.table, E.Answers(c, p.first, p.third, f, fd));
      if Sess(t) == Sess(s.table) - {c} {
        ShrinkKeeps(s, t);
      } else {
        ShakingIds(s, c);
        ServingKeeps(s, t, c, p, o, slot0, firstSeq);
        NowServing(s, t, c, p, o, slot0, firstSeq);
        SendingKeeps(Serving(s, t, p, o, slot0, firstSeq), o, Heartbeat, roller);
      }
  }

  /** Whatever a handshake packet does to the table, it is one of the protocol's steps. */
  lemma ShakesIsPossible(s: Sys, c: ConnInfo, p: Packet, f: nat, fd: int, slot0: bool, firstSeq: nat, roller: nat)
    returns (o: ConnInfo)
    requires Inv(s) && IsShaking(s, c) && p in s.up && p.Bare? && p.second != 0 && p.second == Sess(s.table)[c].myId
    requires E.Enabled(s.table, E.Answers(c, p.first, p.third, f, fd))
    ensures Enabled(s, ServerShakes(c, p, f, fd, E.Step(s.table, E.Answers(c, p.first, p.third, f, fd)), o, slot0, firstSeq, roller))
    ensures o == if p.third in s.table.constIdMp then s.table.constIdMp[p.third] else c
  {
    hide T.Inv, E.Step, Sess;
    o := AnswerSessions(s.table, c, p.first, p.third, f, fd);
  }

  // ----- a batch arrives -----

  lemma {:induction false} ReplaySessions(t: T.Table, c: ConnInfo, msgs: seq<Packet>, events: seq<E.Event>)
    requires T.Inv(t) && (forall p <- msgs :: p.Safer?) && Replays(c, msgs, events) && E.Possible(t, events)
    ensures T.Inv(E.Run(t, events)) && Sess(E.Run(t, events)) == Sess(t)
    decreases |events|
  {
    hide T.Inv, E.Step, E.Enabled, Sess;
    if events != [] {
      E.StepKeeps(t, events[0]);
      QuietSessions(t, events[0]);
      ReplaySessions(E.Step(t, events[0]), c, if events[0].Ticks? then msgs else msgs[1..], events[1..]);
    }
  }

  lemma BatchLog(s: Sys, c: ConnInfo, batch: seq<Packet>, g: AntiReplay.Filter, out: seq<Packet>)
    requires ServerLog(Sess(s.table), s.filters, s.served, s.toServer) && IsServing(s, c)
    requires ServerSessions(Sess(s.table), s.used, s.served, s.filters, s.seqs)
    requires var m := Sess(s.table)[c]; (g, out) == Parsed(s.filters[c], m.myId, m.oppositeId, batch)
    ensures ServerLog(Sess(s.table), s.filters[c := g], s.served, s.toServer + out)
  {
    var m := Sess(s.table);
    assert m[c].Established?;
    hide Sess;
    var log := s.toServer + out;
    ParsedSpends(s.filters[c], m[c].myId, m[c].oppositeId, batch);
    assert SessionOk(c, m[c], s.served, s.filters, s.seqs);
    assert Spent(s.toServer, m[c].myId, s.filters[c]);
    forall e | e in log ensures Header(e).to in s.served && s.served[Header(e).to].oppositeId == Header(e).from {
      assert e in s.toServer || e in out;
    }
    forall d | d in m && m[d].Established? && d in s.filters[c := g] ensures Spent(log, m[d].myId, s.filters[c := g][d]) {
      BatchSpent(s, c, d, g, out);
    }
    BatchOnce(s.toServer, out, m[c].myId, s.filters[c]);
  }

  lemma BatchSpent(s: Sys, c: ConnInfo, d: ConnInfo, g: AntiReplay.Filter, out: seq<Packet>)
    requires var m := Sess(s.table); c in m && d in m && m[d].Established? && c in s.filters && d in s.filters[c := g]
    requires var m := Sess(s.table); (d != c ==> m[d].myId != m[c].myId) && Spent(s.toServer, m[c].myId, s.filters[c])
    requires var m := Sess(s.table); d in s.filters && Spent(s.toServer, m[d].myId, s.filters[d])
    requires s.filters[c].spent <= g.spent && forall e <- out :: Header(e).to == Sess(s.table)[c].myId && Header(e).seqNo in g.spent
    ensures Spent(s.toServer + out, Sess(s.table)[d].myId, s.filters[c := g][d])
  {
    hide Sess;
    forall e | e in s.toServer + out && Header(e).to == Sess(s.table)[d].myId ensures Header(e).seqNo in s.filters[c := g][d].spent {
      assert e in s.toServer || e in out;
    }
  }

  lemma BatchOnce(log: seq<Packet>, out: seq<Packet>, id: nat, f: AntiReplay.Filter)
    requires Once(log) && Spent(log, id, f) && SeqNosDiffer(out)
    requires forall e <- out :: Header(e).to == id && Header(e).seqNo !in f.spent
    ensures Once(log + out)
  {
    var all := log + out;
    forall j, k | 0 <= j < k < |all| ensures Header(all[j]).to != Header(all[k]).to || Header(all[j]).seqNo != Header(all[k]).seqNo {
      if j < |log| <= k { assert all[j] in log && all[k] in out; }
    }
  }

  lemma NewFilter(s: Sys, c: ConnInfo, g: AntiReplay.Filter)
    requires ServerSessions(Sess(s.table), s.used, s.served, s.filters, s.seqs)
    ensures ServerSessions(Sess(s.table), s.used, s.served, s.filters[c := g], s.seqs)
  {
    hide Sess;
    var m := Sess(s.table);
    forall d | d in m ensures SessionOk(d, m[d], s.served, s.filters[c := g], s.seqs) {
      assert SessionOk(d, m[d], s.served, s.filters, s.seqs);
    }
  }

  lemma BatchSent(s: Sys, out: seq<Packet>, u: Sys)
    requires Sent(s) && forall e <- out :: e in s.up && e.Safer?
    requires u.toServer == s.toServer + out && u.up == s.up && u.down == s.down && u.toClients == s.toClients
    ensures Sent(u)
  {
    forall e | e in u.toServer ensures e in u.up && e.Safer? { assert e in s.toServer || e in out; }
  }

  lemma ReceivedKeeps(s: Sys, t: T.Table, c: ConnInfo, batch: seq<Packet>)
    requires Inv(s) && T.Inv(t) && Sess(t) == Sess(s.table) && IsServing(s, c) && forall p <- batch :: p in s.up
    ensures Inv(Received(s, t, c, batch))
  {
    hide T.Inv, ClientIds, ClientSessions, ReachedOk, UpBares, DownSafers, ServedOk, ServerSessions, ServerLog, ClientLog,
         UpNumbers, DownNumbers, Sess, Sent;
    var m := Sess(s.table)[c];
    var (g, out) := Parsed(s.filters[c], m.myId, m.oppositeId, batch);
    hide Parsed;
    BatchLog(s, c, batch, g, out);
    NewFilter(s, c, g);
    BatchSent(s, out, Received(s, t, c, batch));
  }

  lemma ServerSaferKeeps(s: Sys, a: Action)
    requires Inv(s) && Enabled(s, a) && a.ServerSafer?
    ensures Inv(Step(s, a))
  {
    hide T.Inv, Sess, E.Run, E.Possible, Parsed, Inv, Replays;
    var m := Sess(s.table)[a.c];
    ReplaySessions(s.table, a.c, Parsed(s.filters[a.c], m.myId, m.oppositeId, a.batch).1, a.events);
    assert T.Inv(a.t) && Sess(a.t) == Sess(s.table);
    ReceivedKeeps(s, a.t, a.c, a.batch);
  }

  lemma ServerSendsKeeps(s: Sys, a: Action)
    requires Inv(s) && Enabled(s, a) && a.ServerSends?
    ensures Inv(Step(s, a))
  {
    hide Inv;
    SendingKeeps(s, a.c, a.msg, a.roller);
  }

  // ----- runs -----

  lemma StepKeeps(s: Sys, a: Action)
    requires Inv(s) && Enabled(s, a)
    ensures Inv(Step(s, a))
  {
    hide Inv, Step, Enabled;
    match a
    case ClientTimer(i, e) => ClientTimerKeeps(s, i, e);
    case ClientSynAck(i, now, e) => ClientSynAckKeeps(s, i, now, e);
    case ClientBare(i, p, now, e) => ClientBareKeeps(s, i, p, now, e);
    case ClientSafer(i, batch, addrOk, nows, now, heard, e) => ClientSaferKeeps(s, i, batch, addrOk, nows, now, heard, e);
    case ClientSends(i, conv) => ClientSendsKeeps(s, i, conv);
    case ClientReconnects(i, id) => ClientReconnectsKeeps(s, i, id);
    case ClientReset(i) => ClientResetKeeps(s, i);
    case ServerQuiet(ev, t) => ServerQuietKeeps(s, ev, t);
    case ServerOpens(_, _, _, _, _, _, _, _) => ServerOpensKeeps(s, a);
    case ServerAnswersAgain(_, _, _, _) => ServerAnswersAgainKeeps(s, a);
    case ServerShakes(_, _, _, _, _, _, _, _, _) => ServerShakesKeeps(s, a);
    case ServerSafer(_, _, _, _) => ServerSaferKeeps(s, a);
    case ServerSends(_, _, _) => ServerSendsKeeps(s, a);
  }
}
