/** The steps of the protocol, each following a handler of client.cpp or server.cpp, and a proof that each
keeps the invariant. */
module HandshakeSteps {
  import opened Connection
  import opened Packets
  import opened Sessions
  import opened Handshake
  import AntiReplay
  import C = ClientSteps
  import T = ServerTable
  import E = ServerEvents

  datatype Action =
    | ClientTimer(i: nat, e: C.Env)
    | ClientSynAck(i: nat, now: nat, e: C.Env)
    | ClientBare(i: nat, p: Packet, now: nat, e: C.Env)
    | ClientSafer(i: nat, batch: seq<Packet>, addrOk: bool, nows: seq<nat>, now: nat, heard: seq<nat>, e: C.Env)
    | ClientSends(i: nat, conv: nat)
    | ClientReconnects(i: nat, id: nat)
    | ClientReset(i: nat)
    | ServerQuiet(ev: E.Event, t: T.Table)
    | ServerOpens(a: Address, c: ConnInfo, r: T.Rec, pos: nat, t: T.Table, p: Packet, constId: nat, junk: Junk)
    | ServerAnswersAgain(c: ConnInfo, p: Packet, constId: nat, junk: Junk)
    | ServerShakes(c: ConnInfo, p: Packet, f: nat, fd: int, t: T.Table, o: ConnInfo, slot0: bool, firstSeq: nat, roller: nat)
    | ServerSafer(c: ConnInfo, batch: seq<Packet>, events: seq<E.Event>, t: T.Table)
    | ServerSends(c: ConnInfo, msg: Message, roller: nat)

  // ----- the client's side -----

  ghost function Fresh2(e: C.Env): set<nat> { {e.idA, e.idB} }

  ghost predicate FreshIds(s: Sys, e: C.Env) {
    e.idA !in s.used && e.idB !in s.used && e.idA != e.idB
  }

  function Elems(s: seq<Packet>): set<Packet> {
    set p | p in s
  }

  /** Client `i` makes a move: its new state, what it sends, the ids it drew. */
  ghost function Moved(s: Sys, i: nat, o: C.Out, ids: set<nat>): Sys {
    s.(clients := s.clients[i := o.client], up := s.up + Elems(o.sent), used := s.used + ids)
  }

  /** The client's id reaches handshake2. */
  ghost function Reaching(s: Sys, i: nat, p: Packet): map<nat, Reached>
    requires i in s.clients
  {
    var c := s.clients[i];
    if p.Bare? && p.second == c.myId then s.reached[c.myId := Reached(i, p.first, c.constId)] else s.reached
  }

  /** What a batch makes of a client. */
  ghost function Heard(c: C.Client, batch: seq<Packet>, addrOk: bool, nows: seq<nat>, now: nat, heard: seq<nat>, e: C.Env): C.Out
    requires |nows| == |batch| && |heard| == |C.Parse(c, batch, e.hbMode, nows).1|
  {
    var (d, out) := C.Parse(c, batch, e.hbMode, nows);
    if addrOk then C.HearAll(d, out, now, heard, e) else C.Out(d, [])
  }

  // ----- the server's side -----

  /** The events are those of the delivered messages, in order, and clock readings. */
  ghost predicate Replays(c: ConnInfo, msgs: seq<Packet>, events: seq<E.Event>)
    requires forall p <- msgs :: p.Safer?
  {
    if events == [] then msgs == []
    else if events[0].Ticks? then Replays(c, msgs, events[1..])
    else events[0].Speaks? && events[0].c == c && msgs != [] && events[0].m == msgs[0].msg && Replays(c, msgs[1..], events[1..])
  }

  ghost function SaferFrom(s: Sys, c: ConnInfo, msg: Message, roller: nat): Packet
    requires c in Sess(s.table) && Sess(s.table)[c].Established? && c in s.seqs
  {
    Safer(Sess(s.table)[c].myId, Sess(s.table)[c].oppositeId, s.seqs[c], msg, roller)
  }

  /** `send_safer` of a ready connection. */
  ghost function Sending(s: Sys, c: ConnInfo, msg: Message, roller: nat): Sys
    requires c in Sess(s.table) && Sess(s.table)[c].Established? && c in s.seqs
  {
    s.(down := s.down + {SaferFrom(s, c, msg, roller)}, seqs := s.seqs[c := s.seqs[c] + 1])
  }

  /** The connection `o` is ready with the ids of handshake `p`, and its window starts a new era. */
  ghost function Serving(s: Sys, t: T.Table, p: Packet, o: ConnInfo, slot0: bool, firstSeq: nat): Sys
    requires p.Bare?
  {
    s.(table := t, served := s.served[p.second := Served(p.first, p.third)],
       filters := s.filters[o := AntiReplay.Fresh(slot0)],
       seqs := s.seqs[o := if o in Sess(s.table) && Sess(s.table)[o].Established? && o in s.seqs then s.seqs[o] else firstSeq])
  }

  /** The answer to a handshake packet, which left the table `t`. */
  ghost function Shaken(s: Sys, t: T.Table, c: ConnInfo, p: Packet, o: ConnInfo, slot0: bool, firstSeq: nat, roller: nat): Sys
    requires p.Bare? && c in Sess(s.table)
    requires Sess(t) == Sess(s.table) - {c} || Answered(Sess(s.table), Sess(t), c, o, p.first, p.third)
  {
    if Sess(t) == Sess(s.table) - {c} then s.(table := t)
    else Sending(Serving(s, t, p, o, slot0, firstSeq), o, Heartbeat, roller)
  }

  /** A batch from the network: what passes the window is delivered and handled. */
  ghost function Received(s: Sys, t: T.Table, c: ConnInfo, batch: seq<Packet>): Sys
    requires IsServing(s, c)
  {
    var m := Sess(s.table)[c];
    var (g, out) := Parsed(s.filters[c], m.myId, m.oppositeId, batch);
    s.(table := t, filters := s.filters[c := g], toServer := s.toServer + out)
  }

  // ----- steps -----

  ghost predicate IsShaking(s: Sys, c: ConnInfo) {
    c in Sess(s.table) && Sess(s.table)[c].Shaking?
  }

  ghost predicate IsServing(s: Sys, c: ConnInfo) {
    c in Sess(s.table) && Sess(s.table)[c].Established? && c in s.filters && c in s.seqs
  }

  ghost predicate Enabled(s: Sys, a: Action) {
    match a
    case ClientTimer(i, e) => i in s.clients && FreshIds(s, e)
    case ClientSynAck(i, _, e) => i in s.clients && FreshIds(s, e) && s.clients[i].state in {C.TcpHandshake, C.TcpHandshakeDummy}
    case ClientBare(i, p, _, e) => i in s.clients && FreshIds(s, e) && s.clients[i].state == C.Handshake1 && p in s.down
    case ClientSafer(i, batch, _, nows, _, heard, e) =>
      && i in s.clients && FreshIds(s, e) && s.clients[i].state in {C.Handshake2, C.Ready}
      && (forall p <- batch :: p in s.down)
      && |nows| == |batch| && |heard| == |C.Parse(s.clients[i], batch, e.hbMode, nows).1|
    case ClientSends(i, _) => i in s.clients && s.clients[i].state == C.Ready
    case ClientReconnects(i, id) => i in s.clients && id !in s.used
    case ClientReset(i) => i in s.clients
    case ServerQuiet(ev, t) => (ev.Ticks? || ev.Expires? || ev.Cleans?) && TableStep(s.table, ev, t)
    case ServerOpens(a, c, r, pos, t, p, _, _) =>
      p in s.up && p.Bare? && p.second == 0 && r.myId !in s.used && TableStep(s.table, E.Arrives(a, c, r, pos), t)
    case ServerAnswersAgain(c, p, _, _) => IsShaking(s, c) && p in s.up && p.Bare? && p.second == 0
    case ServerShakes(c, p, f, fd, t, o, _, _, _) =>
      && IsShaking(s, c) && p in s.up && p.Bare? && p.second != 0 && p.second == Sess(s.table)[c].myId
      && TableStep(s.table, E.Answers(c, p.first, p.third, f, fd), t)
      && (Sess(t) == Sess(s.table) - {c} || Answered(Sess(s.table), Sess(t), c, o, p.first, p.third))
    case ServerSafer(c, batch, events, t) =>
      && IsServing(s, c) && (forall p <- batch :: p in s.up)
      && var m := Sess(s.table)[c];
      && Replays(c, Parsed(s.filters[c], m.myId, m.oppositeId, batch).1, events)
      && TableRun(s.table, events, t)
    case ServerSends(c, _, _) => IsServing(s, c)
  }

  /** `u` is what the server's table becomes by event `ev`. */
  ghost predicate TableStep(t: T.Table, ev: E.Event, u: T.Table) {
    T.Inv(t) && E.Enabled(t, ev) && u == E.Step(t, ev)
  }

  ghost predicate TableRun(t: T.Table, run: seq<E.Event>, u: T.Table) {
    T.Inv(t) && E.Possible(t, run) && u == E.Run(t, run)
  }

  ghost function Step(s: Sys, a: Action): Sys
    requires Enabled(s, a)
  {
    match a
    case ClientTimer(i, e) => Moved(s, i, C.OnTimer(s.clients[i], e), Fresh2(e))
    case ClientSynAck(i, now, e) => Moved(s, i, C.OnSynAck(s.clients[i], now, e), Fresh2(e))
    case ClientBare(i, p, now, e) => Moved(s, i, C.OnBare(s.clients[i], p, now, e), Fresh2(e)).(reached := Reaching(s, i, p))
    case ClientSafer(i, batch, addrOk, nows, now, heard, e) =>
      var c := s.clients[i];
      Moved(s, i, Heard(c, batch, addrOk, nows, now, heard, e), Fresh2(e))
        .(toClients := s.toClients + C.Parse(c, batch, e.hbMode, nows).1)
    case ClientSends(i, conv) => Moved(s, i, C.SendSafer(s.clients[i], Data(conv)), {})
    case ClientReconnects(i, id) => Moved(s, i, C.Out(s.clients[i].(state := C.Idle, myId := id), []), {id})
    case ClientReset(i) => Moved(s, i, C.Out(s.clients[i].(disabled := true), []), {})
    case ServerQuiet(ev, t) => s.(table := t)
    case ServerOpens(a, c, r, pos, t, p, k, junk) =>
      s.(table := t, used := s.used + {r.myId}, down := s.down + {Bare(r.myId, p.first, k, junk)})
    case ServerAnswersAgain(c, p, k, junk) => s.(down := s.down + {Bare(Sess(s.table)[c].myId, p.first, k, junk)})
    case ServerShakes(c, p, f, fd, t, o, slot0, firstSeq, roller) => Shaken(s, t, c, p, o, slot0, firstSeq, roller)
    case ServerSafer(c, batch, events, t) => Received(s, t, c, batch)
    case ServerSends(c, msg, roller) => Sending(s, c, msg, roller)
  }
}
