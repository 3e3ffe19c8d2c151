/** Any number of clients, one server, and a network that drops, duplicates, reorders and misroutes packets
but does not forge them.  A packet once sent may be delivered any number of times, to anyone on the other
side.  Ids are fresh: drawn outside `used`. */
module Handshake {
  import opened Connection
  import opened Packets
  import opened Sessions
  import AntiReplay
  import C = ClientSteps
  import T = ServerTable

  /** A client that reached handshake2 with some id: which one, and what it held then. */
  datatype Reached = Reached(client: nat, oppositeId: nat, constId: nat)

  /** A server connection that became ready with some id, and what it held then. */
  datatype Served = Served(oppositeId: nat, constId: nat)

  datatype Sys = Sys(
    clients: map<nat, C.Client>,
    table: T.Table,
    filters: map<ConnInfo, AntiReplay.Filter>,   // the windows of ready connections
    seqs: map<ConnInfo, nat>,                    // their next send numbers
    up: set<Packet>,                             // everything clients ever sent
    down: set<Packet>,                           // everything the server ever sent
    used: set<nat>,                              // every id ever drawn
    reached: map<nat, Reached>,                  // history, by the client's id
    served: map<nat, Served>,                    // history, by the server's id
    toClients: seq<Packet>,                      // history of deliveries
    toServer: seq<Packet>)

  // ----- the invariant, by what it is about -----

  ghost predicate ClientIds(clients: map<nat, C.Client>, used: set<nat>) {
    && (forall i :: i in clients ==> clients[i].myId in used)
    && (forall i, j :: i in clients && j in clients && clients[i].myId == clients[j].myId ==> i == j)
  }

  ghost predicate ClientOk(i: nat, c: C.Client, reached: map<nat, Reached>, served: map<nat, Served>) {
    && (c.myId in reached ==> reached[c.myId].client == i && c.state in {C.Idle, C.Handshake2, C.Ready})
    && (c.state in {C.Handshake2, C.Ready} ==> c.myId in reached && reached[c.myId] == Reached(i, c.oppositeId, c.constId))
    && (c.state == C.Ready ==> c.oppositeId in served && served[c.oppositeId].oppositeId == c.myId)
  }

  ghost predicate ClientSessions(clients: map<nat, C.Client>, reached: map<nat, Reached>, served: map<nat, Served>) {
    forall i :: i in clients ==> ClientOk(i, clients[i], reached, served)
  }

  /** Every reached id was drawn, by a client of that const id. */
  ghost predicate ReachedOk(reached: map<nat, Reached>, clients: map<nat, C.Client>, used: set<nat>) {
    forall c :: c in reached ==> c in used && reached[c].client in clients && clients[reached[c].client].constId == reached[c].constId
  }

  /** A second handshake packet was sent in handshake2. */
  ghost predicate UpBares(up: set<Packet>, reached: map<nat, Reached>) {
    forall p :: p in up && p.Bare? && p.second != 0 ==>
      p.first in reached && reached[p.first].oppositeId == p.second && reached[p.first].constId == p.third
  }

  /** Channel packets of the server come from ready connections. */
  ghost predicate DownSafers(down: set<Packet>, served: map<nat, Served>) {
    forall p :: p in down && p.Safer? ==> p.from in served && served[p.from].oppositeId == p.to
  }

  ghost predicate ServedOk(served: map<nat, Served>, reached: map<nat, Reached>, used: set<nat>) {
    forall s :: s in served ==>
      && s in used && served[s].oppositeId in reached
      && reached[served[s].oppositeId].oppositeId == s && reached[served[s].oppositeId].constId == served[s].constId
  }

  ghost predicate SessionOk(c: ConnInfo, m: Session, served: map<nat, Served>, filters: map<ConnInfo, AntiReplay.Filter>, seqs: map<ConnInfo, nat>) {
    match m
    case Shaking(id) => id !in served
    case Established(id, o, k) => id in served && served[id] == Served(o, k) && c in filters && c in seqs
  }

  ghost predicate ServerSessions(sess: map<ConnInfo, Session>, used: set<nat>, served: map<nat, Served>,
                                 filters: map<ConnInfo, AntiReplay.Filter>, seqs: map<ConnInfo, nat>) {
    && (forall c :: c in sess ==> sess[c].myId in used && SessionOk(c, sess[c], served, filters, seqs))
    && (forall c, d :: c in sess && d in sess && sess[c].myId == sess[d].myId ==> c == d)
  }

  /** Everything delivered to `id` is spent in its window. */
  ghost predicate Spent(log: seq<Packet>, id: nat, f: AntiReplay.Filter) {
    forall e <- log :: Header(e).to == id ==> Header(e).seqNo in f.spent
  }

  /** No two deliveries are of the same packet. */
  ghost predicate Once(log: seq<Packet>) {
    forall i, j :: 0 <= i < j < |log| ==> Header(log[i]).to != Header(log[j]).to || Header(log[i]).seqNo != Header(log[j]).seqNo
  }

  ghost predicate ServerLog(sess: map<ConnInfo, Session>, filters: map<ConnInfo, AntiReplay.Filter>, served: map<nat, Served>, log: seq<Packet>) {
    && (forall e <- log :: Header(e).to in served && served[Header(e).to].oppositeId == Header(e).from)
    && (forall c :: c in sess && sess[c].Established? && c in filters ==> Spent(log, sess[c].myId, filters[c]))
    && Once(log)
  }

  ghost predicate ClientLog(clients: map<nat, C.Client>, used: set<nat>, log: seq<Packet>) {
    && (forall e <- log :: Header(e).to in used)
    && (forall i :: i in clients ==> Spent(log, clients[i].myId, clients[i].filter))
    && Once(log)
  }

  /** The sender's id and the number name a channel packet; senders have not used their next number yet. */
  ghost predicate Named(s: set<Packet>) {
    forall p, q :: p in s && q in s && p.Safer? && q.Safer? && p.from == q.from && p.seqNo == q.seqNo ==> p == q
  }

  ghost predicate Below(s: set<Packet>, id: nat, next: nat) {
    forall p :: p in s && p.Safer? && p.from == id ==> p.seqNo < next
  }

  ghost predicate UpNumbers(up: set<Packet>, clients: map<nat, C.Client>, used: set<nat>) {
    && Named(up)
    && (forall p :: p in up && p.Safer? ==> p.from in used)
    && (forall i :: i in clients ==> Below(up, clients[i].myId, clients[i].sendSeq))
  }

  ghost predicate DownNumbers(down: set<Packet>, sess: map<ConnInfo, Session>, seqs: map<ConnInfo, nat>) {
    && Named(down)
    && (forall c :: c in sess && sess[c].Established? && c in seqs ==> Below(down, sess[c].myId, seqs[c]))
  }

  /** Only what was sent is delivered. */
  ghost predicate Sent(s: Sys) {
    && (forall e <- s.toServer :: e in s.up && e.Safer?)
    && (forall e <- s.toClients :: e in s.down && e.Safer?)
  }

  ghost predicate Inv(s: Sys) {
    && T.Inv(s.table)
    && ClientIds(s.clients, s.used) && ClientSessions(s.clients, s.reached, s.served)
    && ReachedOk(s.reached, s.clients, s.used) && UpBares(s.up, s.reached)
    && DownSafers(s.down, s.served) && ServedOk(s.served, s.reached, s.used)
    && ServerSessions(Sess(s.table), s.used, s.served, s.filters, s.seqs)
    && ServerLog(Sess(s.table), s.filters, s.served, s.toServer)
    && ClientLog(s.clients, s.used, s.toClients)
    && UpNumbers(s.up, s.clients, s.used) && DownNumbers(s.down, Sess(s.table), s.seqs)
    && Sent(s)
  }

  // ----- what the invariant says -----

  /** Agreement: a ready client's partner was ready with the mirrored ids and knew the client's const id. */
  lemma ReadyClientHasServer(s: Sys, i: nat)
    requires Inv(s) && i in s.clients && s.clients[i].state == C.Ready
    ensures var c := s.clients[i]; c.oppositeId in s.served && s.served[c.oppositeId] == Served(c.myId, c.constId)
  {
    var c := s.clients[i];
    assert ClientOk(i, c, s.reached, s.served);
    assert c.oppositeId in s.served;
  }

  /** Agreement: a ready connection's partner reached handshake2 with the mirrored ids and has that const id. */
  lemma ReadyServerHasClient(s: Sys, o: ConnInfo)
    requires Inv(s) && o in s.table.recs && s.table.recs[o].state == Ready
    ensures var r := s.table.recs[o];
            && r.oppositeId in s.reached
            && var h := s.reached[r.oppositeId];
              && h.oppositeId == r.myId && h.constId == r.constId
              && h.client in s.clients && s.clients[h.client].constId == r.constId
  {
    var r := s.table.recs[o];
    assert o in Sess(s.table) && Sess(s.table)[o] == Established(r.myId, r.oppositeId, r.constId);
    assert SessionOk(o, Sess(s.table)[o], s.served, s.filters, s.seqs);
    assert r.myId in s.served;
  }

  /** Sessions pair ids one to one: a client id was served under one server id only, and the other way round
      `served` is a map. */
  lemma OneToOne(s: Sys, a: nat, b: nat)
    requires Inv(s) && a in s.served && b in s.served && s.served[a].oppositeId == s.served[b].oppositeId
    ensures a == b
  {
    assert s.reached[s.served[a].oppositeId].oppositeId == a;
  }

  /** At most once: no packet is delivered twice, on either side, over the whole run, and everything
      delivered was sent by the session's partner. */
  lemma AtMostOnce(s: Sys, i: nat, j: nat)
    requires Inv(s) && i < j
    ensures j < |s.toServer| ==> s.toServer[i] != s.toServer[j] && s.toServer[j] in s.up
    ensures j < |s.toClients| ==> s.toClients[i] != s.toClients[j] && s.toClients[j] in s.down
    ensures j < |s.toServer| ==> s.toServer[j].Safer? && s.toServer[j].to in s.served
                                 && s.served[s.toServer[j].to].oppositeId == s.toServer[j].from
    ensures j < |s.toClients| ==> s.toClients[j].Safer? && s.toClients[j].from in s.served
                                  && s.served[s.toClients[j].from].oppositeId == s.toClients[j].to
  {
    if j < |s.toServer| { assert s.toServer[j] in s.toServer; }
    if j < |s.toClients| { assert s.toClients[j] in s.toClients; }
  }
}
