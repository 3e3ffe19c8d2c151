/** What holds after any run of the protocol. */
module HandshakeRuns {
  import opened Connection
  import opened Packets
  import opened Sessions
  import opened Handshake
  import opened HandshakeSteps
  import opened HandshakeServer
  import C = ClientSteps
  import T = ServerTable
  import E = ServerEvents

  /** Idle clients with distinct ids, a server that knows nobody, and an empty network. */
  ghost predicate Start(s: Sys) {
    && ClientIds(s.clients, s.used) && (forall i :: i in s.clients ==> s.clients[i].state == C.Idle)
    && s.table == E.Empty(s.table.now) && s.filters == map[] && s.seqs == map[]
    && s.up == {} && s.down == {} && s.reached == map[] && s.served == map[] && s.toClients == [] && s.toServer == []
  }

  ghost predicate Possible(s: Sys, run: seq<Action>)
    decreases |run|
  {
    run == [] || (Enabled(s, run[0]) && Possible(Step(s, run[0]), run[1..]))
  }

  ghost function Run(s: Sys, run: seq<Action>): Sys
    requires Possible(s, run)
    decreases |run|
  {
    if run == [] then s else Run(Step(s, run[0]), run[1..])
  }

  lemma StartInv(s: Sys)
    requires Start(s)
    ensures Inv(s)
  {
    E.EmptyInv(s.table.now);
    assert Sess(s.table) == map[];
    hide T.Inv;
  }

  lemma {:induction false} RunKeeps(s: Sys, run: seq<Action>)
    requires Inv(s) && Possible(s, run)
    ensures Inv(Run(s, run))
    decreases |run|
  {
    hide Inv, Step, Enabled;
    if run != [] {
      StepKeeps(s, run[0]);
      RunKeeps(Step(s, run[0]), run[1..]);
    }
  }

  /** Agreement in every reachable state.  A ready client's server id was made ready, once and for all, with
      the client's own id and const id.  A ready connection's client id reached handshake2, once and for all,
      with the connection's own id, in a client of the connection's const id. */
  lemma RunsAgree(s: Sys, run: seq<Action>)
    requires Start(s) && Possible(s, run)
    ensures var u := Run(s, run);
            && (forall i :: i in u.clients && u.clients[i].state == C.Ready ==>
                  u.clients[i].oppositeId in u.served
                  && u.served[u.clients[i].oppositeId] == Served(u.clients[i].myId, u.clients[i].constId))
            && (forall o :: o in u.table.recs && u.table.recs[o].state == Ready ==>
                  var r := u.table.recs[o];
                  r.oppositeId in u.reached && u.reached[r.oppositeId].oppositeId == r.myId
                  && u.reached[r.oppositeId].constId == r.constId
                  && u.reached[r.oppositeId].client in u.clients
                  && u.clients[u.reached[r.oppositeId].client].constId == r.constId)
            && (forall a, b :: a in u.served && b in u.served && u.served[a].oppositeId == u.served[b].oppositeId ==> a == b)
  {
    StartInv(s);
    RunKeeps(s, run);
    var u := Run(s, run);
    hide Inv, Possible, Run;
    forall i | i in u.clients && u.clients[i].state == C.Ready
      ensures u.clients[i].oppositeId in u.served
              && u.served[u.clients[i].oppositeId] == Served(u.clients[i].myId, u.clients[i].constId) {
      ReadyClientHasServer(u, i);
    }
    forall o | o in u.table.recs && u.table.recs[o].state == Ready
      ensures var r := u.table.recs[o];
              r.oppositeId in u.reached && u.reached[r.oppositeId].oppositeId == r.myId
              && u.reached[r.oppositeId].constId == r.constId && u.reached[r.oppositeId].client in u.clients
              && u.clients[u.reached[r.oppositeId].client].constId == r.constId {
      ReadyServerHasClient(u, o);
    }
    forall a, b | a in u.served && b in u.served && u.served[a].oppositeId == u.served[b].oppositeId ensures a == b {
      OneToOne(u, a, b);
    }
  }

  /** At most once over the whole run: no two deliveries on a side are of one packet, across reconnects and
      recoveries, and each is of a packet the session's partner sent. */
  lemma RunsDeliverOnce(s: Sys, run: seq<Action>)
    requires Start(s) && Possible(s, run)
    ensures var u := Run(s, run);
            && (forall i, j :: 0 <= i < j < |u.toServer| ==> u.toServer[i] != u.toServer[j])
            && (forall i, j :: 0 <= i < j < |u.toClients| ==> u.toClients[i] != u.toClients[j])
            && (forall p <- u.toServer :: p in u.up && p.Safer? && p.to in u.served && u.served[p.to].oppositeId == p.from)
            && (forall p <- u.toClients :: p in u.down && p.Safer? && p.from in u.served && u.served[p.from].oppositeId == p.to)
  {
    StartInv(s);
    RunKeeps(s, run);
    var u := Run(s, run);
    hide Possible, Run;
    DeliveredOnce(u);
  }

  lemma DeliveredOnce(u: Sys)
    requires Inv(u)
    ensures forall i, j :: 0 <= i < j < |u.toServer| ==> u.toServer[i] != u.toServer[j]
    ensures forall i, j :: 0 <= i < j < |u.toClients| ==> u.toClients[i] != u.toClients[j]
    ensures forall p <- u.toServer :: p in u.up && p.Safer? && p.to in u.served && u.served[p.to].oppositeId == p.from
    ensures forall p <- u.toClients :: p in u.down && p.Safer? && p.from in u.served && u.served[p.from].oppositeId == p.to
  {
    hide T.Inv, Sess, ClientIds, ClientSessions, ReachedOk, UpBares, ServedOk, ServerSessions, UpNumbers, DownNumbers, Spent;
  }

  // ----- histories only grow -----

  ghost predicate Grows(s: Sys, u: Sys) {
    && (forall c :: c in s.reached ==> c in u.reached && u.reached[c] == s.reached[c])
    && (forall a :: a in s.served ==> a in u.served && u.served[a] == s.served[a])
    && s.up <= u.up && s.down <= u.down && s.used <= u.used
    && s.toServer <= u.toServer && s.toClients <= u.toClients
  }

  lemma BareGrows(s: Sys, a: Action)
    requires Inv(s) && Enabled(s, a) && a.ClientBare?
    ensures Grows(s, Step(s, a))
  {
    hide Inv, C.OnTimer, ClientOk;
    ClientFits(s, a.i);
    Unreached(s, a.i);
  }

  lemma ClientFits(s: Sys, i: nat)
    requires Inv(s) && i in s.clients
    ensures ClientOk(i, s.clients[i], s.reached, s.served)
  {
  }

  /** A client in handshake1 has not reached handshake2 with its id. */
  lemma Unreached(s: Sys, i: nat)
    requires i in s.clients && ClientOk(i, s.clients[i], s.reached, s.served)
    ensures s.clients[i].state == C.Handshake1 ==> s.clients[i].myId !in s.reached
  {
  }

  lemma ShakesGrows(s: Sys, a: Action)
    requires Inv(s) && Enabled(s, a) && a.ServerShakes?
    ensures Grows(s, Step(s, a))
  {
    hide Inv, TableStep, Sess, SaferFrom, IsServing;
    ShakingIds(s, a.c);
  }

  lemma StepGrows(s: Sys, a: Action)
    requires Inv(s) && Enabled(s, a)
    ensures Grows(s, Step(s, a))
  {
    hide Inv, TableStep, TableRun, C.OnTimer, C.OnSynAck, C.OnBare, C.SendSafer, Heard, Sess, C.Parse, C.HearAll, Parsed, Replays, FreshIds;
    if a.ClientBare? { BareGrows(s, a); }
    else if a.ServerShakes? { ShakesGrows(s, a); }
    else if a.ClientSafer? { hide Enabled; }
  }

  /** Who reached or served what is never revised: an id stands for one session, for ever. */
  lemma {:induction false} RunGrows(s: Sys, run: seq<Action>)
    requires Inv(s) && Possible(s, run)
    ensures Grows(s, Run(s, run))
    decreases |run|
  {
    hide Inv, Step, Enabled;
    if run != [] {
      StepKeeps(s, run[0]);
      StepGrows(s, run[0]);
      RunGrows(Step(s, run[0]), run[1..]);
    }
  }
}
