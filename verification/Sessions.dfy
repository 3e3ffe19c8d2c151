/** The server's table seen as sessions: the connections that are handshaking or ready, with their ids. */
module Sessions {
  import opened Connection
  import opened ServerTable
  import opened ServerSteps
  import opened ServerSweep
  import opened ServerEvents
  import opened Packets

  datatype Session = Shaking(myId: nat) | Established(myId: nat, oppositeId: nat, constId: nat)

  function SessionOf(r: Rec): Session
    requires r.state != Idle
  {
    if r.state == Ready then Established(r.myId, r.oppositeId, r.constId) else Shaking(r.myId)
  }

  ghost function Sess(t: Table): map<ConnInfo, Session> {
    map c | c in t.recs && t.recs[c].state != Idle :: SessionOf(t.recs[c])
  }

  ghost predicate Submap(m: map<ConnInfo, Session>, n: map<ConnInfo, Session>) {
    forall c :: c in m ==> c in n && m[c] == n[c]
  }

  ghost function Put(m: map<ConnInfo, Session>, c: ConnInfo, r: Rec): map<ConnInfo, Session> {
    if r.state == Idle then m - {c} else m[c := SessionOf(r)]
  }

  lemma PutSession(t: Table, u: Table, c: ConnInfo, r: Rec)
    requires u.recs == t.recs[c := r]
    ensures Sess(u) == Put(Sess(t), c, r)
  {
  }

  lemma SameSessions(t: Table, u: Table)
    requires u.recs == t.recs
    ensures Sess(u) == Sess(t)
  {
  }

  lemma PutSame(t: Table, c: ConnInfo, r: Rec)
    requires c in t.recs && r.state == t.recs[c].state != Idle && SessionOf(r) == SessionOf(t.recs[c])
    ensures Put(Sess(t), c, r) == Sess(t)
  {
  }

  /** Clock readings, messages, expiring conversations and cleanups start no session and change none. */
  lemma QuietSessions(t: Table, e: Event)
    requires Inv(t) && Enabled(t, e) && (e.Ticks? || e.Speaks? || e.Expires? || e.Cleans?)
    ensures Submap(Sess(Step(t, e)), Sess(t))
    ensures !e.Cleans? ==> Sess(Step(t, e)) == Sess(t)
  {
    hide Inv, Sweep, Sess, Put, OnMessage;
    var u := Step(t, e);
    match e
    case Ticks(_) => SameSessions(t, u);
    case Speaks(c, m, hbMode, f, fd) => SpeakSessions(t, c, m, hbMode, f, fd);
    case Expires(c, kept) =>
      PutSession(t, u, c, u.recs[c]);
      PutSame(t, c, u.recs[c]);
    case Cleans =>
      SweepShrinks(t, Quota(|t.mp|));
      FewerSessions(u, t);
  }

  lemma FewerSessions(u: Table, t: Table)
    requires forall c :: c in u.recs ==> c in t.recs && u.recs[c] == t.recs[c]
    ensures Submap(Sess(u), Sess(t))
  {
  }

  lemma SpeakSessions(t: Table, c: ConnInfo, m: Message, hbMode: nat, f: nat, fd: int)
    requires c in t.recs && t.recs[c].state == Ready
    ensures Sess(OnMessage(t, c, m, hbMode, f, fd)) == Sess(t)
  {
    hide Sess, Put;
    var u := OnMessage(t, c, m, hbMode, f, fd);
    assert u.recs == t.recs[c := u.recs[c]];
    PutSession(t, u, c, u.recs[c]);
    PutSame(t, c, u.recs[c]);
  }

  lemma {:induction false} SweepShrinks(t: Table, n: nat)
    requires Inv(t)
    ensures forall c :: c in Sweep(t, n).recs ==> c in t.recs && Sweep(t, n).recs[c] == t.recs[c]
    decreases n
  {
    hide Inv;
    if n > 0 && t.order != [] {
      TurnFacts(t);
      SweepShrinks(Turn(t, Current(t)), n - 1);
    }
  }

  /** A new connection starts shaking hands. */
  lemma ArrivalSession(t: Table, a: Address, c: ConnInfo, r: Rec, pos: nat)
    requires Inv(t) && Enabled(t, Arrives(a, c, r, pos))
    ensures Sess(Step(t, Arrives(a, c, r, pos))) == Sess(t)[c := Shaking(r.myId)] && c !in Sess(t)
  {
    hide Inv;
  }

  /** The answer to a handshake either ends it or establishes a session with its ids: in the connection
      itself, or in the ready connection of the same const id. */
  ghost predicate Answered(m: map<ConnInfo, Session>, n: map<ConnInfo, Session>, c: ConnInfo, o: ConnInfo, id: nat, k: nat)
    requires c in m
  {
    && (o == c || (o in m && m[o].Established? && m[o].constId == k))
    && n == (m - {c})[o := Established(m[c].myId, id, k)]
  }

  lemma AnswerSessions(t: Table, c: ConnInfo, id: nat, k: nat, f: nat, fd: int) returns (o: ConnInfo)
    requires Inv(t) && Enabled(t, Answers(c, id, k, f, fd))
    ensures c in Sess(t) && Sess(t)[c].Shaking?
    ensures var n := Sess(Step(t, Answers(c, id, k, f, fd)));
            if TurnedAway(t, c, k) then n == Sess(t) - {c} else Answered(Sess(t), n, c, o, id, k)
    ensures o == if k in t.constIdMp then t.constIdMp[k] else c
  {
    hide Inv, Sess, Put, TurnedAway, PreReady, Answered;
    var s := SetRec(t, c, t.recs[c].(oppositeId := id));
    IdSetKeeps(t, c, id);
    Announced(t, c, id, k);
    o := if k in t.constIdMp then t.constIdMp[k] else c;
    PreReadySessions(s, c, k, f, fd);
    PutMeans(t, c);
  }

  /** Announcing an id is no change of the sessions. */
  lemma Announced(t: Table, c: ConnInfo, id: nat, k: nat)
    requires Inv(t) && c in t.recs && t.recs[c].state == Handshake1
    ensures var s := SetRec(t, c, t.recs[c].(oppositeId := id));
            Sess(s) == Sess(t) && (TurnedAway(s, c, k) <==> TurnedAway(t, c, k))
  {
    hide Sess, Put, Inv;
    var s := SetRec(t, c, t.recs[c].(oppositeId := id));
    if k in t.constIdMp { IndexedIsReady(t, k); }
    PutSession(t, s, c, s.recs[c]);
    PutSame(t, c, s.recs[c]);
  }

  lemma PutMeans(t: Table, c: ConnInfo)
    requires c in t.recs && t.recs[c].state != Idle
    ensures c in Sess(t) && Sess(t)[c] == SessionOf(t.recs[c])
  {
  }

  lemma PreReadySessions(t: Table, c: ConnInfo, k: nat, f: nat, fd: int)
    requires Inv(t) && c in t.recs && t.recs[c].state == Handshake1
    ensures var u := PreReady(t, c, k, f, fd);
            if TurnedAway(t, c, k) then Sess(u) == Sess(t) - {c}
            else c in Sess(t) && Answered(Sess(t), Sess(u), c, if k in t.constIdMp then t.constIdMp[k] else c, t.recs[c].oppositeId, k)
  {
    hide Inv, Sess, Retire, Promote, Grab, Answered;
    if k in t.constIdMp {
      IndexedIsReady(t, k);
      PeerInMp(t, c);
      RetireSessions(t, c);
      GrabSessions(t, t.constIdMp[k], c);
    } else {
      RetireSessions(t, c);
      PromoteSessions(t, c, k, f, fd);
    }
  }

  lemma RetireSessions(t: Table, c: ConnInfo)
    requires c in t.recs && t.recs[c].state == Handshake1
    ensures c in Sess(t) && Sess(Retire(t, c)) == Sess(t) - {c}
  {
    PutMeans(t, c);
    var u := Retire(t, c);
    hide Sess;
    PutSession(t, u, c, u.recs[c]);
  }

  lemma PromoteSessions(t: Table, c: ConnInfo, k: nat, f: nat, fd: int)
    requires c in t.recs && t.recs[c].state == Handshake1
    ensures c in Sess(t) && Answered(Sess(t), Sess(Promote(t, c, k, f, fd)), c, c, t.recs[c].oppositeId, k)
  {
    PutMeans(t, c);
    var u := Promote(t, c, k, f, fd);
    hide Sess;
    PutSession(t, u, c, u.recs[c]);
    assert Sess(t)[c := SessionOf(u.recs[c])] == (Sess(t) - {c})[c := SessionOf(u.recs[c])];
  }

  lemma GrabSessions(t: Table, o: ConnInfo, c: ConnInfo)
    requires o in t.recs && c in t.recs && t.recs[o].peer in t.mp && t.recs[c].peer in t.mp
    requires t.recs[o].state == Ready && t.recs[c].state == Handshake1
    ensures c in Sess(t) && o in Sess(t) && Sess(t)[o].Established? && Sess(t)[o].constId == t.recs[o].constId
    ensures Answered(Sess(t), Sess(Grab(t, o, c)), c, o, t.recs[c].oppositeId, t.recs[o].constId)
  {
    var u := Grab(t, o, c);
    var v := t.(recs := t.recs[o := u.recs[o]]);
    PutSession(t, v, o, u.recs[o]);
    PutSession(v, u, c, u.recs[c]);
  }
}
