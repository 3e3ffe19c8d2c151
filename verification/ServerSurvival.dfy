/** What keeps a connection of the server alive: which events renew the time it was heard at, and that whoever was heard
from in the last four minutes survives every cleanup. */
module ServerSurvival {
  import opened Connection
  import opened ServerTable
  import opened ServerSteps
  import opened ServerSweep
  import opened ServerEvents
  import opened Packets

  /** A message that shows the peer is alive. */
  predicate Lives(m: Message, hbMode: nat) {
    m == Heartbeat || (m.Data? && hbMode == 0)
  }

  // ----- one event -----

  /** A cleanup leaves whatever has not timed out. */
  lemma SweepSpares(t: Table, c: ConnInfo)
    requires Inv(t) && c in t.recs && t.recs[c].state == Ready && t.now <= t.recs[c].lastHbRecvTime + 240000
    ensures var u := Sweep(t, Quota(|t.mp|));
            Inv(u) && c in u.recs && u.recs[c] == t.recs[c] && u.now == t.now
  {
    hide Inv, Sweep, NextUp;
    var a := t.recs[c].peer;
    PeerInMp(t, c);
    PassErases(t, t.now, a);
    PassKeeps(t, t.now);
    assert Tick(t, t.now) == t;
  }

  /** The time goes on. */
  lemma StepTime(t: Table, e: Event)
    requires Inv(t) && Enabled(t, e)
    ensures t.now <= Step(t, e).now
  {
    hide Inv, Sweep;
    match e
    case Answers(c, id, k, f, fd) => IdSetKeeps(t, c, id);
    case Cleans =>
      PassKeeps(t, t.now);
      assert Tick(t, t.now) == t;
    case _ =>
  }

  /** The event renews the time `c` was heard at: a message that shows the peer is alive, or a second handshake that makes
  it ready or that it recovers. */
  ghost predicate Renews(t: Table, e: Event, c: ConnInfo)
    requires Enabled(t, e)
  {
    match e
    case Speaks(d, m, hbMode, _, _) => d == c && Lives(m, hbMode)
    case Answers(d, _, k, _, _) => !TurnedAway(t, d, k) && c == if k in t.constIdMp then t.constIdMp[k] else d
    case _ => false
  }

  /** An event sets the time to now if it renews it, and otherwise leaves it as it was. */
  lemma HeardIffRenewed(t: Table, e: Event, c: ConnInfo)
    requires Inv(t) && Enabled(t, e) && c in t.recs && c in Step(t, e).recs
    ensures Step(t, e).recs[c].lastHbRecvTime == if Renews(t, e, c) then t.now else t.recs[c].lastHbRecvTime
  {
    hide Inv, Sweep, PreReady, TurnedAway;
    match e
    case Answers(d, id, k, f, fd) =>
      IdSetKeeps(t, d, id);
      var s := SetRec(t, d, t.recs[d].(oppositeId := id));
      TurnedAwayAlike(t, s, d, k);
      AnswerHears(s, d, k, f, fd, c);
    case Cleans =>
      SweptRec(t, c);
    case _ =>
  }

  lemma TurnedAwayAlike(t: Table, s: Table, d: ConnInfo, k: nat)
    requires d in t.recs && d in s.recs && s == SetRec(t, d, s.recs[d]) && s.recs[d].lastStateTime == t.recs[d].lastStateTime
    ensures TurnedAway(s, d, k) <==> TurnedAway(t, d, k)
  {
  }

  lemma AnswerHears(t: Table, d: ConnInfo, k: nat, f: nat, fd: int, c: ConnInfo)
    requires Inv(t) && d in t.recs && t.recs[d].state == Handshake1 && c in t.recs && c in PreReady(t, d, k, f, fd).recs
    ensures var heard := !TurnedAway(t, d, k) && c == if k in t.constIdMp then t.constIdMp[k] else d;
            PreReady(t, d, k, f, fd).recs[c].lastHbRecvTime == if heard then t.now else t.recs[c].lastHbRecvTime
  {
    hide Inv;
    if k in t.constIdMp { IndexedIsReady(t, k); }
  }

  /** What a cleanup leaves, it leaves as it was. */
  lemma SweptRec(t: Table, c: ConnInfo)
    requires Inv(t) && c in t.recs && c in Sweep(t, Quota(|t.mp|)).recs
    ensures Sweep(t, Quota(|t.mp|)).recs[c] == t.recs[c]
  {
    hide Conns, Index, Fds, OrderOk, Sizes, Sweep;
    PassKeeps(t, t.now);
    assert Tick(t, t.now) == t;
    var u := Sweep(t, Quota(|t.mp|));
    assert c in u.mp.Values;
    var a :| a in u.mp && u.mp[a] == c;
  }

  /** A ready connection heard from since `heard` stays, ready and heard from since then, as long as that is not more than
  four minutes ago. */
  lemma StepSpares(t: Table, e: Event, c: ConnInfo, heard: nat)
    requires Inv(t) && Enabled(t, e) && c in t.recs && t.recs[c].state == Ready && heard <= t.recs[c].lastHbRecvTime
    requires Step(t, e).now <= heard + 240000
    ensures var u := Step(t, e); c in u.recs && u.recs[c].state == Ready && heard <= u.recs[c].lastHbRecvTime
  {
    hide Inv, Sweep, PreReady;
    StepTime(t, e);
    HeardInPast(t, c);
    match e
    case Answers(d, id, k, f, fd) =>
      IdSetKeeps(t, d, id);
      AnswerSpares(SetRec(t, d, t.recs[d].(oppositeId := id)), d, k, f, fd, c, heard);
    case Cleans =>
      SweepTime(t);
      SweepSpares(t, c);
    case _ =>
  }

  lemma AnswerSpares(t: Table, d: ConnInfo, k: nat, f: nat, fd: int, c: ConnInfo, heard: nat)
    requires Inv(t) && d in t.recs && t.recs[d].state == Handshake1
    requires c in t.recs && t.recs[c].state == Ready && heard <= t.recs[c].lastHbRecvTime <= t.now
    ensures var u := PreReady(t, d, k, f, fd); c in u.recs && u.recs[c].state == Ready && heard <= u.recs[c].lastHbRecvTime
  {
    hide Inv;
    if k in t.constIdMp { IndexedIsReady(t, k); }
  }

  lemma SweepTime(t: Table)
    requires Inv(t)
    ensures Sweep(t, Quota(|t.mp|)).now == t.now
  {
    hide Inv, Sweep;
    PassKeeps(t, t.now);
    assert Tick(t, t.now) == t;
  }

  lemma HeardInPast(t: Table, c: ConnInfo)
    requires Inv(t) && c in t.recs && t.recs[c].state == Ready
    ensures t.recs[c].lastHbRecvTime <= t.now
  {
    hide Index, Fds, OrderOk, Sizes, InjectiveMp;
    ConnAt(t, c);
  }

  // ----- runs -----

  lemma {:induction false} RunTime(t: Table, run: seq<Event>)
    requires Inv(t) && Possible(t, run)
    ensures t.now <= Run(t, run).now
    decreases |run|
  {
    hide Inv, Step;
    if run != [] {
      StepKeeps(t, run[0]);
      StepTime(t, run[0]);
      RunTime(Step(t, run[0]), run[1..]);
    }
  }

  lemma {:induction false} RunSpares(t: Table, run: seq<Event>, c: ConnInfo, heard: nat)
    requires Inv(t) && Possible(t, run) && c in t.recs && t.recs[c].state == Ready && heard <= t.recs[c].lastHbRecvTime
    requires Run(t, run).now <= heard + 240000
    ensures var u := Run(t, run); c in u.recs && u.recs[c].state == Ready && heard <= u.recs[c].lastHbRecvTime
    decreases |run|
  {
    hide Inv, Step;
    if run != [] {
      var u := Step(t, run[0]);
      StepKeeps(t, run[0]);
      RunTime(u, run[1..]);
      StepSpares(t, run[0], c, heard);
      RunSpares(u, run[1..], c, heard);
    }
  }

  /** After a message that shows the peer is alive, whatever happens in the next four minutes, cleanups included, the
  connection is still there and ready. */
  lemma HeardSurvives(t: Table, c: ConnInfo, m: Message, hbMode: nat, f: nat, fd: int, run: seq<Event>)
    requires Inv(t) && c in t.recs && t.recs[c].state == Ready && Unissued(t, f) && Lives(m, hbMode)
    requires Possible(t, [Speaks(c, m, hbMode, f, fd)] + run)
    requires Run(t, [Speaks(c, m, hbMode, f, fd)] + run).now <= t.now + 240000
    ensures var u := Run(t, [Speaks(c, m, hbMode, f, fd)] + run);
            c in u.recs && u.recs[c].state == Ready && t.now <= u.recs[c].lastHbRecvTime
  {
    hide Inv, OnMessage, Possible, Run;
    var e := Speaks(c, m, hbMode, f, fd);
    var all := [e] + run;
    assert all[0] == e && all[1..] == run;
    RunStarts(t, all);
    var u := Step(t, e);
    StepKeeps(t, e);
    MessageStays(t, c, m, hbMode, f, fd);
    RunSpares(u, run, c, t.now);
  }

  lemma RunStarts(t: Table, run: seq<Event>)
    requires Inv(t) && Possible(t, run) && run != []
    ensures Enabled(t, run[0]) && Inv(Step(t, run[0])) && Possible(Step(t, run[0]), run[1..])
    ensures Run(t, run) == Run(Step(t, run[0]), run[1..])
  {
    hide Inv, Step;
    StepKeeps(t, run[0]);
  }

  lemma MessageStays(t: Table, c: ConnInfo, m: Message, hbMode: nat, f: nat, fd: int)
    requires c in t.recs && t.recs[c].state == Ready && Lives(m, hbMode)
    ensures var u := OnMessage(t, c, m, hbMode, f, fd);
            c in u.recs && u.recs[c].state == Ready && u.recs[c].lastHbRecvTime == t.now == u.now
  {
  }
}
