/** Const id 0: which assertions it breaks, and which runs of the server lead to a connection that has it. */
module ServerIds {
  import opened Connection
  import opened ServerTable
  import opened ServerSteps
  import opened ServerSweep
  import opened ServerEvents
  import FdManager

  /** What the assertion in a line of connection.cpp claims when the connection at `a` is erased: lines 205 to 230 in
  `erase`, 124 to 132 in the destructor, 652 in the clear function of the conversations. */
  ghost predicate Claim(t: Table, a: Address, line: nat)
    requires a in t.mp && t.mp[a] in t.recs
  {
    var r := t.recs[t.mp[a]];
    if r.state == Ready then
      match line
      case 205 => t.readyNum > 0
      case 208 => r.timer != 0
      case 210 => r.timer in t.fds.live
      case 212 => r.constId != 0
      case 213 => r.constId in t.constIdMp
      case 124 => r.hasBlob
      case 125 => r.constId != 0
      case 652 => r.convs.Values <= t.fds.live.Keys - {r.timer} && Injective(r.convs)
      case _ => true
    else
      match line
      case 227 => !r.hasBlob
      case 228 => r.timer == 0
      case 230 => r.constId == 0
      case 128 => !r.hasBlob
      case 129 => r.constId == 0
      case 132 => r.timer == 0
      case _ => true
  }

  /** In a valid table exactly two of them depend on the const id: lines 212 and 125, and they fail for a ready
  connection if and only if its id is 0.  All the others hold. */
  lemma TwoClaimsNeedAnId(t: Table, a: Address, line: nat)
    requires Inv(t) && a in t.mp
    ensures t.mp[a] in t.recs
    ensures var r := t.recs[t.mp[a]];
            Claim(t, a, line) <==> !(r.state == Ready && r.constId == 0 && (line == 212 || line == 125))
  {
    hide Index, InjectiveMp, OrderOk, Conns, Fds;
    AddressedByPeer(t, a);
    var c := t.mp[a];
    ConnAt(t, c);
    if t.recs[c].state == Ready {
      OwnsValues(t, c);
      FdsFacts(t);
      assert Owns(t, c, t.recs[c].timer);
    }
  }

  // ----- how a connection gets id 0, and how it goes -----

  /** The event makes a connection of const id 0 ready. */
  ghost predicate PromotesZero(t: Table, e: Event) {
    e.Answers? && e.k == 0 && 0 !in t.constIdMp && t.readyNum < MAX_READY_CONN_NUM
  }

  /** The event erases the connection of const id 0. */
  ghost predicate ErasesZero(t: Table, e: Event)
    requires Inv(t)
  {
    && e.Cleans? && 0 in t.constIdMp && t.constIdMp[0] in t.recs
    && var r := t.recs[t.constIdMp[0]]; r.peer in NextUp(t) && DueForErase(r, t.now)
  }

  /** No event of the run erases it. */
  ghost predicate Stays(t: Table, run: seq<Event>)
    requires Inv(t) && Possible(t, run)
    decreases |run|
  {
    run == [] || (!ErasesZero(t, run[0]) && (StepKeeps(t, run[0]); Stays(Step(t, run[0]), run[1..])))
  }

  /** Some event of the run makes a connection of const id 0 ready, and no later one erases it. */
  ghost predicate Comes(t: Table, run: seq<Event>)
    requires Inv(t) && Possible(t, run)
    decreases |run|
  {
    && run != []
    && (StepKeeps(t, run[0]);
        (PromotesZero(t, run[0]) && Stays(Step(t, run[0]), run[1..])) || Comes(Step(t, run[0]), run[1..]))
  }

  lemma PreReadyZero(t: Table, c: ConnInfo, k: nat, f: nat, fd: int)
    requires Inv(t) && c in t.recs && t.recs[c].state == Handshake1
    ensures 0 in PreReady(t, c, k, f, fd).constIdMp <==>
              0 in t.constIdMp || (k == 0 && t.readyNum < MAX_READY_CONN_NUM)
  {
    hide Inv;
  }

  lemma SweepZero(t: Table)
    requires Inv(t)
    ensures 0 in Sweep(t, Quota(|t.mp|)).constIdMp <==> 0 in t.constIdMp && !ErasesZero(t, Cleans)
  {
    hide Inv, Sweep, Swept, Expired, DueForErase, Victims, Rot;
    OrderSize(t);
    Ordered(t);
    var n := Quota(|t.mp|);
    SweepErasesTheTimedOut(t, n);
    var u, seen := Sweep(t, n), NextUp(t);
    assert forall a <- seen :: a in Rot(t);
    SweptMp(t, u, seen);
    SweptAgrees(t, u, seen);
    if 0 in t.constIdMp {
      IndexedIsReady(t, 0);
      var c := t.constIdMp[0];
      PeerInMp(t, c);
      var a := t.recs[c].peer;
      if ErasesZero(t, Cleans) {
        DueExpires(t, a);
        VictimIs(t, seen, a);
      } else if a in Victims(t, seen) {
        VictimsTimedOut(t, seen, a);
        DueMeans(t.recs[c], t.now);
      }
      assert a in u.mp <==> !ErasesZero(t, Cleans);
      if a in u.mp { ReadyIsIndexed(u, c); }
    }
    if 0 in u.constIdMp {
      IndexedIsReady(u, 0);
      PeerInMp(u, u.constIdMp[0]);
      ReadyIsIndexed(t, u.constIdMp[0]);
    }
  }

  lemma SweptAgrees(t: Table, u: Table, seen: seq<Address>)
    requires (forall a <- seen :: a in t.mp && t.mp[a] in t.recs) && Swept(t, u, seen)
    ensures Agrees(t, u)
  {
  }

  lemma ReadyIsIndexed(t: Table, c: ConnInfo)
    requires Inv(t) && c in t.recs && t.recs[c].state == Ready
    ensures t.recs[c].constId in t.constIdMp && t.constIdMp[t.recs[c].constId] == c
  {
    hide Index, InjectiveMp, OrderOk, Conns, Fds;
    ConnAt(t, c);
  }

  /** One event: id 0 is there afterwards if it was before and is not erased, or if it just came. */
  lemma StepZero(t: Table, e: Event)
    requires Inv(t) && Enabled(t, e)
    ensures 0 in Step(t, e).constIdMp <==> (0 in t.constIdMp && !ErasesZero(t, e)) || PromotesZero(t, e)
  {
    hide Inv, PreReady, OnMessage, Sweep;
    match e
    case Answers(c, id, k, f, fd) =>
      IdSetKeeps(t, c, id);
      PreReadyZero(SetRec(t, c, t.recs[c].(oppositeId := id)), c, k, f, fd);
    case Speaks(c, m, hbMode, f, fd) => OnMessageKeeps(t, c, m, hbMode, f, fd);
    case Cleans => SweepZero(t);
    case _ =>
  }

  lemma {:induction false} RunZero(t: Table, run: seq<Event>)
    requires Inv(t) && Possible(t, run)
    ensures 0 in Run(t, run).constIdMp <==> (0 in t.constIdMp && Stays(t, run)) || Comes(t, run)
    decreases |run|
  {
    hide Inv, Step, Enabled, ErasesZero, PromotesZero;
    if run != [] {
      StepKeeps(t, run[0]);
      StepZero(t, run[0]);
      RunZero(Step(t, run[0]), run[1..]);
    }
  }

  /** After any run from a table without id 0, some ready connection has id 0, so that its erase would fail in lines
  212 and 125, if and only if some event of the run made one ready and no later event erased it. */
  lemma ZeroIdsCome(t: Table, run: seq<Event>)
    requires Inv(t) && NonZeroIds(t) && Possible(t, run)
    ensures Inv(Run(t, run))
    ensures (exists c :: c in ReadyConns(Run(t, run)) && Run(t, run).recs[c].constId == 0) <==> Comes(t, run)
    ensures (exists a :: a in Run(t, run).mp && Run(t, run).mp[a] in Run(t, run).recs && !Claim(Run(t, run), a, 212)) <==> Comes(t, run)
  {
    hide Inv, Possible, Run, Stays, Comes;
    RunKeeps(t, run);
    RunZero(t, run);
    var u := Run(t, run);
    if 0 in u.constIdMp {
      IndexedIsReady(u, 0);
      PeerInMp(u, u.constIdMp[0]);
      TwoClaimsNeedAnId(u, u.recs[u.constIdMp[0]].peer, 212);
    }
    forall c | c in ReadyConns(u) && u.recs[c].constId == 0 ensures 0 in u.constIdMp { ReadyIsIndexed(u, c); }
    forall a | a in u.mp && u.mp[a] in u.recs && !Claim(u, a, 212) ensures 0 in u.constIdMp {
      TwoClaimsNeedAnId(u, a, 212);
      ReadyIsIndexed(u, u.mp[a]);
    }
  }

  // ----- a run to the erase -----

  const PEER: Address := Address(1, 4096)
  const TIMER: nat := FdManager.U32_MAX + 100

  /** A client with const id `k` connects and is not heard from for five minutes. */
  ghost function StaleRun(c: ConnInfo, k: nat): seq<Event> {
    [Arrives(PEER, c, Rec(Handshake1, PEER, 0, 0, 1, 0, 0, 0, false, map[]), 0), Answers(c, 2, k, TIMER, 5), Ticks(300000)]
  }

  ghost function StaleTable(c: ConnInfo, k: nat): Table {
    Table(map[PEER := c], map[c := Rec(Ready, PEER, 0, 0, 1, 2, k, TIMER, true, map[])], map[k := c], 1,
          FdManager.Table(map[TIMER := 5], map[TIMER := c], {TIMER}), [PEER], End, 300000)
  }

  lemma StaleArrives(c: ConnInfo, k: nat)
    ensures Enabled(Empty(0), StaleRun(c, k)[0])
    ensures Step(Empty(0), StaleRun(c, k)[0]) ==
            Table(map[PEER := c], map[c := StaleRun(c, k)[0].r], map[], 0, FdManager.Table(map[], map[], {}), [PEER], End, 0)
  {
    EmptyInv(0);
    hide Inv;
    assert Empty(0).order[..0] + [PEER] + Empty(0).order[0..] == [PEER];
  }

  lemma StaleAnswers(c: ConnInfo, k: nat, t: Table)
    requires Inv(t)
    requires t == Table(map[PEER := c], map[c := StaleRun(c, k)[0].r], map[], 0, FdManager.Table(map[], map[], {}), [PEER], End, 0)
    ensures Enabled(t, StaleRun(c, k)[1]) && Step(t, StaleRun(c, k)[1]) == Tick(StaleTable(c, k), 0)
  {
    hide Inv;
    var r := t.recs[c];
    IdSetKeeps(t, c, 2);
    var u := SetRec(t, c, r.(oppositeId := 2));
    assert u.recs == map[c := r.(oppositeId := 2)];
    assert PreReady(u, c, k, TIMER, 5) == Promote(u, c, k, TIMER, 5);
    var v := Promote(u, c, k, TIMER, 5);
    assert v.recs == StaleTable(c, k).recs && v.constIdMp == map[k := c] && v.fds == StaleTable(c, k).fds;
  }

  /** The table is reachable from the start of the server. */
  lemma StaleIsReachable(c: ConnInfo, k: nat)
    ensures Inv(Empty(0)) && Possible(Empty(0), StaleRun(c, k)) && Run(Empty(0), StaleRun(c, k)) == StaleTable(c, k) && Inv(StaleTable(c, k))
  {
    hide Inv, Step, Enabled, Possible, Run;
    var run := StaleRun(c, k);
    EmptyInv(0);
    var t := Empty(0);
    StaleArrives(c, k);
    StepKeeps(t, run[0]);
    var u := Step(t, run[0]);
    StaleAnswers(c, k, u);
    StepKeeps(u, run[1]);
    var v := Step(u, run[1]);
    StaleTicks(c, k, v);
    StepKeeps(v, run[2]);
    ThreeSteps(t, run[0], run[1], run[2], u, v, StaleTable(c, k));
  }

  lemma StaleTicks(c: ConnInfo, k: nat, v: Table)
    requires Inv(v) && v == Tick(StaleTable(c, k), 0)
    ensures Enabled(v, StaleRun(c, k)[2]) && Step(v, StaleRun(c, k)[2]) == StaleTable(c, k)
  {
    hide Inv;
  }

  lemma NonZeroStale(c: ConnInfo, k: nat)
    ensures NonZeroIds(StaleTable(c, k)) <==> k != 0
  {
  }

  lemma StaleNext(c: ConnInfo, k: nat)
    ensures var t := StaleTable(c, k);
            Inv(t) && NextUp(t) == [PEER] && Current(t) == PEER && forall now: nat :: now >= 300000 ==> DueForErase(t.recs[c], now)
  {
    StaleIsReachable(c, k);
    hide Inv;
    OrderSize(StaleTable(c, k));
    Ordered(StaleTable(c, k));
    assert Rot(StaleTable(c, k)) == [PEER];
    assert |StaleTable(c, k).mp| == 1;
  }

  /** A reachable table in which the next thing the global cleanup does is an erase that fails in lines 212 and 125. */
  lemma ZeroIdFails(c: ConnInfo)
    ensures var t := StaleTable(c, 0);
            && Possible(Empty(0), StaleRun(c, 0)) && Run(Empty(0), StaleRun(c, 0)) == t && Inv(t)
            && Quota(|t.mp|) == 1 && Current(t) == PEER && PEER in t.mp && t.mp[PEER] == c && Expired(t, PEER)
            && !Claim(t, PEER, 212) && !Claim(t, PEER, 125)
  {
    StaleIsReachable(c, 0);
    StaleNext(c, 0);
    hide Inv, Possible, Run;
    assert |StaleTable(c, 0).mp| == 1;
    TwoClaimsNeedAnId(StaleTable(c, 0), PEER, 212);
    TwoClaimsNeedAnId(StaleTable(c, 0), PEER, 125);
  }
}
