/** Runs of the server's connection table: what each kind of event does to it, and what holds after any
sequence of events. */
module ServerEvents {
  import opened Connection
  import opened ServerTable
  import opened ServerSteps
  import opened ServerSweep
  import opened Packets
  import FdManager
  import ConvManager

  // ----- what the handlers do -----

  lemma IndexedIsReady(t: Table, k: nat)
    requires Inv(t) && k in t.constIdMp
    ensures var o := t.constIdMp[k];
            o in t.recs && t.recs[o].state == Ready && t.recs[o].constId == k && t.recs[o].peer in t.mp
  {
    hide Conns, Index, Fds, InjectiveMp, OrderOk, Sizes;
    IndexAt(t, k);
    ConnAt(t, t.constIdMp[k]);
  }

  lemma PeerInMp(t: Table, c: ConnInfo)
    requires Inv(t) && c in t.recs && t.recs[c].state != Idle
    ensures t.recs[c].peer in t.mp && t.mp[t.recs[c].peer] == c
  {
    hide Conns, Index, Fds, InjectiveMp, OrderOk, Sizes;
    ConnAt(t, c);
  }

  /** The table is full, or the handshake is older than the connection it would recover. */
  predicate TurnedAway(t: Table, c: ConnInfo, k: nat)
    requires c in t.recs
  {
    if k in t.constIdMp then t.constIdMp[k] in t.recs && t.recs[c].lastStateTime < t.recs[t.constIdMp[k]].lastStateTime
    else t.readyNum >= MAX_READY_CONN_NUM
  }

  /** `server_on_raw_recv_pre_ready`: a handshaking connection whose peer announced const id `k`. */
  ghost function PreReady(t: Table, c: ConnInfo, k: nat, f: nat, fd: int): Table
    requires Inv(t) && c in t.recs && t.recs[c].state == Handshake1
  {
    if k !in t.constIdMp then
      if t.readyNum >= MAX_READY_CONN_NUM then Retire(t, c) else Promote(t, c, k, f, fd)
    else
      IndexedIsReady(t, k);
      PeerInMp(t, c);
      var o := t.constIdMp[k];
      if t.recs[c].lastStateTime < t.recs[o].lastStateTime then Retire(t, c) else Grab(t, o, c)
  }

  /** `server_on_raw_recv_ready`: one message from a ready connection's peer.  `fd` is the new socket, negative
      when there is none, and `f` its number in the descriptor table. */
  function OnMessage(t: Table, c: ConnInfo, m: Message, hbMode: nat, f: nat, fd: int): Table
    requires c in t.recs
  {
    match m
    case Other => t
    case Heartbeat => SetRec(t, c, t.recs[c].(lastHbRecvTime := t.now))
    case Data(conv) =>
      var u := if hbMode == 0 then SetRec(t, c, t.recs[c].(lastHbRecvTime := t.now)) else t;
      if OpensConv(t, c, m) && fd >= 0 then OpenConv(u, c, conv, f, fd) else u
  }

  /** The message starts a conversation there is room for. */
  predicate OpensConv(t: Table, c: ConnInfo, m: Message)
    requires c in t.recs
  {
    m.Data? && m.conv !in t.recs[c].convs && |t.recs[c].convs| < ConvManager.MAX_CONV_NUM
  }

  /** What a message changes, field by field: a heartbeat, or in mode 0 any data, renews the time the connection was heard
  at; data of an unknown conversation opens it, under number `f` for descriptor `fd`, while there are fewer than 10000 and a
  descriptor was to be had.  Nothing else changes, and no other connection. */
  ghost predicate MessageDone(t: Table, u: Table, c: ConnInfo, m: Message, hbMode: nat, f: nat, fd: int, heard: nat)
    requires c in t.recs
  {
    && c in u.recs && u == t.(recs := t.recs[c := u.recs[c]], fds := u.fds, now := u.now)
    && var r, n := t.recs[c], u.recs[c];
      && n == r.(lastHbRecvTime := n.lastHbRecvTime, convs := n.convs)
      && n.lastHbRecvTime == (if m == Heartbeat || (m.Data? && hbMode == 0) then heard else r.lastHbRecvTime)
      && if m.Data? && m.conv !in r.convs && |r.convs| < 10000 && fd >= 0
         then
           && n.convs == r.convs[m.conv := f]
           && u.fds.live == t.fds.live[f := fd] && u.fds.info == t.fds.info[f := c] && u.fds.issued == t.fds.issued + {f}
         else n.convs == r.convs && u.fds == t.fds
  }

  lemma MessageIsDone(t: Table, c: ConnInfo, m: Message, hbMode: nat, f: nat, fd: int, heard: nat, after: nat)
    requires c in t.recs
    ensures MessageDone(t, Tick(OnMessage(Tick(t, heard), c, m, hbMode, f, fd), after), c, m, hbMode, f, fd, heard)
  {
    assert t.recs[c := t.recs[c]] == t.recs;
  }

  // ----- runs -----

  datatype Event =
    | Ticks(now: nat)                                                  // the clock was read
    | Arrives(a: Address, c: ConnInfo, r: Rec, pos: nat)               // first handshake of an address
    | Answers(c: ConnInfo, oppositeId: nat, k: nat, f: nat, fd: int)   // second handshake
    | Speaks(c: ConnInfo, m: Message, hbMode: nat, f: nat, fd: int)    // a message of a ready connection
    | Expires(c: ConnInfo, kept: map<nat, nat>)                        // the connection's timer
    | Cleans                                                           // the global timer

  ghost predicate Unissued(t: Table, f: nat) {
    f !in t.fds.issued && f > FdManager.U32_MAX
  }

  ghost predicate Enabled(t: Table, e: Event) {
    match e
    case Ticks(now) => t.now <= now
    case Arrives(a, c, r, pos) =>
      && a !in t.mp && c !in t.recs && |t.mp| < MAX_HANDSHAKE_CONN_NUM && pos <= |t.order|
      && r.state == Handshake1 && !r.hasBlob && r.constId == 0 && r.timer == 0 && r.convs == map[]
      && r.peer == a && r.lastStateTime <= t.now
    case Answers(c, _, _, f, _) => c in t.recs && t.recs[c].state == Handshake1 && Unissued(t, f)
    case Speaks(c, _, _, f, _) => c in t.recs && t.recs[c].state == Ready && Unissued(t, f)
    case Expires(c, kept) =>
      && c in t.recs && t.recs[c].state == Ready
      && kept.Keys <= t.recs[c].convs.Keys && forall k :: k in kept ==> kept[k] == t.recs[c].convs[k]
    case Cleans => true
  }

  ghost function Step(t: Table, e: Event): Table
    requires Inv(t) && Enabled(t, e)
  {
    match e
    case Ticks(now) => Tick(t, now)
    case Arrives(a, c, r, pos) => Admit(t, a, c, r, pos)
    case Answers(c, id, k, f, fd) => IdSetKeeps(t, c, id); PreReady(SetRec(t, c, t.recs[c].(oppositeId := id)), c, k, f, fd)
    case Speaks(c, m, hbMode, f, fd) => OnMessage(t, c, m, hbMode, f, fd)
    case Expires(c, kept) => DropConvs(t, c, kept)
    case Cleans => Sweep(t, Quota(|t.mp|))
  }

  lemma PreReadyKeeps(t: Table, c: ConnInfo, k: nat, f: nat, fd: int)
    requires Inv(t) && c in t.recs && t.recs[c].state == Handshake1 && Unissued(t, f)
    ensures Inv(PreReady(t, c, k, f, fd))
    ensures NonZeroIds(t) && k != 0 ==> NonZeroIds(PreReady(t, c, k, f, fd))
  {
    hide Inv;
    if k !in t.constIdMp {
      if t.readyNum >= MAX_READY_CONN_NUM { RetireKeeps(t, c); } else { PromoteKeeps(t, c, k, f, fd); }
    } else {
      IndexedIsReady(t, k);
      if t.recs[c].lastStateTime < t.recs[t.constIdMp[k]].lastStateTime { RetireKeeps(t, c); } else { GrabKeeps(t, t.constIdMp[k], c); }
    }
  }

  lemma OnMessageKeeps(t: Table, c: ConnInfo, m: Message, hbMode: nat, f: nat, fd: int)
    requires Inv(t) && c in t.recs && t.recs[c].state == Ready && Unissued(t, f)
    ensures Inv(OnMessage(t, c, m, hbMode, f, fd))
    ensures OnMessage(t, c, m, hbMode, f, fd).constIdMp == t.constIdMp
  {
    hide Inv;
    HeardKeeps(t, c, t.now);
    if OpensConv(t, c, m) && fd >= 0 {
      var u := if hbMode == 0 then SetRec(t, c, t.recs[c].(lastHbRecvTime := t.now)) else t;
      OpenConvKeeps(u, c, m.conv, f, fd);
    }
  }

  lemma {:induction false} SweepKeeps(t: Table, n: nat)
    requires Inv(t)
    ensures Inv(Sweep(t, n)) && (NonZeroIds(t) ==> NonZeroIds(Sweep(t, n)))
    decreases n
  {
    hide Inv, Turn;
    if n > 0 && t.order != [] {
      TurnFacts(t);
      SweepKeeps(Turn(t, Current(t)), n - 1);
    }
  }

  lemma StepKeeps(t: Table, e: Event)
    requires Inv(t) && Enabled(t, e)
    ensures Inv(Step(t, e))
  {
    hide Inv, PreReady, OnMessage, Sweep;
    match e
    case Ticks(now) => TickKeeps(t, now);
    case Arrives(a, c, r, pos) => AdmitKeeps(t, a, c, r, pos);
    case Answers(c, id, k, f, fd) =>
      IdSetKeeps(t, c, id);
      PreReadyKeeps(SetRec(t, c, t.recs[c].(oppositeId := id)), c, k, f, fd);
    case Speaks(c, m, hbMode, f, fd) => OnMessageKeeps(t, c, m, hbMode, f, fd);
    case Expires(c, kept) => DropConvsKeeps(t, c, kept);
    case Cleans => SweepKeeps(t, Quota(|t.mp|));
  }

  ghost predicate Possible(t: Table, run: seq<Event>)
    requires Inv(t)
    decreases |run|
  {
    run == [] || (Enabled(t, run[0]) && (StepKeeps(t, run[0]); Possible(Step(t, run[0]), run[1..])))
  }

  ghost function Run(t: Table, run: seq<Event>): Table
    requires Inv(t) && Possible(t, run)
    decreases |run|
  {
    if run == [] then t else
    StepKeeps(t, run[0]);
    Run(Step(t, run[0]), run[1..])
  }

  lemma ThreeSteps(t: Table, e: Event, f: Event, g: Event, u: Table, v: Table, w: Table)
    requires Inv(t) && Enabled(t, e) && u == Step(t, e)
    requires Inv(u) && Enabled(u, f) && v == Step(u, f)
    requires Inv(v) && Enabled(v, g) && w == Step(v, g) && Inv(w)
    ensures Possible(t, [e, f, g]) && Run(t, [e, f, g]) == w
  {
    hide Inv, Step, Enabled;
    assert [e, f, g][1..] == [f, g] && [f, g][1..] == [g] && [g][1..] == [];
    assert Possible(w, []) && Run(w, []) == w;
    assert Possible(v, [g]) && Run(v, [g]) == w;
    assert Possible(u, [f, g]) && Run(u, [f, g]) == w;
  }

  /** The table of a server that just started. */
  ghost function Empty(now: nat): Table {
    Table(map[], map[], map[], 0, FdManager.Table(map[], map[], {}), [], End, now)
  }

  /** The invariant holds in every reachable state. */
  lemma {:induction false} RunKeeps(t: Table, run: seq<Event>)
    requires Inv(t) && Possible(t, run)
    ensures Inv(Run(t, run))
    decreases |run|
  {
    hide Inv, Step;
    if run != [] {
      StepKeeps(t, run[0]);
      RunKeeps(Step(t, run[0]), run[1..]);
    }
  }

  lemma EmptyInv(now: nat)
    ensures Inv(Empty(now)) && NonZeroIds(Empty(now))
  {
  }

  /** No peer announces a zero const id. */
  ghost predicate PeersHaveIds(run: seq<Event>) {
    forall e <- run :: e.Answers? ==> e.k != 0
  }

  /** Then no ready connection ever has const id 0, and the assertions of `erase` hold throughout. */
  lemma {:induction false} RunHasNonZeroIds(t: Table, run: seq<Event>)
    requires Inv(t) && Possible(t, run) && NonZeroIds(t) && PeersHaveIds(run)
    ensures Inv(Run(t, run)) && NonZeroIds(Run(t, run))
    ensures forall c :: c in ReadyConns(Run(t, run)) ==> Run(t, run).recs[c].constId != 0
    decreases |run|
  {
    hide Inv, PreReady, OnMessage, Sweep, NonZeroIds;
    if run == [] {
      ReadyCount(t);
      assert 0 !in t.constIdMp by { NonZeroMeans(t); }
    } else {
      StepKeeps(t, run[0]);
      assert run[0] in run;
      StepIds(t, run[0]);
      assert forall e <- run[1..] :: e in run;
      RunHasNonZeroIds(Step(t, run[0]), run[1..]);
    }
  }

  lemma NonZeroMeans(t: Table)
    requires NonZeroIds(t)
    ensures 0 !in t.constIdMp
  {
  }

  lemma StepIds(t: Table, e: Event)
    requires Inv(t) && Enabled(t, e) && NonZeroIds(t) && (e.Answers? ==> e.k != 0)
    ensures NonZeroIds(Step(t, e))
  {
    hide Inv, PreReady, OnMessage, Sweep;
    match e
    case Answers(c, id, k, f, fd) =>
      IdSetKeeps(t, c, id);
      PreReadyKeeps(SetRec(t, c, t.recs[c].(oppositeId := id)), c, k, f, fd);
    case Speaks(c, m, hbMode, f, fd) => OnMessageKeeps(t, c, m, hbMode, f, fd);
    case Cleans => SweepKeeps(t, Quota(|t.mp|));
    case _ =>
  }

  // ----- descriptors over a run -----

  /** Numbers once handed out stay so; of those, a closed one stays closed and a live one keeps its owner. */
  ghost predicate FdsGoForward(t: Table, u: Table) {
    && t.fds.issued <= u.fds.issued
    && forall f :: f in t.fds.issued && f in u.fds.live ==>
         f in t.fds.live && u.fds.live[f] == t.fds.live[f]
         && (f in u.fds.info <==> f in t.fds.info) && (f in u.fds.info ==> u.fds.info[f] == t.fds.info[f])
  }

  lemma FdsForwardTwice(t: Table, u: Table, v: Table)
    requires FdsGoForward(t, u) && FdsGoForward(u, v)
    ensures FdsGoForward(t, v)
  {
  }

  lemma ClosedForward(t: Table, u: Table, gone: set<nat>)
    requires u.fds == FdManager.Closed(t.fds, gone)
    ensures FdsGoForward(t, u)
  {
  }

  lemma AddedForward(t: Table, u: Table, c: ConnInfo, f: nat, fd: int)
    requires u.fds == FdManager.Table(t.fds.live[f := fd], t.fds.info[f := c], t.fds.issued + {f}) && f !in t.fds.issued
    ensures FdsGoForward(t, u)
  {
  }

  lemma ForwardSame(t: Table, u: Table)
    requires u.fds == t.fds
    ensures FdsGoForward(t, u)
  {
  }

  lemma {:induction false} SweepForward(t: Table, n: nat)
    requires Inv(t)
    ensures FdsGoForward(t, Sweep(t, n))
    decreases n
  {
    hide Inv, Turn, FdsGoForward;
    if n > 0 && t.order != [] {
      TurnFacts(t);
      var u := Turn(t, Current(t));
      TurnEffect(t, Current(t));
      ClosedForward(t, u, if Expired(t, Current(t)) then Holdings(t.recs[t.mp[Current(t)]]) else {});
      SweepForward(u, n - 1);
      FdsForwardTwice(t, u, Sweep(u, n - 1));
    } else {
      ForwardSame(t, t);
    }
  }

  lemma StepForward(t: Table, e: Event)
    requires Inv(t) && Enabled(t, e)
    ensures FdsGoForward(t, Step(t, e))
  {
    hide Inv, Sweep, FdsGoForward;
    var u := Step(t, e);
    match e
    case Ticks(now) => ForwardSame(t, u);
    case Arrives(a, c, r, pos) => ForwardSame(t, u);
    case Answers(c, id, k, f, fd) =>
      IdSetKeeps(t, c, id);
      if k !in t.constIdMp && t.readyNum < MAX_READY_CONN_NUM { AddedForward(t, u, c, f, fd); } else { ForwardSame(t, u); }
    case Speaks(c, m, hbMode, f, fd) =>
      if OpensConv(t, c, m) && fd >= 0 { AddedForward(t, u, c, f, fd); } else { ForwardSame(t, u); }
    case Expires(c, kept) => ClosedForward(t, u, t.recs[c].convs.Values - kept.Values);
    case Cleans => SweepForward(t, Quota(|t.mp|));
  }

  lemma {:induction false} RunForward(t: Table, run: seq<Event>)
    requires Inv(t) && Possible(t, run)
    ensures FdsGoForward(t, Run(t, run))
    decreases |run|
  {
    hide Inv, Step, FdsGoForward;
    if run == [] {
      ForwardSame(t, t);
    } else {
      StepKeeps(t, run[0]);
      StepForward(t, run[0]);
      RunForward(Step(t, run[0]), run[1..]);
      FdsForwardTwice(t, Step(t, run[0]), Run(Step(t, run[0]), run[1..]));
    }
  }

  /** Whatever happens between, a number that was closed is never live again, and one that is still live
      stands for the same descriptor of the same connection. */
  lemma NumbersAreNotReused(t: Table, run: seq<Event>, f: nat)
    requires Inv(t) && Possible(t, run) && f in t.fds.issued && f in Run(t, run).fds.live
    ensures f in t.fds.live && Run(t, run).fds.live[f] == t.fds.live[f]
    ensures f in t.fds.info && f in Run(t, run).fds.info && Run(t, run).fds.info[f] == t.fds.info[f]
    ensures f > FdManager.U32_MAX
  {
    RunForward(t, run);
    hide Possible, Run;
    FdsFacts(t);
  }

  // ----- what a finished handshake means -----

  /** After a second handshake with const id `k`, unless it began before the connection it would recover, or there was none to
      recover and the table was full, the one ready connection with that id sits at the handshake's address with the
      handshake's ids, and if the id was ready before it is the same object, still holding its timer and all its
      conversations. */
  lemma HandshakeOutcome(t: Table, c: ConnInfo, k: nat, f: nat, fd: int)
    requires Inv(t) && c in t.recs && t.recs[c].state == Handshake1 && Unissued(t, f)
    ensures var u := PreReady(t, c, k, f, fd); var r := t.recs[c];
            if (if k in t.constIdMp then t.constIdMp[k] in t.recs && r.lastStateTime < t.recs[t.constIdMp[k]].lastStateTime
                else t.readyNum >= 1000)
            then u.constIdMp == t.constIdMp && u.mp == t.mp && c in u.recs && u.recs[c].state == Idle
            else
              && k in u.constIdMp && u.constIdMp[k] in u.recs
              && var o := u.constIdMp[k]; var n := u.recs[o];
                && n.state == Ready && n.peer == r.peer && r.peer in u.mp && u.mp[r.peer] == o
                && n.myId == r.myId && n.oppositeId == r.oppositeId && n.lastStateTime == r.lastStateTime
                && n.lastHbRecvTime == t.now
                && (k !in t.constIdMp ==> o == c && u.readyNum == t.readyNum + 1 && n.convs == map[] && n.timer == f)
                && (k in t.constIdMp ==>
                      && o == t.constIdMp[k] && u.readyNum == t.readyNum && u.fds == t.fds
                      && o in t.recs && n.timer == t.recs[o].timer && n.convs == t.recs[o].convs
                      && c != o && c in u.recs && u.recs[c].state == Idle
                      && t.recs[o].peer in u.mp && u.mp[t.recs[o].peer] == c)
  {
    hide Conns, Index, Fds, InjectiveMp, OrderOk, Sizes;
    PeerInMp(t, c);
    if k in t.constIdMp {
      IndexedIsReady(t, k);
      GrabKeeps(t, t.constIdMp[k], c);
    }
  }
}
