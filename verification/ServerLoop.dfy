/** One round of the server's event loop: the events `epoll_wait` reported are taken in order, and a 64-bit number
that is no longer live ends the loop, and with it the server. */
module ServerLoop {
  import opened Connection
  import opened ServerTable
  import opened ServerSteps
  import opened ServerSweep
  import opened ServerEvents
  import opened ServerIds
  import opened Packets
  import opened Server
  import opened ServerHandlers
  import AntiReplay
  import ConvManager
  import FdManager
  import L = Lru

  datatype LoopEvent = GlobalTimer | Raw(p: RawPacket) | Fifo | Number(f: nat)

  /** The state with the time of the last global cleanup. */
  datatype Loop = Loop(s: State, lastClear: int)

  /** What an event came to, with the clock readings and the kernel's answers on its way. */
  datatype Done =
    | Cleaned(asked: nat, now: nat)
    | Got(g: Given, reply: Reply, sent: seq<Packet>, out: seq<Packet>, tr: Trace)
    | Ran(recvLen: int, res: FdResult, sent: seq<Packet>, rd: Readings)
    | Skipped

  /** The list of conversations by activity is in order and lists the live ones. */
  ghost predicate ListFits(x: Inside, r: Rec) {
    L.NewestFirst(x.list) && L.DistinctKeys(x.list) && L.Keys(x.list) == r.convs.Keys
  }

  /** What holds between events. */
  ghost predicate Sound(x: Loop) {
    && Inv(x.s.t) && NonZeroIds(x.s.t) && 0 <= x.lastClear <= x.s.t.now
    && forall c :: c in x.s.ins && c in x.s.t.recs ==> ListFits(x.s.ins[c], x.s.t.recs[c])
  }

  /** The global cleanup runs if the last one was more than a second ago. */
  ghost predicate CleanDone(x: Loop, y: Loop, asked: nat, now: nat)
    requires Inv(x.s.t)
  {
    && x.s.t.now <= asked <= now && Inv(Tick(x.s.t, now)) && LeftInside(x.s.ins, y.s.ins, y.s.t)
    && if asked > x.lastClear + CONN_CLEAR_INTERVAL
       then y.s.t == Sweep(Tick(x.s.t, now), Quota(|x.s.t.mp|)) && asked <= y.lastClear
       else y.s.t == Tick(x.s.t, now) && y.lastClear == x.lastClear && now == asked
  }

  /** One event is handled. */
  ghost predicate Happens(x: Loop, y: Loop, e: LoopEvent, d: Done, hbMode: nat, dummySocket: bool)
    requires Inv(x.s.t)
  {
    match e
    case GlobalTimer => d.Cleaned? && CleanDone(x, y, d.asked, d.now)
    case Raw(p) => d.Got? && Received(x.s, y.s, p, hbMode, dummySocket, d.g, d.reply, d.sent, d.out, d.tr) && y.lastClear == x.lastClear
    case Fifo => d.Skipped? && y == x
    case Number(f) => d.Ran? && !d.res.Gone? && FdDone(x.s, y.s, f, d.recvLen, d.res, d.sent, d.rd) && y.lastClear == x.lastClear
  }

  /** A peer never announces const id 0. */
  predicate HasId(e: LoopEvent) {
    e.Raw? && e.p.bare != [] && e.p.bare[0].Ids? && e.p.bare[0].second != 0 ==> e.p.bare[0].third != 0
  }

  /** The first events of the batch were handled one after the other. */
  ghost predicate Walk(path: seq<Loop>, events: seq<LoopEvent>, dones: seq<Done>, handled: nat, hbMode: nat, dummySocket: bool) {
    && |path| == handled + 1 && |dones| == handled <= |events|
    && (forall i :: 0 <= i <= handled ==> Sound(path[i]))
    && forall i :: 0 <= i < handled ==> Happens(path[i], path[i + 1], events[i], dones[i], hbMode, dummySocket)
  }

  /** The loop ends at the first dead number. */
  ghost predicate Round(path: seq<Loop>, events: seq<LoopEvent>, dones: seq<Done>, handled: nat, hbMode: nat, dummySocket: bool) {
    && Walk(path, events, dones, handled, hbMode, dummySocket)
    && (handled < |events| ==> events[handled].Number? && events[handled].f !in path[handled].s.t.fds.live)
  }

  // ----- the loop -----

  ghost function LoopOf(m: ConnManager): Loop
    reads m, m.fds, m.clock
  {
    Loop(StateOf(m), m.lastClearTime)
  }

  /** Failures, and free descriptors that differ. */
  predicate AllFree(used: set<int>, fds: seq<int>) {
    && (forall i :: 0 <= i < |fds| && fds[i] >= 0 ==> fds[i] !in used)
    && (forall i, j :: 0 <= i < j < |fds| ==> fds[i] < 0 || fds[i] != fds[j])
  }

  /** The descriptors the kernel would return, as far as they are free: for the others the call fails. */
  function Free(used: set<int>, fds: seq<int>): (r: seq<int>)
    ensures |r| == |fds| && AllFree(used, r)
    ensures AllFree(used, fds) ==> r == fds
  {
    if fds == [] then [] else
    var n := |fds| - 1;
    var r := Free(used, fds[..n]);
    r + [if fds[n] >= 0 && (fds[n] in used || fds[n] in r) then -1 else fds[n]]
  }

  /** The first free descriptor from `fd` on. */
  function FirstFree(used: set<int>, fd: int): (r: int)
    ensures r !in used && r >= fd && forall i :: fd <= i < r ==> i in used
    decreases |used|
  {
    if fd !in used then fd else
    assert forall i :: i in used - {fd} ==> i in used;
    FirstFree(used - {fd}, fd + 1)
  }

  /** What the kernel gives for a packet with `n` channel packets in it, when the descriptors in `used` are open and
  the hash map has `size` entries: whatever it can give, it may. */
  function Kernel(used: set<int>, size: nat, g: Given, n: nat): (h: Given)
    ensures |h.fds| == n && AllFree(used, h.fds) && h.timerFd !in used && h.pos <= size
    ensures |g.fds| == n && AllFree(used, g.fds) && g.timerFd !in used && g.pos <= size ==> h == g
  {
    g.(fds := Free(used, if |g.fds| >= n then g.fds[..n] else g.fds + seq(n - |g.fds|, _ => -1)),
       timerFd := FirstFree(used, g.timerFd),
       pos := if g.pos <= size then g.pos else size)
  }

  lemma ListsFit(m: ConnManager)
    requires m.Valid()
    ensures forall c :: c in m.insides && c in m.recs ==> ListFits(m.insides[c], m.recs[c])
  {
    hide ConnManager.Objects, Inv, ConnManager.Valid;
    m.ValidFacts();
    forall c | c in m.insides && c in m.recs ensures ListFits(m.insides[c], m.recs[c]) {
      m.Unmirror(c);
    }
  }

  // ----- ids stay non-zero -----

  lemma {:induction false} BatchIds(t: Table, c: ConnInfo, msgs: seq<Message>, hbMode: nat, fds: seq<int>, picks: seq<Pick>)
    requires c in t.recs && |msgs| == |fds| == |picks|
    ensures Batch(t, c, msgs, hbMode, fds, picks).constIdMp == t.constIdMp
    decreases |msgs|
  {
    var n := |msgs| - 1;
    if n >= 0 {
      BatchIds(t, c, msgs[..n], hbMode, fds[..n], picks[..n]);
    }
  }

  lemma ShakenIds(t: Table, c: ConnInfo, h: Shake, f: nat, fd: int)
    requires Inv(t) && c in t.recs && t.recs[c].state == Handshake1 && Unissued(t, f) && NonZeroIds(t)
    requires h.Ids? && h.second != 0 ==> h.third != 0
    ensures NonZeroIds(Shaken(t, c, h, f, fd))
  {
    hide Inv, Step, NonZeroIds;
    if Confirms(t, c, h) {
      StepIds(t, Answers(c, h.first, h.third, f, fd));
    }
  }

  lemma ReceivedIds(s: State, u: State, p: RawPacket, hbMode: nat, dummySocket: bool, g: Given,
                    reply: Reply, sent: seq<Packet>, out: seq<Packet>, tr: Trace)
    requires Inv(s.t) && NonZeroIds(s.t) && HasId(Raw(p)) && Received(s, u, p, hbMode, dummySocket, g, reply, sent, out, tr)
    ensures NonZeroIds(u.t)
  {
    hide Inv, Shaken, ShakenInside, Batch, BatchInside, PicksFit, AfterBatch, Parsed;
    if !p.syn && p.addr in s.t.mp {
      AddressedByPeer(s.t, p.addr);
      var c := s.t.mp[p.addr];
      if s.t.recs[c].state == Handshake1 && p.bare != [] {
        ShakenIds(Tick(s.t, u.t.now), c, p.bare[0], tr.f, g.timerFd);
      } else if s.t.recs[c].state == Ready {
        BatchIds(Tick(s.t, tr.at), c, MessagesOf(out), hbMode, g.fds[..|out|], tr.picks);
      }
    }
  }

  // ----- the events -----

  method OnGlobalTimer(m: ConnManager, g: Given) returns (ghost d: Done)
    requires m.Valid() && Sound(LoopOf(m))
    modifies m, m.fds, m.clock, m.repr
    ensures m.Valid() && m.repr == old(m.repr) && Sound(LoopOf(m))
    ensures d.Cleaned? && CleanDone(old(LoopOf(m)), LoopOf(m), d.asked, d.now)
  {
    hide Inv, ConnManager.Valid, ConnManager.Objects, NonZeroIds, LeftInside, Sweep, ListFits, FdManager.FdManager.View;
    Seen(m);
    var due;
    ghost var asked;
    due, asked := ClearInactive(m, g.raw(0), g.raw(1), g.raw(2));
    d := Cleaned(asked, m.clock.Reading());
    Seen(m);
    ListsFit(m);
  }

  method OnPacket(m: ConnManager, p: RawPacket, hbMode: nat, dummySocket: bool, given: Given) returns (ghost d: Done)
    requires m.Valid() && Sound(LoopOf(m)) && HasId(Raw(p))
    modifies m, m.fds, m.clock, m.repr
    ensures m.Valid() && old(m.repr) <= m.repr && fresh(m.repr - old(m.repr)) && Sound(LoopOf(m))
    ensures Happens(old(LoopOf(m)), LoopOf(m), Raw(p), d, hbMode, dummySocket)
  {
    hide Inv, ConnManager.Valid, ConnManager.Objects, NonZeroIds, Received, ListFits, FdManager.FdManager.View, Free;
    var g := Kernel(m.fds.fdToFd64.Keys, |m.order|, given, |p.batch|);
    var reply, sent, out;
    ghost var tr;
    reply, sent, out, tr := OnRawRecv(m, p, hbMode, dummySocket, g);
    d := Got(g, reply, sent, out, tr);
    ReceivedIds(old(StateOf(m)), StateOf(m), p, hbMode, dummySocket, g, reply, sent, out, tr);
    Seen(m);
    ListsFit(m);
  }

  lemma FdDoneIds(s: State, u: State, f: nat, recvLen: int, res: FdResult, sent: seq<Packet>, rd: Readings)
    requires NonZeroIds(s.t) && FdDone(s, u, f, recvLen, res, sent, rd)
    ensures NonZeroIds(u.t) && s.t.now <= u.t.now
  {
  }

  /** `go` is false when the number is dead. */
  method OnNumber(m: ConnManager, f: nat, g: Given) returns (go: bool, ghost d: Done)
    requires m.Valid() && Sound(LoopOf(m))
    modifies m, m.fds, m.clock, m.repr
    ensures m.Valid() && m.repr == old(m.repr) && Sound(LoopOf(m))
    ensures go <==> f in old(m.View()).fds.live
    ensures if go then Happens(old(LoopOf(m)), LoopOf(m), Number(f), d, 0, false) else LoopOf(m) == old(LoopOf(m))
  {
    hide Inv, ConnManager.Valid, ConnManager.Objects, NonZeroIds, FdDone, ListFits, FdManager.FdManager.View;
    var res, sent;
    ghost var rd;
    res, sent, rd := OnFdEvent(m, f, g);
    go := !res.Gone?;
    d := Ran(g.recvLen, res, sent, rd);
    FdDoneIds(old(StateOf(m)), StateOf(m), f, g.recvLen, res, sent, rd);
    WhenGone(old(StateOf(m)), StateOf(m), f, g.recvLen, res, sent, rd);
    Seen(m);
    ListsFit(m);
  }

  lemma WhenGone(s: State, u: State, f: nat, recvLen: int, res: FdResult, sent: seq<Packet>, rd: Readings)
    requires FdDone(s, u, f, recvLen, res, sent, rd)
    ensures res.Gone? <==> f !in s.t.fds.live
    ensures res.Gone? ==> u == s
  {
  }

  /** The `for` loop of `server_event_loop`. */
  method OnEvents(m: ConnManager, events: seq<LoopEvent>, givens: seq<Given>, hbMode: nat, dummySocket: bool)
    returns (handled: nat, ghost path: seq<Loop>, ghost dones: seq<Done>)
    requires m.Valid() && Sound(LoopOf(m)) && |givens| == |events| && forall e <- events :: HasId(e)
    modifies m, m.fds, m.clock, m.repr
    ensures m.Valid() && old(m.repr) <= m.repr && fresh(m.repr - old(m.repr))
    ensures Round(path, events, dones, handled, hbMode, dummySocket)
    ensures path[0] == old(LoopOf(m)) && path[handled] == LoopOf(m)
  {
    hide Inv, ConnManager.Valid, ConnManager.Objects, Sound, Happens, FdManager.FdManager.View, HasId;
    handled, path, dones := 0, [LoopOf(m)], [];
    while handled < |events|
      invariant m.Valid() && old(m.repr) <= m.repr && fresh(m.repr - old(m.repr))
      invariant Walk(path, events, dones, handled, hbMode, dummySocket)
      invariant path[0] == old(LoopOf(m)) && path[handled] == LoopOf(m)
    {
      assert events[handled] in events;
      var go;
      ghost var d;
      go, d := OnEvent(m, events[handled], givens[handled], hbMode, dummySocket);
      if !go { return; }
      path, dones := path + [LoopOf(m)], dones + [d];
      handled := handled + 1;
    }
  }

  /** One turn of the loop. */
  method OnEvent(m: ConnManager, e: LoopEvent, g: Given, hbMode: nat, dummySocket: bool) returns (go: bool, ghost d: Done)
    requires m.Valid() && Sound(LoopOf(m)) && HasId(e)
    modifies m, m.fds, m.clock, m.repr
    ensures m.Valid() && old(m.repr) <= m.repr && fresh(m.repr - old(m.repr)) && Sound(LoopOf(m))
    ensures go <==> !(e.Number? && e.f !in old(m.View()).fds.live)
    ensures if go then Inv(old(m.View())) && Happens(old(LoopOf(m)), LoopOf(m), e, d, hbMode, dummySocket)
            else LoopOf(m) == old(LoopOf(m))
  {
    hide Inv, ConnManager.Valid, ConnManager.Objects, Received, FdDone, CleanDone, ListFits, NonZeroIds,
         FdManager.FdManager.View;
    go, d := true, Skipped;
    match e
    case GlobalTimer => d := OnGlobalTimer(m, g);
    case Raw(p) => d := OnPacket(m, p, hbMode, dummySocket, g);
    case Fifo =>
    case Number(f) => go, d := OnNumber(m, f, g);
  }

  // ----- what closes a number -----

  /** A conversation without activity for three minutes, among the last ones a pass may look at. */
  predicate DueForEviction(list: seq<L.Entry>, i: nat, now: nat)
    requires i < |list|
  {
    now >= list[i].ts + 180000 && i + |list| / 30 + 1 >= |list|
  }

  /** The event closes the live number `f`: the global timer erases the connection whose timer it is, or the timer of
  its connection evicts its conversation. */
  ghost predicate Closes(x: Loop, e: LoopEvent, d: Done, f: nat)
    requires Inv(x.s.t)
  {
    var t := x.s.t;
    && f in t.fds.live && f in t.fds.info && t.fds.info[f] in t.recs
    && var c, r := t.fds.info[f], t.recs[t.fds.info[f]];
      match e
      case GlobalTimer =>
        d.Cleaned? && d.asked > x.lastClear + CONN_CLEAR_INTERVAL && f == r.timer && r.peer in NextUp(t) && DueForErase(r, d.now)
      case Number(g) =>
        && d.Ran? && g == r.timer && c in x.s.ins && ConvManager.ClearDue(x.s.ins[c].lastClear, d.rd.asked)
        && Evicts(r.convs, x.s.ins[c].list, d.rd.cleared, f)
      case _ => false
  }

  ghost predicate Evicts(convs: map<nat, nat>, list: seq<L.Entry>, now: nat, f: nat) {
    exists i :: 0 <= i < |list| && DueForEviction(list, i, now) && list[i].key in convs && convs[list[i].key] == f
  }

  /** Numbers once issued stay issued, and none of them opens again. */
  ghost predicate Remains(t: Table, u: Table, f: nat) {
    f in t.fds.issued ==> f in u.fds.issued && (f in u.fds.live <==> f in t.fds.live)
  }

  lemma {:induction false} BatchRemains(t: Table, c: ConnInfo, msgs: seq<Message>, hbMode: nat, fds: seq<int>,
          picks: seq<Pick>, f: nat)
    requires c in t.recs && |msgs| == |fds| == |picks| && PicksFit(t, c, msgs, hbMode, fds, picks)
    ensures Remains(t, Batch(t, c, msgs, hbMode, fds, picks), f)
    decreases |msgs|
  {
    var n := |msgs| - 1;
    if n >= 0 {
      BatchRemains(t, c, msgs[..n], hbMode, fds[..n], picks[..n], f);
    }
  }

  lemma ShakenRemains(t: Table, c: ConnInfo, h: Shake, g: nat, fd: int, f: nat)
    requires Inv(t) && c in t.recs && t.recs[c].state == Handshake1 && Unissued(t, g)
    ensures Remains(t, Shaken(t, c, h, g, fd), f)
  {
    hide Inv;
    if Confirms(t, c, h) { IdSetKeeps(t, c, h.first); }
  }

  lemma ReceivedRemains(s: State, u: State, p: RawPacket, hbMode: nat, dummySocket: bool, g: Given,
                        reply: Reply, sent: seq<Packet>, out: seq<Packet>, tr: Trace, f: nat)
    requires Inv(s.t) && Received(s, u, p, hbMode, dummySocket, g, reply, sent, out, tr)
    ensures Remains(s.t, u.t, f)
  {
    hide Inv, Shaken, ShakenInside, Batch, BatchInside, PicksFit, AfterBatch, Parsed;
    if !p.syn && p.addr in s.t.mp {
      AddressedByPeer(s.t, p.addr);
      var c := s.t.mp[p.addr];
      if s.t.recs[c].state == Handshake1 && p.bare != [] {
        ShakenRemains(Tick(s.t, u.t.now), c, p.bare[0], tr.f, g.timerFd, f);
      } else if s.t.recs[c].state == Ready {
        BatchRemains(Tick(s.t, tr.at), c, MessagesOf(out), hbMode, g.fds[..|out|], tr.picks, f);
      }
    }
  }

  /** What the global timer closes, entry by entry. */
  lemma CleanCloses(x: Loop, y: Loop, asked: nat, now: nat, f: nat)
    requires Inv(x.s.t) && CleanDone(x, y, asked, now) && asked > x.lastClear + CONN_CLEAR_INTERVAL && f in x.s.t.fds.issued
    ensures f in y.s.t.fds.issued
    ensures f in y.s.t.fds.live <==> f in x.s.t.fds.live && !Closes(x, GlobalTimer, Cleaned(asked, now), f)
  {
    hide Inv, Sweep, LeftInside, Expired, Victims, HeldBy, Swept, Rot, DueForErase, Closes;
    var t := Tick(x.s.t, now);
    OrderSize(t);
    OrderSize(x.s.t);
    Ordered(t);
    RotStays(x.s.t, now);
    var n := Quota(|t.mp|);
    SweepErasesTheTimedOut(t, n);
    var seen := Rot(t)[..n];
    assert forall a <- seen :: a in Rot(t);
    SweptFds(t, y.s.t, seen);
    if f in t.fds.live {
      HeldMeans(t, seen, f);
      ClosesMeans(x, asked, now, f);
    } else {
      assert !Closes(x, GlobalTimer, Cleaned(asked, now), f) by { NotLive(x, GlobalTimer, Cleaned(asked, now), f); }
    }
  }

  lemma NotLive(x: Loop, e: LoopEvent, d: Done, f: nat)
    requires Inv(x.s.t) && f !in x.s.t.fds.live
    ensures !Closes(x, e, d, f)
  {
  }

  lemma ClosesMeans(x: Loop, asked: nat, now: nat, f: nat)
    requires Inv(x.s.t) && f in x.s.t.fds.live && asked > x.lastClear + CONN_CLEAR_INTERVAL
    ensures FdOk(x.s.t, f)
    ensures var r := x.s.t.recs[x.s.t.fds.info[f]];
            Closes(x, GlobalTimer, Cleaned(asked, now), f) <==> f == r.timer && r.peer in NextUp(x.s.t) && DueForErase(r, now)
  {
    hide Inv, NextUp, DueForErase;
    FdOwner(x.s.t, f);
  }

  lemma SweptFds(t: Table, u: Table, seen: seq<Address>)
    requires (forall a <- seen :: a in t.mp && t.mp[a] in t.recs) && Swept(t, u, seen)
    ensures forall f :: f in u.fds.live <==> f in t.fds.live && f !in HeldBy(t, Victims(t, seen))
    ensures u.fds.issued == t.fds.issued
  {
  }

  /** Among the victims only a timer is held, and by the connection it belongs to. */
  lemma HeldMeans(t: Table, seen: seq<Address>, f: nat)
    requires Inv(t) && (forall a <- seen :: a in t.mp && t.mp[a] in t.recs) && f in t.fds.live
    ensures FdOk(t, f)
    ensures var r := t.recs[t.fds.info[f]];
            f in HeldBy(t, Victims(t, seen)) <==> f == r.timer && r.peer in seen && DueForErase(r, t.now)
  {
    hide Inv, Expired, DueForErase, Victims;
    FdOwner(t, f);
    var c := t.fds.info[f];
    var r := t.recs[c];
    PeerInMp(t, c);
    if f in HeldBy(t, Victims(t, seen)) {
      var a :| a in Victims(t, seen) && f in Holdings(t.recs[t.mp[a]]);
      VictimsTimedOut(t, seen, a);
      OwnerHolds(t, t.mp[a], f);
      AddressedByPeer(t, a);
      DueMeans(r, t.now);
    }
    if f == r.timer && r.peer in seen && DueForErase(r, t.now) {
      DueExpires(t, r.peer);
      VictimIs(t, seen, r.peer);
      assert f in Holdings(r);
    }
  }

  lemma OwnerHolds(t: Table, c: ConnInfo, f: nat)
    requires Inv(t) && c in t.recs && f in Holdings(t.recs[c])
    ensures f in t.fds.info && t.fds.info[f] == c
  {
    hide Index, Fds, OrderOk, Sizes, InjectiveMp;
    ConnAt(t, c);
    HoldsWhatItOwns(t, c, f);
  }

  // ----- a connection's timer -----

  /** Of an ordered list without repetitions a pass drops exactly the entries that are due. */
  lemma PassDrops(list: seq<L.Entry>, now: nat, i: nat)
    requires L.NewestFirst(list) && L.DistinctKeys(list) && i < |list|
    ensures list[i].key in L.Keys(ConvManager.Pass(list, now)) <==> !DueForEviction(list, i, now)
  {
    ConvManager.ExpiredAtMostAll(list, now);
    ConvManager.ExpiredAreLast(list, now, i);
    var kept := ConvManager.Pass(list, now);
    hide L.Keys, ConvManager.Expired;
    if i < |kept| {
      assert kept[i] == list[i];
      L.KeyOfEach(kept, i);
    } else if list[i].key in L.Keys(kept) {
      var j := L.KeyAt(kept, list[i].key);
      assert false;
    }
  }

  lemma ValueOf(m: map<nat, nat>, k: nat, f: nat)
    ensures k in m && m[k] == f ==> f in m.Values
  {
  }

  /** Exactly the descriptors of conversations that are due leave a connection at a due cleanup. */
  lemma ListedCloses(convs: map<nat, nat>, list: seq<L.Entry>, now: nat, f: nat)
    requires L.NewestFirst(list) && L.DistinctKeys(list) && L.Keys(list) == convs.Keys && Injective(convs)
    ensures f in convs.Values && f !in Listed(convs, ConvManager.Pass(list, now)).Values <==> Evicts(convs, list, now, f)
  {
    hide L.NewestFirst, L.DistinctKeys, L.Keys, ConvManager.Pass, DueForEviction;
    var kept := ConvManager.Pass(list, now);
    var left := Listed(convs, kept);
    if f in convs.Values {
      var k :| k in convs && convs[k] == f;
      var i := L.KeyAt(list, k);
      PassDrops(list, now, i);
      if f in left.Values {
        var l :| l in left && left[l] == f;
        assert convs[l] == f && l == k;
        forall j | 0 <= j < |list| && DueForEviction(list, j, now) && list[j].key in convs ensures convs[list[j].key] != f {
          PassDrops(list, now, j);
        }
      } else {
        ValueOf(left, k, f);
        assert k !in left;
      }
    }
  }

  lemma ReadyHolds(t: Table, c: ConnInfo)
    requires Inv(t) && c in t.recs && t.recs[c].state == Ready
    ensures Injective(t.recs[c].convs) && Owns(t, c, t.recs[c].timer) && t.recs[c].timer !in t.recs[c].convs.Values
    ensures forall g :: g in t.recs[c].convs.Values ==> Owns(t, c, g)
  {
    hide Index, Fds, OrderOk, Sizes, InjectiveMp;
    ConnAt(t, c);
    OwnsValues(t, c);
  }

  lemma ClosesTimer(x: Loop, g: nat, c: ConnInfo, done: Done, f: nat)
    requires Inv(x.s.t) && done.Ran? && c in x.s.t.recs && x.s.t.recs[c].state == Ready && g == x.s.t.recs[c].timer && c in x.s.ins
    requires f in x.s.t.fds.live
    ensures FdOk(x.s.t, f)
    ensures Closes(x, Number(g), done, f) <==>
              && x.s.t.fds.info[f] == c && ConvManager.ClearDue(x.s.ins[c].lastClear, done.rd.asked)
              && Evicts(x.s.t.recs[c].convs, x.s.ins[c].list, done.rd.cleared, f)
  {
    hide Inv, Evicts, Injective, ConvManager.ClearDue;
    FdOwner(x.s.t, f);
    ReadyHolds(x.s.t, c);
    ReadyHolds(x.s.t, x.s.t.fds.info[f]);
  }

  /** What a connection's timer closes. */
  lemma TimerCloses(x: Loop, y: Loop, g: nat, c: ConnInfo, recvLen: int, sent: seq<Packet>, rd: Readings, f: nat)
    requires Sound(x) && FdDone(x.s, y.s, g, recvLen, TimerRan(c), sent, rd) && f in x.s.t.fds.issued
    ensures f in y.s.t.fds.issued
    ensures f in y.s.t.fds.live <==> f in x.s.t.fds.live && !Closes(x, Number(g), Ran(recvLen, TimerRan(c), sent, rd), f)
  {
    hide Inv, NonZeroIds, Evicts, Injective, ConvManager.Pass, ConvManager.ClearDue, Closes;
    var t := x.s.t;
    var r, l, m := t.recs[c], x.s.ins[c], y.s.ins[c];
    ReadyHolds(t, c);
    var gone := r.convs.Values - Listed(r.convs, m.list).Values;
    assert y.s.t.fds == FdManager.Closed(t.fds, gone);
    assert ListFits(l, r);
    if ConvManager.ClearDue(l.lastClear, rd.asked) { ListedCloses(r.convs, l.list, rd.cleared, f); } else { AllListed(r.convs, l.list); }
    if f in t.fds.live {
      ClosesTimer(x, g, c, Ran(recvLen, TimerRan(c), sent, rd), f);
    } else {
      NotLive(x, Number(g), Ran(recvLen, TimerRan(c), sent, rd), f);
    }
  }

  lemma AllListed(convs: map<nat, nat>, list: seq<L.Entry>)
    requires L.Keys(list) == convs.Keys
    ensures Listed(convs, list) == convs
  {
  }

  lemma FromConvCloses(x: Loop, y: Loop, g: nat, d: Done, f: nat)
    requires Inv(x.s.t) && d.Ran? && d.res.FromConv? && FdDone(x.s, y.s, g, d.recvLen, d.res, d.sent, d.rd)
    ensures y.s.t == x.s.t && !Closes(x, Number(g), d, f)
  {
    hide Inv, Evicts;
    var c := d.res.c;
    if f in x.s.t.fds.live {
      FdOwner(x.s.t, f);
      ReadyHolds(x.s.t, x.s.t.fds.info[f]);
    }
  }

  lemma CleanRests(x: Loop, y: Loop, d: Done, f: nat)
    requires Inv(x.s.t) && d.Cleaned? && CleanDone(x, y, d.asked, d.now) && d.asked <= x.lastClear + CONN_CLEAR_INTERVAL
    ensures y.s.t.fds == x.s.t.fds && !Closes(x, GlobalTimer, d, f)
  {
    hide Inv;
  }

  /** An event closes exactly the numbers it is said to close, and no closed number opens again. */
  lemma EventCloses(x: Loop, y: Loop, e: LoopEvent, d: Done, hbMode: nat, dummySocket: bool, f: nat)
    requires Sound(x) && Happens(x, y, e, d, hbMode, dummySocket) && f in x.s.t.fds.issued
    ensures f in y.s.t.fds.issued
    ensures f in y.s.t.fds.live <==> f in x.s.t.fds.live && !Closes(x, e, d, f)
  {
    hide Inv, NonZeroIds, Closes, CleanDone, Received, FdDone, ListFits;
    match e
    case GlobalTimer =>
      if d.asked > x.lastClear + CONN_CLEAR_INTERVAL { CleanCloses(x, y, d.asked, d.now, f); } else { CleanRests(x, y, d, f); }
    case Raw(p) =>
      ReceivedRemains(x.s, y.s, p, hbMode, dummySocket, d.g, d.reply, d.sent, d.out, d.tr, f);
      ClosesNothing(x, e, d, f);
    case Fifo => ClosesNothing(x, e, d, f);
    case Number(g) =>
      if d.res.TimerRan? { TimerCloses(x, y, g, d.res.c, d.recvLen, d.sent, d.rd, f); } else { FromConvCloses(x, y, g, d, f); }
  }

  lemma ClosesNothing(x: Loop, e: LoopEvent, d: Done, f: nat)
    requires Inv(x.s.t) && (e.Raw? || e.Fifo?)
    ensures !Closes(x, e, d, f)
  {
  }

  // ----- which batches are handled to the end -----

  /** One of the first events closes `f`. */
  ghost predicate ClosedBefore(path: seq<Loop>, events: seq<LoopEvent>, dones: seq<Done>, n: nat, f: nat)
    requires n <= |dones| && n <= |events| && n <= |path| && forall i :: 0 <= i < n ==> Inv(path[i].s.t)
  {
    exists i :: 0 <= i < n && Closes(path[i], events[i], dones[i], f)
  }

  lemma ClosedNext(path: seq<Loop>, events: seq<LoopEvent>, dones: seq<Done>, n: nat, f: nat)
    requires n < |dones| && n < |events| && n < |path| && forall i :: 0 <= i <= n ==> Inv(path[i].s.t)
    ensures ClosedBefore(path, events, dones, n + 1, f) <==>
              ClosedBefore(path, events, dones, n, f) || Closes(path[n], events[n], dones[n], f)
  {
    hide Inv, Closes;
  }

  lemma WalkAt(path: seq<Loop>, events: seq<LoopEvent>, dones: seq<Done>, handled: nat, hbMode: nat, dummySocket: bool, n: nat)
    requires Walk(path, events, dones, handled, hbMode, dummySocket) && n <= handled
    ensures |path| == handled + 1 && |dones| == handled <= |events| && (forall i :: 0 <= i < |path| ==> Inv(path[i].s.t))
    ensures Sound(path[n]) && (n < handled ==> Happens(path[n], path[n + 1], events[n], dones[n], hbMode, dummySocket))
  {
    hide Sound, Happens, Inv;
    forall i | 0 <= i < |path| ensures Inv(path[i].s.t) { SoundInv(path[i]); }
  }

  lemma {:induction false} LiveUntilClosed(path: seq<Loop>, events: seq<LoopEvent>, dones: seq<Done>, handled: nat,
                                           hbMode: nat, dummySocket: bool, n: nat, f: nat)
    requires Walk(path, events, dones, handled, hbMode, dummySocket) && n <= handled && f in path[0].s.t.fds.live
    ensures f in path[n].s.t.fds.issued && forall i :: 0 <= i < |path| ==> Inv(path[i].s.t)
    ensures f in path[n].s.t.fds.live <==> !ClosedBefore(path, events, dones, n, f)
    decreases n
  {
    hide Sound, Happens, Closes, Walk, Inv, ClosedBefore;
    WalkAt(path, events, dones, handled, hbMode, dummySocket, 0);
    if n == 0 {
      LiveIsIssued(path[0].s.t, f);
      NoneBefore(path, events, dones, f);
    } else {
      LiveUntilClosed(path, events, dones, handled, hbMode, dummySocket, n - 1, f);
      WalkAt(path, events, dones, handled, hbMode, dummySocket, n - 1);
      EventCloses(path[n - 1], path[n], events[n - 1], dones[n - 1], hbMode, dummySocket, f);
      ClosedNext(path, events, dones, n - 1, f);
    }
  }

  lemma NoneBefore(path: seq<Loop>, events: seq<LoopEvent>, dones: seq<Done>, f: nat)
    ensures !ClosedBefore(path, events, dones, 0, f)
  {
  }

  lemma SoundInv(x: Loop)
    requires Sound(x)
    ensures Inv(x.s.t)
  {
  }

  lemma LiveIsIssued(t: Table, f: nat)
    requires Inv(t) && f in t.fds.live
    ensures f in t.fds.issued
  {
  }

  lemma HandledIsLive(x: Loop, y: Loop, e: LoopEvent, d: Done, hbMode: nat, dummySocket: bool)
    requires Inv(x.s.t) && e.Number? && Happens(x, y, e, d, hbMode, dummySocket)
    ensures e.f in x.s.t.fds.live
  {
  }

  /** The loop handles the whole batch if and only if no event's number is closed by an earlier event of the batch;
  otherwise it ends at the first such event.  `epoll_wait` reports open descriptors only. */
  lemma RoundIsHandled(path: seq<Loop>, events: seq<LoopEvent>, dones: seq<Done>, handled: nat, hbMode: nat, dummySocket: bool)
    requires Round(path, events, dones, handled, hbMode, dummySocket)
    requires forall e <- events :: e.Number? ==> e.f in path[0].s.t.fds.live
    ensures forall i :: 0 <= i < |path| ==> Inv(path[i].s.t)
    ensures handled == |events| <==>
              forall j :: 0 <= j < |events| && j <= handled && events[j].Number? ==> !ClosedBefore(path, events, dones, j, events[j].f)
    ensures handled < |events| ==> events[handled].Number? && ClosedBefore(path, events, dones, handled, events[handled].f)
  {
    hide Sound, Happens, ClosedBefore;
    forall i | 0 <= i < |path| ensures Inv(path[i].s.t) { SoundInv(path[i]); }
    forall j | 0 <= j < handled && events[j].Number? ensures !ClosedBefore(path, events, dones, j, events[j].f) {
      assert events[j] in events;
      LiveUntilClosed(path, events, dones, handled, hbMode, dummySocket, j, events[j].f);
      HandledIsLive(path[j], path[j + 1], events[j], dones[j], hbMode, dummySocket);
    }
    if handled < |events| {
      assert events[handled] in events;
      LiveUntilClosed(path, events, dones, handled, hbMode, dummySocket, handled, events[handled].f);
    }
  }

  // ----- two batches that are not handled to the end -----

  /** The global timer, then a number: the server ends exactly when that connection is due for erase. */
  lemma CleanupThenNumber(path: seq<Loop>, f: nat, dones: seq<Done>, handled: nat, hbMode: nat, dummySocket: bool)
    requires Round(path, [GlobalTimer, Number(f)], dones, handled, hbMode, dummySocket) && f in path[0].s.t.fds.live
    ensures 1 <= handled && Inv(path[0].s.t) && FdOk(path[0].s.t, f) && dones[0].Cleaned?
    ensures var t, d := path[0].s.t, dones[0]; var r := t.recs[t.fds.info[f]];
            handled == 1 <==> d.asked > path[0].lastClear + CONN_CLEAR_INTERVAL && f == r.timer && r.peer in NextUp(t) && DueForErase(r, d.now)
  {
    hide Inv, Sound, CleanDone, NextUp, DueForErase, Closes;
    var events := [GlobalTimer, Number(f)];
    RoundIsHandled(path, events, dones, handled, hbMode, dummySocket);
    assert events[0] == GlobalTimer;
    assert handled > 0;
    assert Happens(path[0], path[0 + 1], events[0], dones[0], hbMode, dummySocket);
    FdOwner(path[0].s.t, f);
    assert events[1] == Number(f);
    FirstOnly(path, events, dones, f);
    if dones[0].asked > path[0].lastClear + CONN_CLEAR_INTERVAL { ClosesMeans(path[0], dones[0].asked, dones[0].now, f); }
    else { CleanRests(path[0], path[1], dones[0], f); }
  }

  lemma FirstOnly(path: seq<Loop>, events: seq<LoopEvent>, dones: seq<Done>, f: nat)
    requires 1 <= |dones| && 1 <= |events| && 1 <= |path| && Inv(path[0].s.t)
    ensures ClosedBefore(path, events, dones, 1, f) <==> Closes(path[0], events[0], dones[0], f)
  {
    hide Inv, Closes;
  }

  /** A connection's timer, then a number of the same connection: the server ends exactly when the timer evicts the
  conversation. */
  lemma TimerThenNumber(path: seq<Loop>, g: nat, f: nat, dones: seq<Done>, handled: nat, hbMode: nat, dummySocket: bool)
    requires Round(path, [Number(g), Number(f)], dones, handled, hbMode, dummySocket)
    requires f in path[0].s.t.fds.live && g in path[0].s.t.fds.live
    ensures 1 <= handled && Inv(path[0].s.t) && FdOk(path[0].s.t, f) && FdOk(path[0].s.t, g) && dones[0].Ran?
    ensures var t, x, d := path[0].s.t, path[0].s.ins, dones[0]; var c := t.fds.info[g];
            handled == 1 <==>
              && g == t.recs[c].timer && t.fds.info[f] == c && c in x && ConvManager.ClearDue(x[c].lastClear, d.rd.asked)
              && Evicts(t.recs[c].convs, x[c].list, d.rd.cleared, f)
  {
    hide Inv, Sound, Closes, TimerDone, ConvDone, Evicts;
    var events := [Number(g), Number(f)];
    RoundIsHandled(path, events, dones, handled, hbMode, dummySocket);
    FdOwner(path[0].s.t, f);
    FdOwner(path[0].s.t, g);
    assert events[0] == Number(g);
    assert handled > 0;
    assert Happens(path[0], path[0 + 1], events[0], dones[0], hbMode, dummySocket);
    assert events[1] == Number(f);
    FirstOnly(path, events, dones, f);
    if dones[0].res.TimerRan? {
      RanInside(path[0].s, path[1].s, dones[0].res.c, dones[0].sent, dones[0].rd);
      ClosesTimer(path[0], g, dones[0].res.c, dones[0], f);
    } else {
      FromConvCloses(path[0], path[1], g, dones[0], f);
    }
  }

  lemma RanInside(s: State, u: State, c: ConnInfo, sent: seq<Packet>, rd: Readings)
    requires c in s.t.recs && TimerDone(s, u, c, sent, rd)
    ensures c in s.ins
  {
  }

  // ----- a reachable one -----

  /** Its global timer and its connection's timer are reported together. */
  const BATCH: seq<LoopEvent> := [GlobalTimer, Number(TIMER)]

  ghost function StaleLoop(c: ConnInfo): Loop {
    Loop(State(StaleTable(c, 7), map[c := Inside(AntiReplay.Fresh(false), 1, Rollers(0, 0, 0), 0, [], 0)]), 0)
  }

  /** However the clock goes on, the server ends in the middle of this batch. */
  lemma ServerEnds(c: ConnInfo, path: seq<Loop>, dones: seq<Done>, handled: nat, hbMode: nat, dummySocket: bool)
    requires Round(path, BATCH, dones, handled, hbMode, dummySocket) && path[0] == StaleLoop(c)
    ensures handled == 1
  {
    hide Round, NextUp, DueForErase;
    StaleNext(c, 7);
    FirstIsRead(path, dones, handled, hbMode, dummySocket);
    CleanupThenNumber(path, TIMER, dones, handled, hbMode, dummySocket);
  }

  lemma FirstIsRead(path: seq<Loop>, dones: seq<Done>, handled: nat, hbMode: nat, dummySocket: bool)
    requires Round(path, BATCH, dones, handled, hbMode, dummySocket)
    ensures |path| == handled + 1 && Inv(path[0].s.t)
    ensures handled >= 1 ==> |dones| >= 1 && dones[0].Cleaned? && path[0].s.t.now <= dones[0].asked <= dones[0].now
  {
    hide Inv, Sound;
    SoundInv(path[0]);
    if handled >= 1 { assert Happens(path[0], path[0 + 1], BATCH[0], dones[0], hbMode, dummySocket); }
  }

  lemma StaleSweep(c: ConnInfo)
    ensures var t := StaleTable(c, 7);
            Inv(t) && Quota(|t.mp|) == 1 && Inv(Sweep(t, 1)) && Sweep(t, 1).recs == map[] && Sweep(t, 1).now == 300000
    ensures NonZeroIds(Sweep(StaleTable(c, 7), 1)) && TIMER !in Sweep(StaleTable(c, 7), 1).fds.live
  {
    hide Inv, Sweep, NonZeroIds, Swept, Victims;
    StaleNext(c, 7);
    var t := StaleTable(c, 7);
    assert |t.mp| == 1;
    OrderSize(t);
    Ordered(t);
    NonZeroStale(c, 7);
    SweepErasesTheTimedOut(t, 1);
    var u := Sweep(t, 1);
    var seen := Rot(t)[..1];
    DueExpires(t, PEER);
    VictimIs(t, seen, PEER);
    SweptMp(t, u, seen);
    assert PEER !in u.mp && u.mp.Keys <= {PEER};
    NoneLeft(u);
    SweptFds(t, u, seen);
    HeldMeans(t, seen, TIMER);
  }

  lemma NoneLeft(u: Table)
    requires Inv(u) && u.mp.Keys == {}
    ensures u.recs == map[]
  {
    hide Conns, Index, Fds, Sizes, OrderOk, InjectiveMp;
    assert u.mp == map[];
    assert u.recs.Keys == {};
  }

  ghost function EndLoop(c: ConnInfo): Loop
    requires Inv(StaleTable(c, 7))
  {
    Loop(State(Sweep(StaleTable(c, 7), 1), map[]), 300000)
  }

  lemma StaleSound(c: ConnInfo)
    ensures Sound(StaleLoop(c)) && Inv(StaleTable(c, 7)) && Sound(EndLoop(c))
  {
    hide Inv, Sweep, NonZeroIds;
    StaleIsReachable(c, 7);
    NonZeroStale(c, 7);
    StaleSweep(c);
    assert L.Keys(StaleLoop(c).s.ins[c].list) == {};
  }

  lemma StaleCleaned(c: ConnInfo)
    ensures Inv(StaleTable(c, 7)) && CleanDone(StaleLoop(c), EndLoop(c), 300000, 300000)
    ensures TIMER !in EndLoop(c).s.t.fds.live
  {
    hide Inv, Sweep, NonZeroIds;
    StaleSweep(c);
    assert Tick(StaleTable(c, 7), 300000) == StaleTable(c, 7);
  }

  lemma RoundOfOne(x: Loop, y: Loop, e: LoopEvent, f: nat, d: Done, hbMode: nat, dummySocket: bool)
    requires Sound(x) && Sound(y) && Inv(x.s.t) && Happens(x, y, e, d, hbMode, dummySocket) && f !in y.s.t.fds.live
    ensures Round([x, y], [e, Number(f)], [d], 1, hbMode, dummySocket)
  {
    hide Inv, Sound, Happens;
  }

  /** And it does happen: the events of such a round. */
  lemma ServerCanEnd(c: ConnInfo) returns (path: seq<Loop>, dones: seq<Done>)
    ensures path != [] && path[0] == StaleLoop(c) && Round(path, BATCH, dones, 1, 0, false)
  {
    hide Inv, Sound, CleanDone, StaleLoop, Round, EndLoop, StaleTable;
    StaleSound(c);
    StaleCleaned(c);
    SoundInv(StaleLoop(c));
    path, dones := [StaleLoop(c), EndLoop(c)], [Cleaned(300000, 300000)];
    RoundOfOne(path[0], path[1], GlobalTimer, TIMER, dones[0], 0, false);
    assert BATCH == [GlobalTimer, Number(TIMER)];
  }
}
