/** The server's connection manager as the code keeps it (`conn_manager_t` and the handlers of
server.cpp): objects on the heap, changed in place.  Each method makes one step of the table. */
module Server {
  import opened Connection
  import opened ServerTable
  import opened ServerSteps
  import opened ServerSweep
  import AntiReplay
  import Clock
  import ConvManager
  import FdManager
  import L = Lru
  import opened Packets

  ghost function RecOf(c: ConnInfo): Rec
    reads c, if c.blob == null then {} else {c.blob.convs}
  {
    Rec(c.state, c.peer, c.lastStateTime, c.lastHbRecvTime, c.myId, c.oppositeId, c.oppositeConstId, c.timerFd64,
        c.blob != null, if c.blob == null then map[] else c.blob.convs.convToData)
  }

  /** What a ready connection keeps besides its record: the window's filter, the next send number, the rollers,
  the time of the last heartbeat, and the conversations by activity with the time of their last cleanup. */
  datatype Inside = Inside(filter: AntiReplay.Filter, sendSeq: nat, rollers: Rollers, hbSent: nat, list: seq<L.Entry>, lastClear: int)

  ghost function InsideOf(c: ConnInfo): Inside
    requires c.blob != null
    reads c, if c.blob == null then {} else {c.blob.convs as object, c.blob.convs.lru, c.blob.antiReplay}
  {
    Inside(c.blob.antiReplay.filter, c.blob.antiReplay.antiReplaySeq, c.Rolls(), c.lastHbSentTime,
           c.blob.convs.lru.Contents(), c.blob.convs.lastClearTime)
  }

  /** A window that was just reset, whatever mark its slot 0 holds. */
  predicate IsFresh(f: AntiReplay.Filter) {
    f == AntiReplay.Fresh(false) || f == AntiReplay.Fresh(true)
  }

  /** The inside of a connection that just became ready. */
  predicate NewInside(x: Inside, firstSeq: nat, now: nat) {
    IsFresh(x.filter) && x.sendSeq == firstSeq && x.rollers == Rollers(0, 0, 0) && x.hbSent == now && x.list == []
  }

  /** After a batch: the window has spent its numbers, the rollers show the deliveries. */
  function AfterBatch(x: Inside, r: Rec, batch: seq<Packet>, out: seq<Packet>, hbMode: nat, nows: seq<nat>): Inside
    requires |nows| == |out| && forall p <- out :: p.Safer?
  {
    x.(filter := Parsed(x.filter, r.myId, r.oppositeId, batch).0, rollers := RollAll(x.rollers, out, hbMode, nows))
  }

  /** A conversation was active. */
  function Touched(x: Inside, conv: nat, now: nat): Inside {
    x.(list := [L.Entry(conv, now)] + L.Without(x.list, conv))
  }

  function Started(x: Inside, conv: nat, now: nat): Inside {
    x.(list := [L.Entry(conv, now)] + x.list)
  }

  /** A cleanup of conversations that asked the time at `asked` and ended at `now`. */
  predicate Cleared(x: Inside, y: Inside, asked: nat, now: nat) {
    if ConvManager.ClearDue(x.lastClear, asked)
    then y == x.(list := ConvManager.Pass(x.list, now), lastClear := y.lastClear) && asked <= y.lastClear <= now
    else y == x
  }

  function Numbered(t: Table, c: ConnInfo, f: nat, fd: int): Table {
    t.(fds := FdManager.Table(t.fds.live[f := fd], t.fds.info[f := c], t.fds.issued + {f}))
  }

  function Indexed(t: Table, c: ConnInfo, k: nat): Table {
    t.(constIdMp := t.constIdMp[k := c], readyNum := t.readyNum + 1)
  }

  /** The object is gone, and with it the descriptors it held. */
  function Released(t: Table, c: ConnInfo): Table
    requires c in t.recs
  {
    t.(recs := t.recs - {c}, fds := FdManager.Closed(t.fds, Holdings(t.recs[c])))
  }

  /** The entries that led to it are gone. */
  function Dropped(t: Table, a: Address, wasReady: bool, constId: nat): Table {
    t.(mp := t.mp - {a}, constIdMp := if wasReady then t.constIdMp - {constId} else t.constIdMp,
       readyNum := if wasReady && t.readyNum > 0 then t.readyNum - 1 else t.readyNum, order := WithoutKey(t.order, a))
  }

  /** Erased connections lose their inside, the others keep it. */
  ghost predicate LeftInside(x: map<ConnInfo, Inside>, y: map<ConnInfo, Inside>, t: Table) {
    y == map c | c in x && c in t.recs :: x[c]
  }

  class ConnManager {
    const fds: FdManager.FdManager<ConnInfo>
    const clock: Clock.Clock
    var mp: map<Address, ConnInfo>
    var constIdMp: map<nat, ConnInfo>
    var readyNum: nat
    var order: seq<Address>       // the iteration order of the hash map `mp`
    var clearIt: Cursor
    var lastClearTime: int
    ghost var recs: map<ConnInfo, Rec>   // the live connection objects
    ghost var insides: map<ConnInfo, Inside>   // of those that have a blob
    ghost var repr: set<object>          // every connection object so far and what it owns

    /** The whole table as a value. */
    ghost function View(): Table
      reads this, fds, clock
    {
      Table(mp, recs, constIdMp, readyNum, fds.View(), order, clearIt, clock.Reading())
    }

    /** The record of a live connection is what its object holds. */
    ghost predicate Mirrored(c: ConnInfo)
      requires c in recs
      reads this`recs, this`insides, this`repr, c, clock
      reads if c.blob == null then {} else {c.blob.convs as object, c.blob.convs.lru, c.blob.antiReplay, c.blob.antiReplay.window}
    {
      && recs[c] == RecOf(c)
      && c in repr
      && (c.blob == null ==> c !in insides && c.Rolls() == Rollers(0, 0, 0))
      && (c.blob != null ==> c in insides && insides[c] == InsideOf(c))
      && (c.blob != null ==>
        && {c.blob.convs as object, c.blob.convs.lru, c.blob.antiReplay, c.blob.antiReplay.window} <= repr
        && c.blob.convs.lru.clock == clock && c.blob.convs.closer == fds && c.blob.convs.Valid()
        && c.blob.antiReplay.Valid())
    }

    /** Connections share nothing but the descriptor table and the clock. */
    ghost predicate Separate()
      reads this`recs, recs.Keys
    {
      forall c, d :: c in recs && d in recs && c != d && c.blob != null && d.blob != null ==>
        && c.blob.convs != d.blob.convs && c.blob.convs.lru != d.blob.convs.lru
        && c.blob.antiReplay != d.blob.antiReplay && c.blob.antiReplay.window != d.blob.antiReplay.window
    }

    ghost function Parts(): set<object>
      reads this`recs, recs.Keys
    {
      (set c | c in recs && c.blob != null :: c.blob.convs as object)
      + (set c | c in recs && c.blob != null :: c.blob.convs.lru as object)
      + (set c | c in recs && c.blob != null :: c.blob.antiReplay as object)
      + (set c | c in recs && c.blob != null :: c.blob.antiReplay.window as object)
    }

    ghost predicate Objects()
      reads this`recs, this`insides, this`repr, recs.Keys, clock, Parts()
    {
      Separate() && insides.Keys <= recs.Keys && forall c :: c in recs ==> Mirrored(c)
    }

    ghost predicate Valid()
      reads this, fds, recs.Keys, clock, Parts()
    {
      fds.Valid() && Objects() && Inv(View())
    }

    constructor (fds: FdManager.FdManager<ConnInfo>, clock: Clock.Clock)
      requires fds.Valid() && fds.fd64ToFd == map[] && fds.info == map[]
      ensures Valid() && this.fds == fds && this.clock == clock && mp == map[]
      ensures NonZeroIds(View()) && insides == map[] && lastClearTime == 0
      ensures View() == Table(map[], map[], map[], 0, fds.View(), [], End, clock.Reading())
    {
      this.fds, this.clock := fds, clock;
      mp, constIdMp, readyNum, order, clearIt, lastClearTime, recs, insides, repr := map[], map[], 0, [], End, 0, map[], map[], {};
    }

    // ----- framing of the objects -----

    /** Nothing happened to what `d` keeps inside. */
    twostate predicate SameInside(new d: ConnInfo)
      reads this`insides
    {
      (d in insides <==> old(d in insides)) && (d in insides ==> insides[d] == old(insides)[d])
    }

    /** An object nobody touched still mirrors its record, however the clock moved on. */
    twostate lemma StillMirrored(d: ConnInfo)
      requires old(d in recs) && d in recs && recs[d] == old(recs[d]) && old(Mirrored(d))
      requires unchanged(d) && SameInside(d)
      requires d.blob != null ==>
                 && unchanged(d.blob.convs) && unchanged(d.blob.convs.lru)
                 && unchanged(d.blob.antiReplay) && unchanged(d.blob.antiReplay.window)
      requires old(clock.Reading()) <= clock.Reading() && old(repr) <= repr
      ensures Mirrored(d)
    {
    }

    /** Nothing but the connections in `s` was worked on. */
    twostate predicate RestUntouched(new s: set<ConnInfo>)
      reads *
    {
      forall d :: d in recs && d !in s ==>
        && old(d in recs) && recs[d] == old(recs[d]) && unchanged(d) && SameInside(d)
        && (d.blob != null ==>
             && unchanged(d.blob.convs) && unchanged(d.blob.convs.lru)
             && unchanged(d.blob.antiReplay) && unchanged(d.blob.antiReplay.window))
    }

    twostate lemma RestOnly(new s: set<ConnInfo>)
      requires forall d :: d in recs && d !in s ==> old(d in recs) && recs[d] == old(recs[d]) && unchanged(d) && SameInside(d)
      requires forall d :: d in recs && d !in s && d.blob != null ==>
                 && unchanged(d.blob.convs) && unchanged(d.blob.convs.lru)
                 && unchanged(d.blob.antiReplay) && unchanged(d.blob.antiReplay.window)
      ensures RestUntouched(s)
    {
    }

    twostate lemma ObjectsKept(new s: set<ConnInfo>)
      requires old(Objects()) && RestUntouched(s)
      requires old(clock.Reading()) <= clock.Reading() && old(repr) <= repr
      requires insides.Keys <= recs.Keys
      requires forall c :: c in s && c in recs ==> Mirrored(c)
      requires forall c :: c in s && c in recs && c.blob != null ==> old(c in recs) && c.blob == old(c.blob)
      ensures Objects()
    {
      hide Mirrored;
      forall d | d in recs ensures Mirrored(d) {
        if d !in s { StillMirrored(d); }
      }
    }

    /** A connection with a brand-new blob is separate from the others. */
    twostate lemma ObjectsWithNewBlob(c: ConnInfo)
      requires old(Objects()) && RestUntouched({c}) && clock.Reading() == old(clock.Reading()) && old(repr) <= repr
      requires c in recs && Mirrored(c) && c.blob != null && insides.Keys <= recs.Keys
      requires fresh(c.blob.convs) && fresh(c.blob.convs.lru) && fresh(c.blob.antiReplay) && fresh(c.blob.antiReplay.window)
      ensures Objects()
    {
      hide Mirrored;
      forall d | d in recs ensures Mirrored(d) {
        if d != c { StillMirrored(d); }
      }
    }

    /** No object was touched at all. */
    twostate lemma StillThere()
      requires old(Objects()) && recs == old(recs) && insides == old(insides)
      requires old(clock.Reading()) <= clock.Reading() && old(repr) <= repr
      requires forall d :: d in recs ==> unchanged(d)
      requires forall d :: d in recs && d.blob != null ==>
                 && unchanged(d.blob.convs) && unchanged(d.blob.convs.lru)
                 && unchanged(d.blob.antiReplay) && unchanged(d.blob.antiReplay.window)
      ensures Objects()
    {
      hide Objects, Mirrored, RestUntouched;
      InsidesLive();
      RestOnly({});
      ObjectsKept({});
    }

    lemma InsidesAreLive()
      requires Objects()
      ensures insides.Keys <= recs.Keys
    {
    }

    twostate lemma InsidesLive()
      requires old(Objects())
      ensures old(insides.Keys) <= old(recs.Keys)
    {
    }

    lemma Unmirror(c: ConnInfo)
      requires c in recs && Objects()
      ensures recs[c] == RecOf(c) && c in repr && insides.Keys <= recs.Keys
      ensures c.blob == null ==> c !in insides && c.Rolls() == Rollers(0, 0, 0)
      ensures c.blob != null ==> c in insides && insides[c] == InsideOf(c)
      ensures c.blob != null ==>
                && {c.blob.convs as object, c.blob.convs.lru, c.blob.antiReplay, c.blob.antiReplay.window} <= repr
                && c.blob.convs.Valid() && c.blob.convs.closer == fds && c.blob.convs.lru.clock == clock
                && c.blob.antiReplay.Valid()
    {
    }

    lemma Mirror(c: ConnInfo)
      requires c in recs && recs[c] == RecOf(c) && c in repr
      requires c.blob == null ==> c !in insides && c.Rolls() == Rollers(0, 0, 0)
      requires c.blob != null ==> c in insides && insides[c] == InsideOf(c)
      requires c.blob != null ==>
                 && {c.blob.convs as object, c.blob.convs.lru, c.blob.antiReplay, c.blob.antiReplay.window} <= repr
                 && c.blob.convs.Valid() && c.blob.convs.closer == fds && c.blob.convs.lru.clock == clock
                 && c.blob.antiReplay.Valid()
      ensures Mirrored(c)
    {
    }

    /** `c` alone was worked on, and its record and inside were renewed. */
    twostate lemma Reflects(c: ConnInfo)
      requires old(Objects()) && old(c in recs) && recs == old(recs)[c := RecOf(c)] && c.blob != null && c.blob == old(c.blob)
      requires insides == old(insides)[c := InsideOf(c)] && repr == old(repr) && old(clock.Reading()) <= clock.Reading()
      requires c.blob.convs.Valid() && c.blob.antiReplay.Valid()
      requires forall d :: d in recs && d != c ==> unchanged(d)
      requires forall d :: d in recs && d != c && d.blob != null ==>
                 && unchanged(d.blob.convs) && unchanged(d.blob.convs.lru)
                 && unchanged(d.blob.antiReplay) && unchanged(d.blob.antiReplay.window)
      ensures Objects()
    {
      hide Objects, Mirrored, RestUntouched, RecOf, InsideOf, ConvManager.ConvManager.Valid, AntiReplay.Window.Valid;
      OldMirror(c);
      Mirror(c);
      RestOnly({c});
      ObjectsKept({c});
    }

    twostate lemma OldMirror(c: ConnInfo)
      requires old(Objects()) && old(c in recs) && old(c.blob) != null && c.blob == old(c.blob)
      ensures old(insides.Keys) <= old(recs.Keys) && old(c in repr && c in insides)
      ensures {c.blob.convs as object, c.blob.convs.lru, c.blob.antiReplay, c.blob.antiReplay.window} <= old(repr)
      ensures c.blob.convs.closer == fds && c.blob.convs.lru.clock == clock
    {
    }

    lemma Apart(c: ConnInfo)
      requires c in recs && Objects() && c.blob != null
      ensures forall d :: d in recs && d != c && d.blob != null ==>
                && c.blob.convs != d.blob.convs && c.blob.convs.lru != d.blob.convs.lru
                && c.blob.antiReplay != d.blob.antiReplay && c.blob.antiReplay.window != d.blob.antiReplay.window
    {
    }

    // ----- what happens to the objects -----

    method NewObject(addr: Address, myId: nat, now: nat) returns (c: ConnInfo)
      requires Objects()
      modifies this`recs, this`repr
      ensures repr == old(repr) + {c}
      ensures Objects() && fresh(c) && c in recs && recs == old(recs)[c := recs[c]]
      ensures var r := recs[c];
              && r.state == Handshake1 && !r.hasBlob && r.constId == 0 && r.timer == 0 && r.convs == map[]
              && r.peer == addr && r.lastStateTime == now && r.myId == myId
      ensures c !in old(recs)
    {
      hide Objects, Mirrored, RestUntouched, InsideOf;
      InsidesLive();
      c := new ConnInfo();
      c.EnterHandshake1(addr, myId, now);
      recs := recs[c := RecOf(c)];
      repr := repr + {c};
      Mirror(c);
      RestOnly({c});
      ObjectsKept({c});
    }

    method RetireObject(c: ConnInfo)
      requires Objects() && c in recs
      modifies c`state, c`oppositeConstId, this`recs
      ensures Objects() && recs == old(recs)[c := old(recs)[c].(state := Idle, constId := 0)]
    {
      hide Objects, Mirrored, RestUntouched;
      Unmirror(c);
      c.GoIdle();
      recs := recs[c := RecOf(c)];
      Mirror(c);
      RestOnly({c});
      ObjectsKept({c});
    }

    method ReadyBlob(c: ConnInfo, constId: nat, f: nat, firstSeq: nat, lastClear: int, now: nat)
      requires Objects() && c in recs && c.blob == null
      modifies c
      ensures c.blob != null && fresh(c.blob.convs) && fresh(c.blob.convs.lru) && fresh(c.blob.antiReplay) && fresh(c.blob.antiReplay.window)
      ensures c.blob.convs.Valid() && c.blob.convs.closer == fds && c.blob.convs.lru.clock == clock && c.blob.antiReplay.Valid()
      ensures NewInside(InsideOf(c), firstSeq, now)
      ensures RecOf(c) == old(recs)[c].(state := Ready, constId := constId, timer := f, hasBlob := true, convs := map[], lastHbRecvTime := now)
    {
      hide Objects, ConvManager.ConvManager.Valid, AntiReplay.Window.Valid, L.Lru.Valid, L.Linked, L.Entries;
      Unmirror(c);
      c.EnterReady(clock, fds, firstSeq, lastClear, constId, now);
      c.timerFd64 := f;
    }

    method ReadyObject(c: ConnInfo, constId: nat, f: nat, firstSeq: nat, lastClear: int, now: nat)
      requires Objects() && c in recs && c.blob == null
      modifies c, this`recs, this`insides, this`repr
      ensures Objects() && old(repr) <= repr && fresh(repr - old(repr)) && c.blob != null
      ensures c in insides && insides == old(insides)[c := insides[c]] && NewInside(insides[c], firstSeq, now)
      ensures recs == old(recs)[c := old(recs)[c].(state := Ready, constId := constId, timer := f,
                                                   hasBlob := true, convs := map[], lastHbRecvTime := now)]
    {
      hide Objects, Mirrored, RestUntouched, ConvManager.ConvManager.Valid, AntiReplay.Window.Valid, L.Lru.Valid,
           L.Linked, L.Entries, NewInside, RecOf, InsideOf;
      Unmirror(c);
      ReadyBlob(c, constId, f, firstSeq, lastClear, now);
      recs := recs[c := RecOf(c)];
      insides := insides[c := InsideOf(c)];
      repr := repr + {c.blob.convs, c.blob.convs.lru, c.blob.antiReplay, c.blob.antiReplay.window};
      Mirror(c);
      RestOnly({c});
      ObjectsWithNewBlob(c);
    }

    /** `fd_manager.create` and `get_info(..).p_conn_info = &conn_info`. */
    method CreateFor(c: ConnInfo, fd: int) returns (f: nat)
      requires fds.Valid() && fd !in fds.fdToFd64
      modifies fds
      ensures fds.Valid() && f !in old(fds.issued) && f > FdManager.U32_MAX
      ensures var t := old(fds.View());
              fds.View() == FdManager.Table(t.live[f := fd], t.info[f := c], t.issued + {f})
      ensures fds.fdToFd64 == old(fds.fdToFd64)[fd := f]
    {
      f := fds.Create(fd);
      fds.SetInfo(f, c);
    }

    method TakeOverBlob(ori: ConnInfo, c: ConnInfo, now: nat)
      requires Objects() && ori in recs && c in recs && ori != c && ori.blob != null
      modifies ori, ori.blob.antiReplay
      ensures ori.blob == old(ori.blob) && ori.blob.antiReplay.Valid() && ori in old(insides) && IsFresh(InsideOf(ori).filter)
      ensures InsideOf(ori) == old(insides)[ori].(filter := InsideOf(ori).filter, rollers := Rollers(0, 0, 0), hbSent := InsideOf(ori).hbSent)
      ensures var ro, rc := old(recs)[ori], old(recs)[c];
              RecOf(ori) == ro.(peer := rc.peer, lastStateTime := rc.lastStateTime, lastHbRecvTime := now,
                                myId := rc.myId, oppositeId := rc.oppositeId)
      ensures forall d :: d in recs && d != ori && d.blob != null ==> unchanged(d.blob.antiReplay)
    {
      hide Objects, ConvManager.ConvManager.Valid, AntiReplay.Window.Valid, L.Lru.Valid, L.Linked, L.Entries;
      Unmirror(ori);
      Unmirror(c);
      Apart(ori);
      ori.TakeOver(c, now);
    }

    method TakeOverObject(ori: ConnInfo, c: ConnInfo, now: nat)
      requires Objects() && ori in recs && c in recs && ori != c && ori.blob != null
      modifies ori, ori.blob.antiReplay, this`recs, this`insides
      ensures Objects() && ori in old(insides) && ori in insides && IsFresh(insides[ori].filter)
      ensures insides == old(insides)[ori := old(insides)[ori].(filter := insides[ori].filter, rollers := Rollers(0, 0, 0),
                                                                hbSent := insides[ori].hbSent)]
      ensures var ro, rc := old(recs)[ori], old(recs)[c];
              recs == old(recs)[ori := ro.(peer := rc.peer, lastStateTime := rc.lastStateTime, lastHbRecvTime := now,
                                           myId := rc.myId, oppositeId := rc.oppositeId)]
      ensures ori.blob == old(ori.blob)
    {
      hide Objects, Mirrored, RestUntouched, ConvManager.ConvManager.Valid, AntiReplay.Window.Valid, L.Lru.Valid,
           L.Linked, L.Entries, IsFresh, RecOf, InsideOf;
      Unmirror(ori);
      TakeOverBlob(ori, c, now);
      recs := recs[ori := RecOf(ori)];
      insides := insides[ori := InsideOf(ori)];
      Reflects(ori);
    }

    method OppositeIdObject(c: ConnInfo, id: nat)
      requires Objects() && c in recs
      modifies c`oppositeId, this`recs
      ensures Objects() && recs == old(recs)[c := old(recs)[c].(oppositeId := id)]
    {
      hide Objects, Mirrored, RestUntouched;
      Unmirror(c);
      c.oppositeId := id;
      recs := recs[c := RecOf(c)];
      Mirror(c);
      RestOnly({c});
      ObjectsKept({c});
    }

    method HeardObject(c: ConnInfo, now: nat)
      requires Objects() && c in recs
      modifies c`lastHbRecvTime, this`recs
      ensures Objects() && recs == old(recs)[c := old(recs)[c].(lastHbRecvTime := now)]
    {
      hide Objects, Mirrored, RestUntouched;
      Unmirror(c);
      c.lastHbRecvTime := now;
      recs := recs[c := RecOf(c)];
      Mirror(c);
      RestOnly({c});
      ObjectsKept({c});
    }

    /** A batch goes through the connection's window, and the rollers show what was delivered. */
    method RecvSaferObject(c: ConnInfo, batch: seq<Packet>, hbMode: nat, raws: seq<nat>) returns (out: seq<Packet>,
            ghost nows: seq<nat>)
      requires Objects() && c in recs && c.blob != null && |raws| == |batch|
      modifies c.blob.antiReplay`maxPacketReceived, c.blob.antiReplay`filter, c.blob.antiReplay.window, clock
      modifies c`myRoller, c`oppositeRoller, c`lastOppositeRollerTime, this`insides
      ensures Objects() && old(clock.Reading()) <= clock.Reading() && |nows| == |out| && c in old(insides)
      ensures (forall p <- out :: p.Safer?) && out == Parsed(old(insides)[c].filter, recs[c].myId, recs[c].oppositeId, batch).1
      ensures insides == old(insides)[c := AfterBatch(old(insides)[c], recs[c], batch, out, hbMode, nows)]
    {
      hide Objects, Mirrored, RestUntouched, ConvManager.ConvManager.Valid, AntiReplay.Window.Valid, Parsed,
           RollAll, L.Lru.Valid, L.Linked;
      Unmirror(c);
      Apart(c);
      out, nows := c.RecvSafer(batch, hbMode, clock, raws);
      insides := insides[c := InsideOf(c)];
      ConvsStay(c);
      Reflects(c);
    }

    /** Conversations do not mind the clock moving on. */
    twostate lemma ConvsStay(c: ConnInfo)
      requires c.blob != null && old(c.blob) == c.blob && old(c.blob.convs.Valid()) && c.blob.convs.lru.clock == clock
      requires unchanged(c.blob.convs) && unchanged(c.blob.convs.lru) && old(clock.Reading()) <= clock.Reading()
      ensures c.blob.convs.Valid()
    {
    }

    /** One packet goes out. */
    method SendObject(c: ConnInfo, msg: Message) returns (p: Packet)
      requires Objects() && c in recs && c.blob != null
      modifies c.blob.antiReplay`antiReplaySeq, this`insides
      ensures Objects() && c in old(insides)
      ensures p == Safer(recs[c].myId, recs[c].oppositeId, old(insides)[c].sendSeq, msg, old(insides)[c].rollers.mine)
      ensures insides == old(insides)[c := old(insides)[c].(sendSeq := old(insides)[c].sendSeq + 1)]
    {
      hide Objects, Mirrored, RestUntouched, ConvManager.ConvManager.Valid, AntiReplay.Window.Valid;
      Unmirror(c);
      Apart(c);
      p := c.SendSafer(msg);
      insides := insides[c := InsideOf(c)];
      Reflects(c);
    }

    /** `last_hb_sent_time = get_current_time()` */
    method HbSentObject(c: ConnInfo, raw: nat)
      requires Objects() && c in recs && c.blob != null
      modifies c`lastHbSentTime, clock, this`insides
      ensures Objects() && c in old(insides) && old(clock.Reading()) <= clock.Reading()
      ensures clock.At() == Clock.Read(old(clock.At()), raw)
      ensures insides == old(insides)[c := old(insides)[c].(hbSent := clock.Reading())]
    {
      hide Clock.Read, Objects, Mirrored, RestUntouched, ConvManager.ConvManager.Valid, AntiReplay.Window.Valid, L.Lru.Valid,
           L.Linked;
      Unmirror(c);
      Apart(c);
      c.lastHbSentTime := clock.CurrentTime(raw);
      insides := insides[c := InsideOf(c)];
      ConvsStay(c);
      Reflects(c);
    }

    /** `update_active_time` of a live conversation. */
    method TouchConvObject(c: ConnInfo, conv: nat, raw: nat)
      requires Objects() && c in recs && c.blob != null && conv in recs[c].convs
      modifies c.blob.convs.lru, clock, this`insides
      ensures Objects() && recs == old(recs) && old(clock.Reading()) <= clock.Reading() && c in old(insides)
      ensures clock.At() == Clock.Read(old(clock.At()), raw)
      ensures insides == old(insides)[c := Touched(old(insides)[c], conv, clock.Reading())]
    {
      hide Clock.Read, Objects, Mirrored, RestUntouched, AntiReplay.Window.Valid, L.Linked, ConvManager.ConvManager.Valid,
           L.Lru.Valid, L.Entries;
      Unmirror(c);
      Apart(c);
      c.blob.convs.UpdateActiveTime(conv, raw);
      insides := insides[c := InsideOf(c)];
      Reflects(c);
    }

    /** Enters a conversation and its descriptor in both maps. */
    method AddConvObject(c: ConnInfo, conv: nat, f: nat, raw: nat)
      requires Objects() && c in recs && c.blob != null && conv !in recs[c].convs && f !in recs[c].convs.Values
      modifies c.blob.convs, c.blob.convs.lru, clock, this`recs, this`insides
      ensures Objects() && old(clock.Reading()) <= clock.Reading() && c in old(insides)
      ensures clock.At() == Clock.Read(old(clock.At()), raw)
      ensures insides == old(insides)[c := Started(old(insides)[c], conv, clock.Reading())]
      ensures recs == old(recs)[c := old(recs)[c].(convs := old(recs)[c].convs[conv := f])]
    {
      hide Clock.Read, Objects, Mirrored, RestUntouched, AntiReplay.Window.Valid, ConvManager.ConvManager.Valid, L.Lru.Valid,
           L.Linked, L.Entries;
      Unmirror(c);
      Apart(c);
      DataAreValues(c.blob.convs);
      c.blob.convs.InsertConv(conv, f, raw);
      recs := recs[c := RecOf(c)];
      insides := insides[c := InsideOf(c)];
      Reflects(c);
    }

    lemma DataAreValues(m: ConvManager.ConvManager<ConnInfo>)
      requires m.Valid()
      ensures m.dataToConv.Keys == m.convToData.Values
    {
    }

    /** `clear_inactive` of the connection's conversations. */
    method ClearBlob(c: ConnInfo, raw1: nat, raw2: nat, raw3: nat) returns (ghost asked: nat)
      requires Objects() && fds.Valid() && c in recs && c.blob != null
      requires recs[c].convs.Values <= fds.fd64ToFd.Keys
      modifies fds, c.blob.convs, c.blob.convs.lru, clock
      ensures fds.Valid() && old(clock.Reading()) <= asked <= clock.Reading() && c.blob.convs.Valid() && c in old(insides)
      ensures Cleared(old(insides)[c], InsideOf(c), asked, clock.Reading())
      ensures c.blob.convs.convToData.Keys == L.Keys(c.blob.convs.lru.Contents())
      ensures RecOf(c) == old(recs)[c].(convs := c.blob.convs.convToData)
      ensures fds.View() == FdManager.Closed(old(fds.View()), old(recs)[c].convs.Values - c.blob.convs.convToData.Values)
      ensures var m, n := old(recs)[c].convs, c.blob.convs.convToData;
              n.Keys <= m.Keys && (forall k :: k in n ==> n[k] == m[k])
      ensures forall d :: d in recs && d != c && d.blob != null ==>
                && unchanged(d.blob.convs) && unchanged(d.blob.convs.lru)
                && unchanged(d.blob.antiReplay) && unchanged(d.blob.antiReplay.window)
    {
      hide Objects, AntiReplay.Window.Valid, FdManager.FdManager.Valid, L.Linked, L.Lru.Valid,
           ConvManager.ConvManager.Valid, L.Entries, ConvManager.Pass, ConvManager.ClearDue;
      Unmirror(c);
      Apart(c);
      DataAreValues(c.blob.convs);
      var due;
      due, asked := c.blob.convs.ClearInactive(raw1, raw2, raw3);
      DataAreValues(c.blob.convs);
      c.blob.convs.ViewConsistent();
    }

    method ClearConvsObject(c: ConnInfo, raw1: nat, raw2: nat, raw3: nat) returns (ghost asked: nat)
      requires Objects() && fds.Valid() && c in recs && c.blob != null
      requires recs[c].convs.Values <= fds.fd64ToFd.Keys
      modifies fds, c.blob.convs, c.blob.convs.lru, clock, this`recs, this`insides
      ensures Objects() && fds.Valid() && old(clock.Reading()) <= asked <= clock.Reading() && c in recs && c in old(insides) && c in insides
      ensures insides == old(insides)[c := insides[c]] && Cleared(old(insides)[c], insides[c], asked, clock.Reading())
      ensures recs[c].convs.Keys == L.Keys(insides[c].list)
      ensures var m, n := old(recs)[c].convs, recs[c].convs;
              && recs == old(recs)[c := old(recs)[c].(convs := n)]
              && n.Keys <= m.Keys && (forall k :: k in n ==> n[k] == m[k])
              && fds.View() == FdManager.Closed(old(fds.View()), m.Values - n.Values)
    {
      hide Objects, Mirrored, RestUntouched, AntiReplay.Window.Valid, FdManager.FdManager.Valid, L.Linked,
           L.Lru.Valid, ConvManager.ConvManager.Valid, L.Entries, Cleared, FdManager.Closed,
           FdManager.FdManager.View;
      Unmirror(c);
      asked := ClearBlob(c, raw1, raw2, raw3);
      recs := recs[c := RecOf(c)];
      insides := insides[c := InsideOf(c)];
      Reflects(c);
    }

    /** The destructor: its assertions hold, and deleting the blob closes every conversation's descriptor. */
    method DeleteObject(c: ConnInfo)
      requires Objects() && fds.Valid() && c in recs
      requires c.timerFd64 == 0
      requires if c.state == Ready then c.blob != null && c.oppositeConstId != 0 else c.blob == null && c.oppositeConstId == 0
      requires recs[c].convs.Values <= fds.fd64ToFd.Keys
      modifies fds, this`recs, this`insides
      modifies if c.blob == null then {} else {c.blob.convs}
      modifies if c.blob == null then {} else {c.blob.convs.lru}
      ensures Objects() && fds.Valid() && recs == old(recs) - {c} && insides == old(insides) - {c}
      ensures fds.View() == FdManager.Closed(old(fds.View()), old(recs)[c].convs.Values)
    {
      hide Objects, Mirrored, RestUntouched, AntiReplay.Window.Valid, FdManager.FdManager.Valid, L.Linked,
           L.Lru.Valid, InsideOf;
      Unmirror(c);
      if c.blob != null {
        Apart(c);
        DataAreValues(c.blob.convs);
        c.blob.convs.Clear();
      } else {
        FdManager.ClosedNone(fds.View());
        assert recs[c].convs.Values == {};
      }
      recs, insides := recs - {c}, insides - {c};
      RestOnly({c});
      ObjectsKept({c});
    }

    // ----- the steps -----

    method CurrentTime(raw: nat) returns (now: nat)
      requires Valid()
      modifies clock
      ensures Valid() && now == clock.Reading() && View() == Tick(old(View()), now) && old(clock.Reading()) <= now
      ensures clock.At() == Clock.Read(old(clock.At()), raw)
    {
      hide Clock.Read, Inv, Objects, FdManager.FdManager.View, InsideOf;
      ghost var t := View();
      now := clock.CurrentTime(raw);
      TickKeeps(t, now);
      StillThere();
    }

    /** `last_clear_time = get_current_time()` */
    method StampClear(raw: nat)
      requires Valid()
      modifies clock, this`lastClearTime
      ensures Valid() && old(clock.Reading()) <= clock.Reading() == lastClearTime
      ensures View() == Tick(old(View()), clock.Reading()) && clock.At() == Clock.Read(old(clock.At()), raw)
    {
      hide Clock.Read, Inv, Objects, FdManager.FdManager.View, InsideOf;
      ghost var t := View();
      lastClearTime := clock.CurrentTime(raw);
      TickKeeps(t, clock.Reading());
      StillThere();
    }

    lemma ValidFacts()
      requires Valid()
      ensures Inv(View()) && fds.Valid() && Objects() && fds.counter !in fds.issued && fds.counter > FdManager.U32_MAX
    {
      hide Inv, Objects;
    }

    /** `find_insert` of a new address, and the fields the handshake code sets. */
    method InsertConn(addr: Address, pos: nat, myId: nat, now: nat) returns (c: ConnInfo)
      requires Valid() && addr !in mp && |mp| < MAX_HANDSHAKE_CONN_NUM && pos <= |order| && now == clock.Reading()
      modifies this`mp, this`order, this`clearIt, this`recs, this`repr
      ensures Valid() && fresh(c) && c in recs && repr == old(repr) + {c}
      ensures View() == Admit(old(View()), addr, c, recs[c], pos)
      ensures recs[c].state == Handshake1 && recs[c].peer == addr && recs[c].myId == myId && recs[c].lastStateTime == now
      ensures !recs[c].hasBlob && recs[c].constId == 0 && recs[c].timer == 0 && recs[c].convs == map[]
    {
      hide Inv, Objects, FdManager.FdManager.View, InsideOf;
      ghost var t := View();
      c := NewObject(addr, myId, now);
      label objects:
      mp := mp[addr := c];
      order := order[..pos] + [addr] + order[pos..];
      clearIt := if |mp| > RESERVED then Dangling else clearIt;   // a rehash
      AdmitKeeps(t, addr, c, recs[c], pos);
      StillThere@objects();
    }

    method SetIdle(c: ConnInfo)
      requires Valid() && c in recs && recs[c].state == Handshake1
      modifies c`state, c`oppositeConstId, this`recs
      ensures Valid() && View() == Retire(old(View()), c)
    {
      hide Inv, Objects, FdManager.FdManager.View, InsideOf;
      RetireKeeps(View(), c);
      RetireObject(c);
    }

    /** The first ready connection of a const id (the branch that finds no entry in `const_id_mp`). */
    method MakeReady(c: ConnInfo, constId: nat, timerFd: int, firstSeq: nat, lastClear: int, now: nat) returns (f: nat)
      requires Valid() && c in recs && recs[c].state == Handshake1 && now == clock.Reading()
      requires constId !in constIdMp && readyNum < MAX_READY_CONN_NUM
      requires timerFd !in fds.fdToFd64
      modifies c, fds, this`constIdMp, this`readyNum, this`recs, this`insides, this`repr
      ensures old(repr) <= repr && fresh(repr - old(repr)) && c.blob != null
      ensures c in insides && insides == old(insides)[c := insides[c]] && NewInside(insides[c], firstSeq, now)
      ensures Valid() && f !in old(View()).fds.issued && f > FdManager.U32_MAX
      ensures View() == Promote(old(View()), c, constId, f, timerFd)
      ensures fds.fdToFd64 == old(fds.fdToFd64)[timerFd := f]
    {
      hide Inv, Objects, FdManager.FdManager.Valid, L.Lru.Valid, L.Linked, Promote, InsideOf, L.Entries, NewInside,
           Numbered, Indexed;
      ghost var t := View();
      NotReadyNoBlob(t, c);
      Unmirror(c);
      f := NumberFor(c, timerFd);
      ReadyObject(c, constId, f, firstSeq, lastClear, now);
      AddIndexes(c, constId);
      PromotedIs(t, c, constId, f, timerFd);
      PromoteKeeps(t, c, constId, f, timerFd);
    }

    /** A descriptor number for the connection; its object is not touched. */
    method NumberFor(c: ConnInfo, fd: int) returns (f: nat)
      requires Objects() && fds.Valid() && fd !in fds.fdToFd64
      modifies fds
      ensures Objects() && fds.Valid() && f !in old(fds.issued) && f > FdManager.U32_MAX
      ensures View() == Numbered(old(View()), c, f, fd) && fds.fdToFd64 == old(fds.fdToFd64)[fd := f]
    {
      hide Objects, FdManager.FdManager.Valid;
      f := CreateFor(c, fd);
      StillThere();
    }

    method AddIndexes(c: ConnInfo, constId: nat)
      requires Objects()
      modifies this`readyNum, this`constIdMp
      ensures Objects() && View() == Indexed(old(View()), c, constId)
    {
      hide Objects;
      readyNum := readyNum + 1;
      constIdMp := constIdMp[constId := c];
      StillThere();
    }

    lemma PromotedIs(t: Table, c: ConnInfo, k: nat, f: nat, fd: int)
      requires c in t.recs
      ensures var u := Numbered(t, c, f, fd);
              Indexed(u.(recs := u.recs[c := t.recs[c].(state := Ready, constId := k, timer := f, hasBlob := true, convs := map[],
                                                        lastHbRecvTime := t.now)]), c, k) == Promote(t, c, k, f, fd)
    {
    }

    /** Recovery (the branch that finds a ready connection under the const id): swaps the two pointers in
        `mp` and moves the new session into the old object. */
    method GrabConn(ori: ConnInfo, c: ConnInfo, now: nat)
      requires Valid() && now == clock.Reading()
      requires ori in recs && c in recs && recs[ori].state == Ready && recs[c].state == Handshake1
      modifies ori, c`state, c`oppositeConstId, this`mp, this`recs, this`insides
      modifies if ori.blob == null then {} else {ori.blob.antiReplay}
      ensures Valid() && View() == Grab(old(View()), ori, c)
      ensures ori.blob != null && ori in old(insides) && ori in insides && IsFresh(insides[ori].filter)
      ensures insides == old(insides)[ori := old(insides)[ori].(filter := insides[ori].filter, rollers := Rollers(0, 0, 0),
                                                                hbSent := insides[ori].hbSent)]
    {
      hide Inv, Objects, FdManager.FdManager.Valid, FdManager.FdManager.View, InsideOf, L.Lru.Valid, L.Linked,
           L.Entries, IsFresh, Grab;
      ghost var t := View();
      NotReadyNoBlob(t, ori);
      Unmirror(ori);
      Unmirror(c);
      GrabKeeps(t, ori, c);
      GrabIs(t, ori, c);
      var addr1 := ori.peer;
      assert addr1 in mp;           // "this shouldnt happen" cannot happen
      var addr2 := c.peer;
      assert addr2 in mp;           // neither can "this shouldnt happen2"
      MoveSession(ori, c, now);
      SwapPointers(addr1, addr2);
    }

    method SwapPointers(addr1: Address, addr2: Address)
      requires Objects() && addr1 in mp && addr2 in mp
      modifies this`mp
      ensures Objects() && mp == old(mp)[addr1 := old(mp)[addr2]][addr2 := old(mp)[addr1]]
    {
      hide Objects;
      mp := mp[addr1 := mp[addr2]][addr2 := mp[addr1]];
      StillThere();
    }

    /** The session moves into the old object, and the new one goes idle. */
    method MoveSession(ori: ConnInfo, c: ConnInfo, now: nat)
      requires Objects() && ori in recs && c in recs && ori != c && ori.blob != null
      modifies ori, ori.blob.antiReplay, c`state, c`oppositeConstId, this`recs, this`insides
      ensures Objects() && ori in old(insides) && ori in insides && IsFresh(insides[ori].filter) && ori.blob == old(ori.blob)
      ensures insides == old(insides)[ori := old(insides)[ori].(filter := insides[ori].filter, rollers := Rollers(0, 0, 0),
                                                                hbSent := insides[ori].hbSent)]
      ensures var ro, rc := old(recs)[ori], old(recs)[c];
              recs == old(recs)[ori := ro.(peer := rc.peer, lastStateTime := rc.lastStateTime, lastHbRecvTime := now,
                                           myId := rc.myId, oppositeId := rc.oppositeId)]
                               [c := rc.(state := Idle, constId := 0)]
    {
      hide Objects, IsFresh;
      TakeOverObject(ori, c, now);
      RetireObject(c);
    }

    /** The steps of the recovery together. */
    lemma GrabIs(t: Table, o: ConnInfo, c: ConnInfo)
      requires o in t.recs && c in t.recs && o != c && t.recs[o].peer in t.mp && t.recs[c].peer in t.mp
      ensures var ro, rc := t.recs[o], t.recs[c];
              Grab(t, o, c) == t.(mp := t.mp[ro.peer := t.mp[rc.peer]][rc.peer := t.mp[ro.peer]],
                                  recs := t.recs[o := ro.(peer := rc.peer, lastStateTime := rc.lastStateTime, lastHbRecvTime := t.now,
                                                          myId := rc.myId, oppositeId := rc.oppositeId)]
                                                [c := rc.(state := Idle, constId := 0)])
    {
    }

    method SetOppositeId(c: ConnInfo, id: nat)
      requires Valid() && c in recs && recs[c].state == Handshake1
      modifies c`oppositeId, this`recs
      ensures Valid() && View() == SetRec(old(View()), c, old(recs)[c].(oppositeId := id))
    {
      hide Inv, Objects, FdManager.FdManager.View, InsideOf;
      IdSetKeeps(View(), c, id);
      OppositeIdObject(c, id);
    }

    method SetHeard(c: ConnInfo, now: nat)
      requires Valid() && c in recs && recs[c].state == Ready && now == clock.Reading()
      modifies c`lastHbRecvTime, this`recs
      ensures Valid() && View() == SetRec(old(View()), c, old(recs)[c].(lastHbRecvTime := now))
    {
      hide Inv, Objects, FdManager.FdManager.View, InsideOf;
      HeardKeeps(View(), c, now);
      HeardObject(c, now);
    }

    /** `recv_safer_multi`: what a ready connection delivers of a batch; the table stays as it is. */
    method RecvSafer(c: ConnInfo, batch: seq<Packet>, hbMode: nat, raws: seq<nat>) returns (out: seq<Packet>,
            ghost nows: seq<nat>)
      requires Valid() && c in recs && c.blob != null && |raws| == |batch|
      modifies c.blob.antiReplay`maxPacketReceived, c.blob.antiReplay`filter, c.blob.antiReplay.window, clock
      modifies c`myRoller, c`oppositeRoller, c`lastOppositeRollerTime, this`insides
      ensures Valid() && View() == Tick(old(View()), clock.Reading()) && old(clock.Reading()) <= clock.Reading()
      ensures |nows| == |out| && c in old(insides)
      ensures (forall p <- out :: p.Safer?) && out == Parsed(old(insides)[c].filter, recs[c].myId, recs[c].oppositeId, batch).1
      ensures insides == old(insides)[c := AfterBatch(old(insides)[c], recs[c], batch, out, hbMode, nows)]
    {
      hide Inv, Objects, FdManager.FdManager.View, FdManager.FdManager.Valid, Parsed, InsideOf;
      ghost var t := View();
      out, nows := RecvSaferObject(c, batch, hbMode, raws);
      TickKeeps(t, clock.Reading());
    }

    /** `send_safer` on a ready connection. */
    method SendSafer(c: ConnInfo, msg: Message) returns (p: Packet)
      requires Valid() && c in recs && c.blob != null
      modifies c.blob.antiReplay`antiReplaySeq, this`insides
      ensures Valid() && View() == old(View()) && c in old(insides)
      ensures p == Safer(recs[c].myId, recs[c].oppositeId, old(insides)[c].sendSeq, msg, old(insides)[c].rollers.mine)
      ensures insides == old(insides)[c := old(insides)[c].(sendSeq := old(insides)[c].sendSeq + 1)]
    {
      hide Inv, Objects, FdManager.FdManager.View, FdManager.FdManager.Valid, InsideOf;
      p := SendObject(c, msg);
    }

    method StampHeartbeat(c: ConnInfo, raw: nat)
      requires Valid() && c in recs && c.blob != null
      modifies c`lastHbSentTime, clock, this`insides
      ensures Valid() && View() == Tick(old(View()), clock.Reading()) && old(clock.Reading()) <= clock.Reading() && c in old(insides)
      ensures clock.At() == Clock.Read(old(clock.At()), raw)
      ensures insides == old(insides)[c := old(insides)[c].(hbSent := clock.Reading())]
    {
      hide Clock.Read, Inv, Objects, FdManager.FdManager.View, FdManager.FdManager.Valid, InsideOf;
      ghost var t := View();
      HbSentObject(c, raw);
      TickKeeps(t, clock.Reading());
    }

    /** A conversation the peer opened: a new descriptor, tagged with its connection. */
    method OpenNewConv(c: ConnInfo, conv: nat, fd: int, raw: nat) returns (f: nat)
      requires Valid() && c in recs && recs[c].state == Ready && c.blob != null
      requires conv !in recs[c].convs && |recs[c].convs| < ConvManager.MAX_CONV_NUM && fd !in fds.fdToFd64
      modifies fds, c.blob.convs, c.blob.convs.lru, clock, this`recs, this`insides
      ensures Valid() && f !in old(View()).fds.issued && f > FdManager.U32_MAX && old(clock.Reading()) <= clock.Reading()
      ensures clock.At() == Clock.Read(old(clock.At()), raw)
      ensures c in old(insides) && insides == old(insides)[c := Started(old(insides)[c], conv, clock.Reading())]
      ensures View() == Tick(OpenConv(old(View()), c, conv, f, fd), clock.Reading())
      ensures fds.fdToFd64 == old(fds.fdToFd64)[fd := f]
    {
      hide Clock.Read, Inv, Objects, FdManager.FdManager.Valid, InsideOf;
      ghost var t := View();
      HoldsIssued(t, c);
      f := NumberFor(c, fd);
      AddConvObject(c, conv, f, raw);
      OpenConvKeeps(t, c, conv, f, fd);
      TickKeeps(OpenConv(t, c, conv, f, fd), clock.Reading());
    }

    method TouchConv(c: ConnInfo, conv: nat, raw: nat)
      requires Valid() && c in recs && c.blob != null && conv in recs[c].convs
      modifies c.blob.convs.lru, clock, this`insides
      ensures Valid() && View() == Tick(old(View()), clock.Reading()) && old(clock.Reading()) <= clock.Reading()
      ensures clock.At() == Clock.Read(old(clock.At()), raw)
      ensures c in old(insides) && insides == old(insides)[c := Touched(old(insides)[c], conv, clock.Reading())]
    {
      hide Clock.Read, Inv, Objects, FdManager.FdManager.Valid, FdManager.FdManager.View, InsideOf;
      ghost var t := View();
      TouchConvObject(c, conv, raw);
      TickKeeps(t, clock.Reading());
    }

    /** The connection's cleanup: expired conversations go, and their descriptors are closed. */
    method ClearConvs(c: ConnInfo, raw1: nat, raw2: nat, raw3: nat) returns (ghost asked: nat)
      requires Valid() && c in recs && recs[c].state == Ready && c.blob != null
      modifies fds, c.blob.convs, c.blob.convs.lru, clock, this`recs, this`insides
      ensures Valid() && old(clock.Reading()) <= asked <= clock.Reading() && c in recs && c in old(insides) && c in insides
      ensures insides == old(insides)[c := insides[c]] && Cleared(old(insides)[c], insides[c], asked, clock.Reading())
      ensures recs[c].convs.Keys == L.Keys(insides[c].list)
      ensures var m, n := old(recs)[c].convs, recs[c].convs;
              && n.Keys <= m.Keys && (forall k :: k in n ==> n[k] == m[k])
              && View() == Tick(DropConvs(old(View()), c, n), clock.Reading())
    {
      hide Inv, Objects, FdManager.FdManager.Valid, InsideOf;
      ghost var t := View();
      HoldsLive(t, c);
      asked := ClearConvsObject(c, raw1, raw2, raw3);
      DropConvsKeeps(t, c, recs[c].convs);
      TickKeeps(DropConvs(t, c, recs[c].convs), clock.Reading());
    }

    /** `conn_manager_t::erase`, with all its assertions.  A ready connection's const id must not be 0. */
    method EraseAt(addr: Address)
      requires Valid() && addr in mp && mp[addr] in recs && clearIt != At(addr)
      requires recs[mp[addr]].state == Ready ==> recs[mp[addr]].constId != 0
      modifies this, fds, mp[addr]
      modifies if mp[addr].blob == null then {} else {mp[addr].blob.convs}
      modifies if mp[addr].blob == null then {} else {mp[addr].blob.convs.lru}
      ensures Valid() && View() == Erase(old(View()), addr) && lastClearTime == old(lastClearTime) && repr == old(repr)
      ensures insides == old(insides) - {old(mp[addr])}
    {
      hide Inv, Objects, FdManager.FdManager.Valid, FdManager.FdManager.View, Erasable, Erase, InsideOf;
      CanErase(addr);
      EraseConn(addr);
    }

    /** What the assertions of `erase` claim. */
    ghost predicate Erasable(addr: Address)
      reads this, fds
    {
      && addr in mp && mp[addr] in recs
      && var r := recs[mp[addr]];
        && (if r.state == Ready
            then readyNum > 0 && r.constId in constIdMp && r.constId != 0 && r.hasBlob && r.timer != 0
                 && r.timer in fds.fd64ToFd && r.timer !in r.convs.Values
            else !r.hasBlob && r.timer == 0 && r.constId == 0 && r.convs == map[])
        && r.convs.Values <= fds.fd64ToFd.Keys
    }

    lemma CanErase(addr: Address)
      requires Valid() && addr in mp && mp[addr] in recs && clearIt != At(addr)
      requires recs[mp[addr]].state == Ready ==> recs[mp[addr]].constId != 0
      ensures Erasable(addr) && Inv(Erase(View(), addr))
    {
      hide Inv, Objects, FdManager.FdManager.Valid, Erase;
      EraseFacts(View(), addr);
      EraseInv(View(), addr);
      HoldsLive(View(), mp[addr]);
    }

    /** The body of `erase`, given what its assertions claim. */
    method EraseConn(addr: Address)
      requires Objects() && fds.Valid() && Erasable(addr)
      modifies this, fds, mp[addr]
      modifies if mp[addr].blob == null then {} else {mp[addr].blob.convs}
      modifies if mp[addr].blob == null then {} else {mp[addr].blob.convs.lru}
      ensures Objects() && fds.Valid() && lastClearTime == old(lastClearTime) && repr == old(repr)
      ensures insides == old(insides) - {old(mp[addr])}
      ensures View() == Erase(old(View()), addr)
    {
      hide Objects, FdManager.FdManager.Valid, FdManager.FdManager.View, FdManager.Closed, Holdings, WithoutKey,
           L.Lru.Valid, L.Linked, Erase, InsideOf, RecOf, Released, Dropped;
      ghost var t := View();
      var c := mp[addr];
      Unmirror(c);
      Fields(c);
      var wasReady, constId := c.state == Ready, c.oppositeConstId;
      ReleaseObject(c);
      DropIndexes(addr, wasReady, constId);
      ErasedIs(t, addr);
    }

    lemma Fields(c: ConnInfo)
      requires c in recs && recs[c] == RecOf(c)
      ensures var r := recs[c]; c.state == r.state && c.oppositeConstId == r.constId && c.timerFd64 == r.timer && (c.blob != null <==> r.hasBlob)
    {
    }

    /** The two parts of `erase` together. */
    lemma ErasedIs(t: Table, addr: Address)
      requires addr in t.mp && t.mp[addr] in t.recs && (t.recs[t.mp[addr]].state == Ready ==> t.readyNum > 0)
      ensures var r := t.recs[t.mp[addr]];
              Dropped(Released(t, t.mp[addr]), addr, r.state == Ready, r.constId) == Erase(t, addr)
    {
    }

    /** The part of `erase` that concerns the indexes. */
    method DropIndexes(addr: Address, wasReady: bool, constId: nat)
      requires Objects() && (wasReady ==> readyNum > 0)
      modifies this`readyNum, this`constIdMp, this`mp, this`order
      ensures Objects() && View() == Dropped(old(View()), addr, wasReady, constId)
    {
      hide Objects, InsideOf;
      if wasReady {
        readyNum := readyNum - 1;
        constIdMp := constIdMp - {constId};
      }
      mp := mp - {addr};
      order := WithoutKey(order, addr);
      StillThere();
    }

    /** The part of `erase` that concerns the object: its timer is closed, then it is deleted. */
    method ReleaseObject(c: ConnInfo)
      requires Objects() && fds.Valid() && c in recs && c.state == recs[c].state
      requires if c.state == Ready then c.blob != null && c.oppositeConstId != 0
               else c.blob == null && c.timerFd64 == 0 && c.oppositeConstId == 0 && recs[c].convs == map[]
      requires c.state == Ready ==> c.timerFd64 == recs[c].timer && c.timerFd64 != 0 && fds.Exist(c.timerFd64)
      requires recs[c].convs.Values <= fds.fd64ToFd.Keys - {c.timerFd64}
      modifies fds, c`timerFd64, this`recs, this`insides
      modifies if c.blob == null then {} else {c.blob.convs}
      modifies if c.blob == null then {} else {c.blob.convs.lru}
      ensures repr == old(repr) && lastClearTime == old(lastClearTime) && insides == old(insides) - {c}
      ensures Objects() && fds.Valid() && View() == Released(old(View()), c)
    {
      hide Objects, FdManager.FdManager.Valid, InsideOf;
      ghost var r, t := recs[c], fds.View();
      if c.state == Ready {
        CloseTimer(c);
        FdManager.ClosedTwice(t, {r.timer}, r.convs.Values);
      } else {
        assert r.convs.Values == {};
      }
      DeleteObject(c);
    }

    /** `fd_manager.fd64_close(timer_fd64)` and `timer_fd64 = 0`. */
    method CloseTimer(c: ConnInfo)
      requires Objects() && fds.Valid() && c in recs && fds.Exist(c.timerFd64)
      modifies fds, c`timerFd64, this`recs
      ensures Objects() && fds.Valid() && c.timerFd64 == 0
      ensures recs == old(recs)[c := old(recs)[c].(timer := 0)]
      ensures fds.View() == FdManager.Closed(old(fds.View()), {old(c.timerFd64)})
    {
      hide Objects, Mirrored, RestUntouched;
      Unmirror(c);
      fds.Fd64Close(c.timerFd64);
      c.timerFd64 := 0;
      recs := recs[c := RecOf(c)];
      Mirror(c);
      RestOnly({c});
      ObjectsKept({c});
    }

    // ----- cleanup -----

    /** One turn of the cleanup loop at the iterator.  The code advances a local iterator and stores it
        after the loop; the field stands for it here. */
    method CleanupTurn(now: nat)
      requires Valid() && NonZeroIds(View()) && mp != map[] && now == clock.Reading()
      modifies this, fds, repr
      ensures Valid() && NonZeroIds(View()) && lastClearTime == old(lastClearTime)
      ensures repr == old(repr) && clock.Reading() == old(clock.Reading())
      ensures old(View()).order != [] && View() == Turn(old(View()), Current(old(View())))
      ensures LeftInside(old(insides), insides, View())
    {
      hide Inv, Objects, FdManager.FdManager.Valid, FdManager.FdManager.View, Turn, LeftInside, Erase, InsideOf;
      ghost var t := View();
      TurnGuards(t);
      var addr := if clearIt.At? then clearIt.key else order[0];
      var c := mp[addr];
      Unmirror(c);
      TurnCode(t, addr);
      clearIt := Next(order, addr);
      StillThere();
      if c.state == Ready && now - c.lastHbRecvTime <= SERVER_CONN_TIMEOUT {
      } else if c.state != Ready && now - c.lastStateTime <= SERVER_HANDSHAKE_TIMEOUT {
      } else if c.blob != null && c.blob.convs.GetSize() > 0 {
        assert c.state == Ready;
      } else {
        ghost var u := View();
        EraseAt(addr);
        LeftErased(insides, old(insides), u, addr);
        return;
      }
      LeftSame(insides, View());
    }

    /** `clear_inactive0`: a bounded pass from the saved iterator. */
    method ClearInactive0(raw: nat)
      requires Valid() && NonZeroIds(View())
      modifies this, fds, clock, repr
      ensures Valid() && NonZeroIds(View()) && lastClearTime == old(lastClearTime) && repr == old(repr)
      ensures old(clock.Reading()) <= clock.Reading() && Inv(Tick(old(View()), clock.Reading()))
      ensures View() == Sweep(Tick(old(View()), clock.Reading()), Quota(|old(mp)|))
      ensures LeftInside(old(insides), insides, View())
    {
      hide Inv, Objects, FdManager.FdManager.Valid, FdManager.FdManager.View, Turn, Sweep, LeftInside, InsideOf;
      InsidesAreLive();
      LeftSame(insides, View());
      var cnt := 0;
      var size := |mp|;
      var numToClean := size / CONN_CLEAR_RATIO + CONN_CLEAR_MIN;
      numToClean := if numToClean < |mp| then numToClean else |mp|;
      var now := CurrentTime(raw);
      ghost var t := View();
      LeftSame(insides, t);
      while cnt < numToClean && mp != map[]
        invariant Valid() && NonZeroIds(View()) && lastClearTime == old(lastClearTime) && now == clock.Reading()
        invariant cnt <= numToClean && Inv(t) && LeftInside(old(insides), insides, View())
        invariant repr == old(repr)
        invariant Sweep(View(), numToClean - cnt) == Sweep(t, numToClean)
      {
        TurnGuards(View());
        SweepStep(View(), numToClean - cnt);
        ghost var x, u := insides, View();
        CleanupTurn(now);
        TurnShrinks(u);
        LeftTwice(old(insides), x, insides, u, View());
        cnt := cnt + 1;
      }
      SweepDone(View(), numToClean - cnt);
    }
  }

  lemma LeftSame(x: map<ConnInfo, Inside>, t: Table)
    requires x.Keys <= t.recs.Keys
    ensures LeftInside(x, x, t)
  {
  }

  lemma LeftErased(y: map<ConnInfo, Inside>, x: map<ConnInfo, Inside>, t: Table, a: Address)
    requires x.Keys <= t.recs.Keys && a in t.mp && t.mp[a] in t.recs && y == x - {t.mp[a]}
    ensures LeftInside(x, y, Erase(t, a))
  {
  }

  lemma LeftTwice(x: map<ConnInfo, Inside>, y: map<ConnInfo, Inside>, z: map<ConnInfo, Inside>, t: Table, u: Table)
    requires LeftInside(x, y, t) && LeftInside(y, z, u) && u.recs.Keys <= t.recs.Keys
    ensures LeftInside(x, z, u)
  {
  }

  lemma TurnShrinks(t: Table)
    requires t.order != [] && Current(t) in t.mp && t.mp[Current(t)] in t.recs && Current(t) in t.order
    ensures Turn(t, Current(t)).recs.Keys <= t.recs.Keys
  {
  }

  lemma NotReadyNoBlob(t: Table, c: ConnInfo)
    requires Inv(t) && c in t.recs
    ensures t.recs[c].hasBlob <==> t.recs[c].state == Ready
    ensures !t.recs[c].hasBlob ==> t.recs[c].constId == 0
  {
    ConnAt(t, c);
  }

  lemma HoldsLive(t: Table, c: ConnInfo)
    requires Inv(t) && c in t.recs
    ensures t.recs[c].convs.Values <= t.fds.live.Keys
    ensures t.recs[c].state == Ready ==> t.recs[c].timer in t.fds.live && t.recs[c].timer !in t.recs[c].convs.Values
    ensures t.recs[c].state == Ready ==> t.recs[c].timer > FdManager.U32_MAX
  {
    hide Index, InjectiveMp, OrderOk, Sizes, Conns, Fds, FdsBound;
    ConnAt(t, c);
    if t.recs[c].state == Ready {
      OwnsValues(t, c);
      FdsFacts(t);
      assert Owns(t, c, t.recs[c].timer);
      assert FdsBound(t) ==> t.fds.live.Keys <= t.fds.issued && forall f :: f in t.fds.issued ==> f > FdManager.U32_MAX by { BoundMeans(t); }
    }
  }

  lemma BoundMeans(t: Table)
    requires FdsBound(t)
    ensures t.fds.live.Keys <= t.fds.issued && forall f :: f in t.fds.issued ==> f > FdManager.U32_MAX
  {
  }

  lemma HoldsIssued(t: Table, c: ConnInfo)
    requires Inv(t) && c in t.recs
    ensures t.recs[c].convs.Values <= t.fds.issued
  {
    HoldsLive(t, c);
    hide Index, InjectiveMp, OrderOk, Sizes, Conns, Fds;
    FdsFacts(t);
  }

  lemma EraseInv(t: Table, a: Address)
    requires Inv(t) && a in t.mp && t.mp[a] in t.recs && t.cursor != At(a)
    ensures Inv(Erase(t, a))
  {
    hide Inv, Erase;
    EraseKeeps(t, a);
  }

  /** The assertions of `erase` about a connection. */
  lemma EraseFacts(t: Table, a: Address)
    requires Inv(t) && a in t.mp && t.mp[a] in t.recs && t.cursor != At(a)
    ensures var r := t.recs[t.mp[a]];
            if r.state == Ready
            then t.readyNum > 0 && r.constId in t.constIdMp && r.hasBlob
            else !r.hasBlob && r.timer == 0 && r.constId == 0 && r.convs == map[]
    ensures var c := t.mp[a]; var r := t.recs[c];
            Erase(t, a) == Table(t.mp - {a}, t.recs - {c},
                                 if r.state == Ready then t.constIdMp - {r.constId} else t.constIdMp,
                                 if r.state == Ready then t.readyNum - 1 else t.readyNum,
                                 FdManager.Closed(t.fds, Holdings(r)), WithoutKey(t.order, a), t.cursor, t.now)
  {
    hide Index, InjectiveMp, OrderOk, Conns, Fds;
    ConnAt(t, t.mp[a]);
  }

  /** What the cleanup loop's tests decide at entry `a`, and that its assertion holds. */
  lemma TurnCode(t: Table, a: Address)
    requires Inv(t) && NonZeroIds(t) && t.order != [] && a == Current(t) && a in t.mp && t.mp[a] in t.recs && a in t.order
    ensures var r := t.recs[t.mp[a]]; var u := t.(cursor := Next(t.order, a));
            && Inv(u) && NonZeroIds(u) && u.cursor != At(a)
            && (r.state == Ready ==> r.lastHbRecvTime <= t.now && r.constId != 0)
            && r.lastStateTime <= t.now && (r.hasBlob ==> r.state == Ready)
            && Turn(t, a) == (if r.state == Ready && t.now - r.lastHbRecvTime <= SERVER_CONN_TIMEOUT then u
                              else if r.state != Ready && t.now - r.lastStateTime <= SERVER_HANDSHAKE_TIMEOUT then u
                              else if r.hasBlob && |r.convs| > 0 then u
                              else Erase(u, a))
            && NonZeroIds(Turn(t, a)) && Turn(t, a).now == t.now
  {
    hide Conns, Index, Fds, InjectiveMp, Sizes;
    TurnFacts(t);
    ConnAt(t, t.mp[a]);
    var i := IndexOf(t.order, a);
    RotateKeep(t.order, i);
    RotateRemove(t.order, i);
    CursorKeeps(t, Next(t.order, a));
  }

  lemma SweepStep(t: Table, n: nat)
    requires Inv(t) && n > 0 && t.order != []
    ensures Inv(Turn(t, Current(t))) && Sweep(t, n) == Sweep(Turn(t, Current(t)), n - 1)
  {
    hide Conns, Index, Fds, InjectiveMp, Sizes, Turn;
    TurnFacts(t);
  }

  lemma SweepDone(t: Table, n: nat)
    requires Inv(t) && (n == 0 || t.mp == map[])
    ensures Sweep(t, n) == t
  {
    hide Conns, Index, Fds, InjectiveMp, Sizes, Turn;
    if t.order != [] { assert t.order[0] in t.order; }
  }

  lemma TurnGuards(t: Table)
    requires Inv(t) && t.mp != map[]
    ensures t.order != [] && t.cursor != Dangling
    ensures var a := Current(t); a in t.mp && t.mp[a] in t.recs && a in t.order
  {
    hide Conns, Index, Fds, InjectiveMp, Sizes;
    var a :| a in t.mp;
    assert a in t.order;
    TurnFacts(t);
  }
}
