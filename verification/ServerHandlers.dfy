/** The handlers of server.cpp, working on the connection manager.  Parsing and the sockets are parameters:
a handler gets what the parser made of the packet and the descriptors the kernel would return. */
module ServerHandlers {
  import opened Connection
  import opened ServerTable
  import opened ServerSteps
  import opened ServerSweep
  import opened ServerEvents
  import opened Packets
  import opened Server
  import AntiReplay
  import Clock
  import ConvManager
  import FdManager
  import L = Lru

  const CONN_CLEAR_INTERVAL: nat := 1000
  const HEARTBEAT_INTERVAL: nat := 600
  const MAX_DATA_LEN: nat := 1800
  const U32: nat := 0x1_0000_0000

  type Insides = map<ConnInfo, Inside>

  /** Everything the handlers work on: the table, and what the ready connections keep besides. */
  datatype State = State(t: Table, ins: Insides)

  /** What the kernel and the random numbers give a handler: descriptors for new sockets and timers, negative when
  there is none, the place a new key gets in the hash map, a fresh id, the uninitialised and random fields of a new
  blob, the result of a `recv`, and the raw clock, reading by reading. */
  datatype Given = Given(fds: seq<int>, timerFd: int, pos: nat, myId: nat, firstSeq: nat, lastClear: int, recvLen: int,
                         raw: nat -> nat)

  ghost function StateOf(m: ConnManager): State
    reads m, m.fds, m.clock
  {
    State(m.View(), m.insides)
  }

  /** `conn_manager_t::clear_inactive`: a pass at most once a second. */
  method ClearInactive(m: ConnManager, raw1: nat, raw2: nat, raw3: nat) returns (due: bool, ghost now: nat)
    requires m.Valid() && NonZeroIds(m.View()) && 0 <= m.lastClearTime <= m.clock.Reading()
    modifies m, m.fds, m.clock, m.repr
    ensures m.Valid() && NonZeroIds(m.View()) && m.repr == old(m.repr) && 0 <= m.lastClearTime <= m.clock.Reading()
    ensures old(m.clock.Reading()) <= now <= m.clock.Reading()
    ensures due <==> now > old(m.lastClearTime) + 1000
    ensures now == Clock.Read(old(m.clock.At()), raw1).top / 1000
    ensures if due then now <= m.lastClearTime else m.lastClearTime == old(m.lastClearTime) && now == m.clock.Reading()
    ensures Inv(Tick(old(m.View()), m.clock.Reading()))
    ensures m.View() == if due then Sweep(Tick(old(m.View()), m.clock.Reading()), Quota(|old(m.mp)|))
                        else Tick(old(m.View()), m.clock.Reading())
    ensures LeftInside(old(m.insides), m.insides, m.View())
  {
    hide Inv, ConnManager.Valid, ConnManager.Objects, Sweep, NonZeroIds, LeftInside, Clock.Read;
    ghost var t := m.View();
    m.ValidFacts();
    m.InsidesAreLive();
    var time := m.CurrentTime(raw1);
    now := time;
    SameIds(t, m.View());
    LeftSame(m.insides, m.View());
    due := time - m.lastClearTime > CONN_CLEAR_INTERVAL;
    if due {
      m.StampClear(raw2);
      SameIds(t, m.View());
      m.ClearInactive0(raw3);
    }
    TickKeeps(t, m.clock.Reading());
  }

  /** What the second handshake does to the insides, and the heartbeat it sends: the window of the connection that
  serves the session starts anew, its send numbers go on. */
  ghost predicate PreReadyInside(x: Insides, y: Insides, t: Table, c: ConnInfo, k: nat, firstSeq: nat, sent: seq<Packet>)
    requires c in t.recs
  {
    var r := t.recs[c];
    if TurnedAway(t, c, k) then y == x && sent == []
    else if k !in t.constIdMp then
      && c in y && y == x[c := y[c]] && NewInside(y[c], firstSeq + 1, t.now)
      && sent == [Safer(r.myId, r.oppositeId, firstSeq, Heartbeat, 0)]
    else
      var o := t.constIdMp[k];
      && o in x && Restarted(x, y, o)
      && sent == [Safer(r.myId, r.oppositeId, x[o].sendSeq, Heartbeat, 0)]
  }

  /** `server_on_raw_recv_pre_ready` */
  method OnPreReady(m: ConnManager, c: ConnInfo, constId: nat, timerFd: int, firstSeq: nat, lastClear: int, raw: nat)
    returns (sent: seq<Packet>, ghost f: nat)
    requires m.Valid() && c in m.recs && m.recs[c].state == Handshake1 && timerFd !in m.fds.fdToFd64
    modifies m, m.fds, m.clock, m.repr
    ensures m.Valid() && old(m.repr) <= m.repr && fresh(m.repr - old(m.repr)) && m.lastClearTime == old(m.lastClearTime)
    ensures old(m.clock.Reading()) <= m.clock.Reading()
    ensures Unissued(old(m.View()), f) && Inv(Tick(old(m.View()), m.clock.Reading()))
    ensures m.View() == PreReady(Tick(old(m.View()), m.clock.Reading()), c, constId, f, timerFd)
    ensures constId !in old(m.constIdMp) ==> (sent == [] <==> old(m.readyNum) >= 1000)
    ensures constId in old(m.constIdMp) ==>
              var o := old(m.constIdMp)[constId];
              o in old(m.recs) && (sent == [] <==> old(m.recs)[c].lastStateTime < old(m.recs)[o].lastStateTime)
    ensures sent != [] ==> |sent| == 1 && m.clock.At() == Clock.Read(old(m.clock.At()), raw)
    ensures PreReadyInside(old(m.insides), m.insides, Tick(old(m.View()), m.clock.Reading()), c, constId, firstSeq, sent)
  {
    hide Inv, ConnManager.Valid, ConnManager.Objects, RecOf, InsideOf, IsFresh, Clock.Read;
    ghost var t := m.View();
    m.ValidFacts();
    StateMirrored(m, c);
    PeerInMp(t, c);
    f := m.fds.counter;
    sent := [];
    if constId !in m.constIdMp {
      if m.readyNum >= MAX_READY_CONN_NUM {
        m.SetIdle(c);
      } else {
        sent, f := BecomeReady(m, c, constId, timerFd, firstSeq, lastClear, raw);
      }
    } else {
      var ori := m.constIdMp[constId];
      IndexedIsReady(t, constId);
      StateMirrored(m, ori);
      assert ori.state == Ready;                             // "this should never happen" cannot happen
      if c.lastStateTime < ori.lastStateTime {
        m.SetIdle(c);
      } else {
        sent := GrabReady(m, ori, c, raw);
      }
    }
    TickKeeps(t, m.clock.Reading());
  }

  lemma Seen(m: ConnManager)
    requires m.Valid()
    ensures var t := m.View();
            && t.recs == m.recs && t.mp == m.mp && t.constIdMp == m.constIdMp && t.readyNum == m.readyNum
            && t.now == m.clock.Reading() && t.order == m.order && t.fds.live == m.fds.fd64ToFd && t.fds.info == m.fds.info
            && Inv(t) && m.Objects() && m.fds.Valid() && Unissued(t, m.fds.counter)
  {
    hide Inv, ConnManager.Objects;
    m.ValidFacts();
  }

  lemma StateMirrored(m: ConnManager, c: ConnInfo)
    requires c in m.recs && m.Objects()
    ensures c in m.repr && c.state == m.recs[c].state && c.lastStateTime == m.recs[c].lastStateTime
    ensures c.myId == m.recs[c].myId && c.timerFd64 == m.recs[c].timer
    ensures c.blob != null <==> m.recs[c].hasBlob
    ensures c.blob != null ==> c in m.insides && c.lastHbSentTime == m.insides[c].hbSent
    ensures c.blob != null ==> c.blob.convs.closer == m.fds && c.blob.convs.lru.clock == m.clock
                               && c.blob.convs.convToData == m.recs[c].convs
    ensures c.blob != null ==>
              {c.blob.convs as object, c.blob.convs.lru, c.blob.antiReplay, c.blob.antiReplay.window} <= m.repr
  {
    hide ConnManager.Objects, ConvManager.ConvManager.Valid, AntiReplay.Window.Valid;
    m.Unmirror(c);
  }

  /** The first connection of a const id. */
  method BecomeReady(m: ConnManager, c: ConnInfo, constId: nat, timerFd: int, firstSeq: nat, lastClear: int, raw: nat)
    returns (sent: seq<Packet>, f: nat)
    requires m.Valid() && c in m.recs && m.recs[c].state == Handshake1 && timerFd !in m.fds.fdToFd64
    requires constId !in m.constIdMp && m.readyNum < MAX_READY_CONN_NUM
    modifies m, m.fds, m.clock, m.repr
    ensures m.Valid() && old(m.repr) <= m.repr && fresh(m.repr - old(m.repr)) && m.lastClearTime == old(m.lastClearTime)
    ensures old(m.clock.Reading()) <= m.clock.Reading() && Unissued(old(m.View()), f)
    ensures m.View() == Promote(Tick(old(m.View()), m.clock.Reading()), c, constId, f, timerFd)
    ensures c in m.insides && m.insides == old(m.insides)[c := m.insides[c]] && NewInside(m.insides[c], firstSeq + 1, m.clock.Reading())
    ensures sent == [Safer(old(m.recs)[c].myId, old(m.recs)[c].oppositeId, firstSeq, Heartbeat, 0)]
    ensures m.clock.At() == Clock.Read(old(m.clock.At()), raw)
  {
    hide Clock.Read, Inv, ConnManager.View, ConnManager.Valid, ConnManager.Objects, RecOf, InsideOf, IsFresh,
         FdManager.FdManager.Valid, FdManager.FdManager.View, Promote, Grab;
    ghost var t := m.View();
    Seen(m);
    StateMirrored(m, c);
    var now := m.CurrentTime(raw);
    Seen(m);
    TickKeeps(t, now);
    f := m.MakeReady(c, constId, timerFd, firstSeq, lastClear, now);
    PromotedRec(Tick(t, now), c, constId, f, timerFd);
    Seen(m);
    StateMirrored(m, c);
    var p := m.SendSafer(c, Heartbeat);
    Seen(m);
    sent := [p];
  }

  /** The window starts anew and one packet goes out: what recovery does to the inside of a ready connection. */
  ghost predicate Restarted(x: Insides, y: Insides, o: ConnInfo) {
    && o in x && o in y && IsFresh(y[o].filter)
    && y == x[o := x[o].(filter := y[o].filter, sendSeq := x[o].sendSeq + 1, rollers := Rollers(0, 0, 0), hbSent := y[o].hbSent)]
  }

  lemma ResetThenSent(x: Insides, y: Insides, z: Insides, o: ConnInfo)
    requires o in x && o in y && IsFresh(y[o].filter)
    requires y == x[o := x[o].(filter := y[o].filter, rollers := Rollers(0, 0, 0), hbSent := y[o].hbSent)]
    requires z == y[o := y[o].(sendSeq := y[o].sendSeq + 1)]
    ensures Restarted(x, z, o) && y[o].sendSeq == x[o].sendSeq && y[o].rollers.mine == 0
  {
    hide IsFresh;
  }

  /** Recovery, up to the heartbeat. */
  method GrabNow(m: ConnManager, ori: ConnInfo, c: ConnInfo, raw: nat)
    requires m.Valid() && ori in m.recs && c in m.recs && m.recs[ori].state == Ready && m.recs[c].state == Handshake1
    requires m.recs[ori].peer in m.mp && m.recs[c].peer in m.mp
    modifies m, m.fds, m.clock, m.repr
    ensures m.Valid() && m.repr == old(m.repr) && m.lastClearTime == old(m.lastClearTime)
    ensures old(m.clock.Reading()) <= m.clock.Reading() && ori in m.recs
    ensures m.clock.At() == Clock.Read(old(m.clock.At()), raw)
    ensures m.View() == Grab(Tick(old(m.View()), m.clock.Reading()), ori, c)
    ensures ori in old(m.insides) && ori in m.insides && IsFresh(m.insides[ori].filter)
    ensures m.insides == old(m.insides)[ori := old(m.insides)[ori].(filter := m.insides[ori].filter,
                                                                    rollers := Rollers(0, 0, 0), hbSent := m.insides[ori].hbSent)]
  {
    hide Inv, ConnManager.Valid, ConnManager.Objects, RecOf, InsideOf, IsFresh, FdManager.FdManager.Valid,
         FdManager.FdManager.View, Grab, Clock.Read;
    ghost var t := m.View();
    m.ValidFacts();
    StateMirrored(m, ori);
    StateMirrored(m, c);
    var now := m.CurrentTime(raw);
    TickKeeps(t, now);
    m.GrabConn(ori, c, now);
    GrabbedRec(Tick(t, now), ori, c);
  }

  /** Recovery. */
  method GrabReady(m: ConnManager, ori: ConnInfo, c: ConnInfo, raw: nat) returns (sent: seq<Packet>)
    requires m.Valid() && ori in m.recs && c in m.recs && m.recs[ori].state == Ready && m.recs[c].state == Handshake1
    requires m.recs[ori].peer in m.mp && m.recs[c].peer in m.mp
    modifies m, m.fds, m.clock, m.repr
    ensures m.Valid() && m.repr == old(m.repr) && m.lastClearTime == old(m.lastClearTime)
    ensures old(m.clock.Reading()) <= m.clock.Reading()
    ensures m.View() == Grab(Tick(old(m.View()), m.clock.Reading()), ori, c)
    ensures Restarted(old(m.insides), m.insides, ori) && m.clock.At() == Clock.Read(old(m.clock.At()), raw)
    ensures sent == [Safer(old(m.recs)[c].myId, old(m.recs)[c].oppositeId, old(m.insides)[ori].sendSeq, Heartbeat, 0)]
  {
    hide Inv, ConnManager.Valid, ConnManager.Objects, RecOf, InsideOf, IsFresh, FdManager.FdManager.Valid,
         FdManager.FdManager.View, Grab, Restarted, Clock.Read;
    ghost var t, x := m.View(), m.insides;
    m.ValidFacts();
    NotReadyNoBlob(t, ori);
    GrabNow(m, ori, c, raw);
    ghost var y := m.insides;
    GrabbedRec(Tick(t, m.clock.Reading()), ori, c);
    m.ValidFacts();
    StateMirrored(m, ori);
    var p := m.SendSafer(ori, Heartbeat);
    ResetThenSent(x, y, m.insides, ori);
    sent := [p];
  }

  lemma PromotedRec(t: Table, c: ConnInfo, k: nat, f: nat, fd: int)
    requires c in t.recs
    ensures var r := t.recs[c]; var u := Promote(t, c, k, f, fd);
            c in u.recs && u.recs[c].state == Ready && u.recs[c].myId == r.myId && u.recs[c].oppositeId == r.oppositeId
  {
  }

  lemma GrabbedRec(t: Table, o: ConnInfo, c: ConnInfo)
    requires o in t.recs && c in t.recs && o != c && t.recs[o].peer in t.mp && t.recs[c].peer in t.mp
    ensures var r := t.recs[c]; var u := Grab(t, o, c);
            o in u.recs && u.recs[o].myId == r.myId && u.recs[o].oppositeId == r.oppositeId && u.recs[o].hasBlob == t.recs[o].hasBlob
  {
  }

  // ----- handshake packets -----

  /** A decrypted handshake payload: too short, or three ids. */
  datatype Shake = Short | Ids(first: nat, second: nat, third: nat)

  /** What goes back to the sender of a packet besides channel packets: the ids of a handshake, or a SYN-ACK. */
  datatype Reply = NoReply | SendIds(myId: nat, oppositeId: nat) | SynAck(ackSeq: nat)

  /** The payload is the second handshake of connection `c`. */
  predicate Confirms(t: Table, c: ConnInfo, s: Shake)
    requires c in t.recs
  {
    s.Ids? && s.second != 0 && s.second == t.recs[c].myId
  }

  /** What a handshake payload does to a connection in handshake state. */
  ghost function Shaken(t: Table, c: ConnInfo, s: Shake, f: nat, fd: int): Table
    requires Inv(t) && c in t.recs && t.recs[c].state == Handshake1 && Unissued(t, f)
  {
    if Confirms(t, c, s) then Step(t, Answers(c, s.first, s.third, f, fd)) else t
  }

  ghost predicate ShakenInside(x: Insides, y: Insides, t: Table, c: ConnInfo, s: Shake, firstSeq: nat, sent: seq<Packet>)
    requires c in t.recs
  {
    if Confirms(t, c, s)
    then PreReadyInside(x, y, SetRec(t, c, t.recs[c].(oppositeId := s.first)), c, s.third, firstSeq, sent)
    else y == x && sent == []
  }

  /** `server_on_raw_recv_handshake1` */
  method OnHandshake1(m: ConnManager, c: ConnInfo, s: Shake, timerFd: int, firstSeq: nat, lastClear: int, raw: nat)
    returns (reply: Reply, sent: seq<Packet>, ghost f: nat)
    requires m.Valid() && c in m.recs && m.recs[c].state == Handshake1 && timerFd !in m.fds.fdToFd64
    modifies m, m.fds, m.clock, m.repr
    ensures m.Valid() && old(m.repr) <= m.repr && fresh(m.repr - old(m.repr)) && m.lastClearTime == old(m.lastClearTime)
    ensures old(m.clock.Reading()) <= m.clock.Reading()
    ensures Unissued(old(m.View()), f) && Inv(Tick(old(m.View()), m.clock.Reading()))
    ensures m.View() == Shaken(Tick(old(m.View()), m.clock.Reading()), c, s, f, timerFd)
    ensures ShakenInside(old(m.insides), m.insides, Tick(old(m.View()), m.clock.Reading()), c, s, firstSeq, sent)
    ensures reply == if s.Ids? && s.second == 0 then SendIds(old(m.recs)[c].myId, s.first) else NoReply
  {
    hide Inv, ConnManager.Valid, ConnManager.Objects, PreReady, PreReadyInside, RecOf;
    ghost var t := m.View();
    m.ValidFacts();
    StateMirrored(m, c);
    f := m.fds.counter;
    reply, sent := NoReply, [];
    if s.Ids? {
      if s.second == 0 {
        reply := SendIds(c.myId, s.first);
      } else if s.second == c.myId {
        m.SetOppositeId(c, s.first);
        sent, f := OnPreReady(m, c, s.third, timerFd, firstSeq, lastClear, raw);
      }
    }
    TickKeeps(t, m.clock.Reading());
  }

  /** What a handshake payload leads to: unless it confirms the connection's own id, nothing; if it is turned away, an
  idle connection; otherwise the peer's const id is served at the connection's address, with both ids of the payload, an
  empty window, and a heartbeat on its way. */
  lemma ShakeOutcome(x: Insides, y: Insides, t: Table, c: ConnInfo, s: Shake, firstSeq: nat, f: nat, fd: int, sent: seq<Packet>)
    requires Inv(t) && c in t.recs && t.recs[c].state == Handshake1 && Unissued(t, f)
    requires ShakenInside(x, y, t, c, s, firstSeq, sent)
    ensures var u, r := Shaken(t, c, s, f, fd), t.recs[c];
            if !(s.Ids? && s.second != 0 && s.second == r.myId) then u == t && y == x && sent == []
            else if (if s.third in t.constIdMp
                     then t.constIdMp[s.third] in t.recs && r.lastStateTime < t.recs[t.constIdMp[s.third]].lastStateTime
                     else t.readyNum >= 1000)
            then c in u.recs && u.recs[c].state == Idle && u.constIdMp == t.constIdMp && u.mp == t.mp && y == x && sent == []
            else
              && s.third in u.constIdMp && u.constIdMp[s.third] in u.recs && u.constIdMp[s.third] in y
              && var o := u.constIdMp[s.third];
                && u.recs[o].state == Ready && u.recs[o].myId == r.myId && u.recs[o].oppositeId == s.first
                && r.peer in u.mp && u.mp[r.peer] == o && u.recs[o].lastHbRecvTime == t.now
                && IsFresh(y[o].filter) && y[o].rollers == Rollers(0, 0, 0)
                && |sent| == 1 && sent[0].Safer? && sent[0].from == r.myId && sent[0].to == s.first && sent[0].msg == Heartbeat
                && sent[0].seqNo + 1 == y[o].sendSeq
  {
    hide Inv, PreReady, IsFresh;
    if Confirms(t, c, s) {
      var v := SetRec(t, c, t.recs[c].(oppositeId := s.first));
      IdSetKeeps(t, c, s.first);
      HandshakeOutcome(v, c, s.third, f, fd);
    }
  }

  // ----- messages of a ready connection -----

  /** The clock readings a message was handled at and the number its new descriptor got. */
  datatype Pick = Pick(heard: nat, f: nat, began: nat, after: nat)

  ghost function Told(t: Table, c: ConnInfo, msg: Message, hbMode: nat, fd: int, p: Pick): (u: Table)
    requires c in t.recs
    ensures c in u.recs
  {
    Tick(OnMessage(Tick(t, p.heard), c, msg, hbMode, p.f, fd), p.after)
  }

  /** The conversation of a payload becomes the newest, and is entered first if it is new and there is room. */
  function DeliveredInside(x: Inside, t: Table, c: ConnInfo, conv: nat, fd: int, began: nat, now: nat): Inside
    requires c in t.recs
  {
    if conv in t.recs[c].convs then Touched(x, conv, now)
    else if OpensConv(t, c, Data(conv)) && fd >= 0 then Touched(Started(x, conv, began), conv, now)
    else x
  }

  function ToldInside(x: Inside, t: Table, c: ConnInfo, msg: Message, fd: int, p: Pick): Inside
    requires c in t.recs
  {
    if msg.Data? then DeliveredInside(x, t, c, msg.conv, fd, p.began, p.after) else x
  }

  /** Finds or opens the conversation and sends the payload to its descriptor. */
  method Deliver(m: ConnManager, c: ConnInfo, conv: nat, fd: int, raw1: nat, raw2: nat)
    returns (sent: seq<int>, ghost f: nat, ghost began: nat)
    requires m.Valid() && c in m.recs && m.recs[c].state == Ready && (fd >= 0 ==> fd !in m.fds.fdToFd64)
    modifies m, m.fds, m.clock, m.repr
    ensures m.Valid() && m.repr == old(m.repr) && m.lastClearTime == old(m.lastClearTime)
    ensures old(m.clock.Reading()) <= m.clock.Reading() && Unissued(old(m.View()), f) && c in old(m.insides)
    ensures m.insides == old(m.insides)[c := DeliveredInside(old(m.insides)[c], old(m.View()), c, conv, fd, began, m.clock.Reading())]
    ensures m.View() == Tick(if OpensConv(old(m.View()), c, Data(conv)) && fd >= 0
                             then OpenConv(old(m.View()), c, conv, f, fd) else old(m.View()), m.clock.Reading())
    ensures m.fds.fdToFd64.Keys <= old(m.fds.fdToFd64.Keys) + (if fd >= 0 then {fd} else {})
    ensures Delivered(m, c, conv, sent)
  {
    hide Inv, ConnManager.Valid, ConnManager.Objects, InsideOf, Touched, Started, FdManager.FdManager.Valid,
         FdManager.FdManager.View, AntiReplay.Window.Valid, ConvManager.ConvManager.Valid, L.Lru.Valid, L.Linked,
         OpenConv;
    ghost var t := m.View();
    Seen(m);
    StateMirrored(m, c);
    NotReadyNoBlob(m.View(), c);
    f, began := m.fds.counter, m.clock.Reading();
    sent := [];
    if !c.blob.convs.IsConvUsed(conv) {
      if c.blob.convs.GetSize() >= ConvManager.MAX_CONV_NUM || fd < 0 { return; }
      f := m.OpenNewConv(c, conv, fd, raw1);
      OpenedRec(t, c, conv, f, fd);
      began := m.clock.Reading();
    }
    sent := SendTo(m, c, conv, raw2);
  }

  lemma OpenedRec(t: Table, c: ConnInfo, conv: nat, f: nat, fd: int)
    requires c in t.recs
    ensures var r := OpenConv(t, c, conv, f, fd).recs; c in r && r[c].state == t.recs[c].state && conv in r[c].convs
  {
  }

  /** What was sent went to the conversation's own descriptor, if there is such a conversation. */
  ghost predicate Delivered(m: ConnManager, c: ConnInfo, conv: nat, sent: seq<int>)
    reads m, m.fds
    requires c in m.recs
  {
    if conv in m.recs[c].convs
    then |sent| == 1 && sent[0] in m.fds.fdToFd64 && m.fds.fdToFd64[sent[0]] == m.recs[c].convs[conv]
    else sent == []
  }

  method SendTo(m: ConnManager, c: ConnInfo, conv: nat, raw: nat) returns (sent: seq<int>)
    requires m.Valid() && c in m.recs && m.recs[c].state == Ready && conv in m.recs[c].convs
    modifies m, m.fds, m.clock, m.repr
    ensures m.Valid() && m.repr == old(m.repr) && m.lastClearTime == old(m.lastClearTime)
    ensures old(m.clock.Reading()) <= m.clock.Reading()
    ensures m.View() == Tick(old(m.View()), m.clock.Reading())
    ensures m.fds.fdToFd64 == old(m.fds.fdToFd64) && c in old(m.insides)
    ensures m.insides == old(m.insides)[c := Touched(old(m.insides)[c], conv, m.clock.Reading())]
    ensures Delivered(m, c, conv, sent)
  {
    hide Inv, ConnManager.Valid, ConnManager.Objects, InsideOf, Touched, FdManager.FdManager.Valid,
         FdManager.FdManager.View, AntiReplay.Window.Valid, ConvManager.ConvManager.Valid, L.Lru.Valid, L.Linked,
         OpenConv;
    Seen(m);
    StateMirrored(m, c);
    NotReadyNoBlob(m.View(), c);
    HoldsLive(m.View(), c);
    var fd64 := c.blob.convs.convToData[conv];
    m.TouchConv(c, conv, raw);
    Seen(m);
    sent := [m.fds.ToFd(fd64)];
  }

  /** `last_hb_recv_time = get_current_time()` */
  method Hear(m: ConnManager, c: ConnInfo, raw: nat)
    requires m.Valid() && c in m.recs && m.recs[c].state == Ready
    modifies m, m.clock, m.repr
    ensures m.Valid() && m.repr == old(m.repr) && m.lastClearTime == old(m.lastClearTime) && m.insides == old(m.insides)
    ensures old(m.clock.Reading()) <= m.clock.Reading() && c in m.recs && m.fds.fdToFd64 == old(m.fds.fdToFd64)
    ensures m.recs[c].lastHbRecvTime == m.clock.Reading() && m.clock.At() == Clock.Read(old(m.clock.At()), raw)
    ensures m.View() == SetRec(Tick(old(m.View()), m.clock.Reading()), c, old(m.recs)[c].(lastHbRecvTime := m.clock.Reading()))
  {
    hide Clock.Read, Inv, ConnManager.Valid, ConnManager.Objects, InsideOf, FdManager.FdManager.Valid, FdManager.FdManager.View,
         L.Linked, L.Lru.Valid;
    Seen(m);
    StateMirrored(m, c);
    var now := m.CurrentTime(raw);
    m.SetHeard(c, now);
  }

  /** The time, then the payload. */
  method Handle(m: ConnManager, c: ConnInfo, msg: Message, hbMode: nat, fd: int, raw1: nat, raw2: nat, raw3: nat)
    returns (sent: seq<int>, ghost p: Pick)
    requires m.Valid() && c in m.recs && m.recs[c].state == Ready && (fd >= 0 ==> fd !in m.fds.fdToFd64)
    modifies m, m.fds, m.clock, m.repr
    ensures m.Valid() && m.repr == old(m.repr) && m.lastClearTime == old(m.lastClearTime)
    ensures old(m.clock.Reading()) <= p.heard <= p.after == m.clock.Reading()
    ensures msg == Heartbeat || (msg.Data? && hbMode == 0) ==> p.heard == Clock.Read(old(m.clock.At()), raw1).top / 1000
    ensures Unissued(old(m.View()), p.f) && c in old(m.insides)
    ensures m.insides == old(m.insides)[c := ToldInside(old(m.insides)[c], old(m.View()), c, msg, fd, p)]
    ensures m.View() == Told(old(m.View()), c, msg, hbMode, fd, p)
    ensures m.fds.fdToFd64.Keys <= old(m.fds.fdToFd64.Keys) + (if fd >= 0 then {fd} else {})
    ensures if msg.Data? then Delivered(m, c, msg.conv, sent) else sent == []
  {
    hide Inv, ConnManager.Valid, ConnManager.Objects, Delivered, InsideOf, Touched, Started,
         FdManager.FdManager.Valid, FdManager.FdManager.View, AntiReplay.Window.Valid,
         ConvManager.ConvManager.Valid, L.Lru.Valid, L.Linked, OpenConv, Clock.Read, Told, ToldInside, DeliveredInside;
    ghost var t, x := m.View(), m.insides;
    Seen(m);
    StateMirrored(m, c);
    NotReadyNoBlob(t, c);
    ghost var heard, f, began := m.clock.Reading(), m.fds.counter, m.clock.Reading();
    sent := [];
    if msg == Heartbeat || (msg.Data? && hbMode == 0) {
      Hear(m, c, raw1);
      heard := m.clock.Reading();
    }
    ghost var v := m.View();
    if msg.Data? {
      sent, f, began := Deliver(m, c, msg.conv, fd, raw2, raw3);
    }
    p := Pick(heard, f, began, m.clock.Reading());
    HandledTable(t, v, m.View(), c, msg, hbMode, fd, p);
    HandledInside(x, t, v, m.insides, c, msg, fd, p);
  }

  lemma HandledTable(t: Table, v: Table, u: Table, c: ConnInfo, msg: Message, hbMode: nat, fd: int, p: Pick)
    requires c in t.recs && c in v.recs
    requires v == if msg == Heartbeat || (msg.Data? && hbMode == 0)
                  then SetRec(Tick(t, p.heard), c, t.recs[c].(lastHbRecvTime := p.heard)) else Tick(t, p.heard)
    requires u == if msg.Data?
                  then Tick(if OpensConv(v, c, msg) && fd >= 0 then OpenConv(v, c, msg.conv, p.f, fd) else v, p.after)
                  else Tick(v, p.after)
    ensures u == Told(t, c, msg, hbMode, fd, p)
  {
  }

  lemma HandledInside(x: Insides, t: Table, v: Table, y: Insides, c: ConnInfo, msg: Message, fd: int, p: Pick)
    requires c in x && c in t.recs && c in v.recs && v.recs[c].convs == t.recs[c].convs
    requires y == if msg.Data? then x[c := DeliveredInside(x[c], v, c, msg.conv, fd, p.began, p.after)] else x
    ensures y == x[c := ToldInside(x[c], t, c, msg, fd, p)]
  {
  }

  /** `server_on_raw_recv_ready` */
  method OnReady(m: ConnManager, c: ConnInfo, msg: Message, hbMode: nat, fd: int, raw1: nat, raw2: nat, raw3: nat)
    returns (sent: seq<int>, ghost p: Pick)
    requires m.Valid() && c in m.recs && m.recs[c].state == Ready && (fd >= 0 ==> fd !in m.fds.fdToFd64)
    modifies m, m.fds, m.clock, m.repr
    ensures m.Valid() && m.repr == old(m.repr) && m.lastClearTime == old(m.lastClearTime)
    ensures old(m.clock.Reading()) <= p.heard <= p.after == m.clock.Reading()
    ensures Unissued(old(m.View()), p.f) && c in old(m.insides) && c in m.recs
    ensures msg == Heartbeat || (msg.Data? && hbMode == 0) ==>
              m.recs[c].lastHbRecvTime == p.heard == Clock.Read(old(m.clock.At()), raw1).top / 1000
    ensures msg == Other || (msg.Data? && hbMode != 0) ==> m.recs[c].lastHbRecvTime == old(m.recs)[c].lastHbRecvTime
    ensures MessageDone(old(m.View()), m.View(), c, msg, hbMode, p.f, fd, p.heard)
    ensures Foremost(old(m.insides), StateOf(m), c, msg)
    ensures m.insides == old(m.insides)[c := ToldInside(old(m.insides)[c], old(m.View()), c, msg, fd, p)]
    ensures m.View() == Told(old(m.View()), c, msg, hbMode, fd, p)
    ensures m.fds.fdToFd64.Keys <= old(m.fds.fdToFd64.Keys) + (if fd >= 0 then {fd} else {})
    ensures if msg.Data? then Delivered(m, c, msg.conv, sent) else sent == []
  {
    hide Inv, ConnManager.Valid, ConnManager.Objects, Delivered, Told, ToldInside, Clock.Read, Unissued,
         FdManager.FdManager.View;
    ghost var t, x := m.View(), m.insides;
    sent, p := Handle(m, c, msg, hbMode, fd, raw1, raw2, raw3);
    ToldIsDone(t, x[c], c, msg, hbMode, fd, p);
    assert x[c := x[c]] == x;
  }

  /** The conversation of a payload, if there is one, is the newest; otherwise nothing changed inside. */
  ghost predicate Foremost(x: Insides, u: State, c: ConnInfo, msg: Message) {
    if msg.Data? && c in u.t.recs && msg.conv in u.t.recs[c].convs
    then c in u.ins && u.ins[c].list != [] && u.ins[c].list[0] == L.Entry(msg.conv, u.t.now)
    else u.ins == x
  }

  lemma ToldIsDone(t: Table, x: Inside, c: ConnInfo, msg: Message, hbMode: nat, fd: int, p: Pick)
    requires c in t.recs
    ensures var u := Told(t, c, msg, hbMode, fd, p); var y := ToldInside(x, t, c, msg, fd, p);
            && MessageDone(t, u, c, msg, hbMode, p.f, fd, p.heard)
            && if msg.Data? && msg.conv in u.recs[c].convs
               then y.list != [] && y.list[0] == L.Entry(msg.conv, p.after)
               else y == x
  {
    MessageIsDone(t, c, msg, hbMode, p.f, fd, p.heard, p.after);
    ToldFirst(x, t, c, msg, fd, p);
  }

  /** The conversation of a payload is the newest then. */
  lemma ToldFirst(x: Inside, t: Table, c: ConnInfo, msg: Message, fd: int, p: Pick)
    requires c in t.recs
    ensures var y := ToldInside(x, t, c, msg, fd, p);
            if msg.Data? && (msg.conv in t.recs[c].convs || (|t.recs[c].convs| < 10000 && fd >= 0))
            then y.list != [] && y.list[0] == L.Entry(msg.conv, p.after)
            else y == x
  {
  }

  /** The messages of one packet, in order. */
  ghost function Batch(t: Table, c: ConnInfo, msgs: seq<Message>, hbMode: nat, fds: seq<int>, picks: seq<Pick>): (u: Table)
    requires c in t.recs && |msgs| == |fds| == |picks|
    ensures c in u.recs
    decreases |msgs|
  {
    var n := |msgs| - 1;
    if n < 0 then t else Told(Batch(t, c, msgs[..n], hbMode, fds[..n], picks[..n]), c, msgs[n], hbMode, fds[n], picks[n])
  }

  /** What the messages of one packet do to the inside. */
  ghost function BatchInside(x: Inside, t: Table, c: ConnInfo, msgs: seq<Message>, hbMode: nat, fds: seq<int>,
          picks: seq<Pick>): Inside
    requires c in t.recs && |msgs| == |fds| == |picks|
    decreases |msgs|
  {
    var n := |msgs| - 1;
    if n < 0 then x
    else ToldInside(BatchInside(x, t, c, msgs[..n], hbMode, fds[..n], picks[..n]), Batch(t, c, msgs[..n], hbMode, fds[..n], picks[..n]),
                    c, msgs[n], fds[n], picks[n])
  }

  /** Clock readings do not decrease, and a new descriptor gets a number that was never used. */
  ghost predicate PicksFit(t: Table, c: ConnInfo, msgs: seq<Message>, hbMode: nat, fds: seq<int>, picks: seq<Pick>)
    requires c in t.recs && |msgs| == |fds| == |picks|
    decreases |msgs|
  {
    var n := |msgs| - 1;
    n < 0 || (&& PicksFit(t, c, msgs[..n], hbMode, fds[..n], picks[..n])
              && var u := Batch(t, c, msgs[..n], hbMode, fds[..n], picks[..n]);
                u.now <= picks[n].heard <= picks[n].after && Unissued(u, picks[n].f))
  }

  /** What the kernel may return for sockets and timers: unused descriptors, or failures. */
  ghost predicate Available(m: ConnManager, fds: seq<int>)
    reads m, m.fds
  {
    && (forall i :: 0 <= i < |fds| && fds[i] >= 0 ==> fds[i] !in m.fds.fdToFd64)
    && (forall i, j :: 0 <= i < j < |fds| ==> fds[i] < 0 || fds[i] != fds[j])
  }

  ghost function Positive(fds: seq<int>): set<int> {
    set i | 0 <= i < |fds| && fds[i] >= 0 :: fds[i]
  }

  lemma BatchGrows(t: Table, x: Inside, c: ConnInfo, msgs: seq<Message>, hbMode: nat, fds: seq<int>,
          picks: seq<Pick>, i: nat, p: Pick)
    requires c in t.recs && |msgs| == |fds| && |picks| == i < |msgs|
    ensures var u := Batch(t, c, msgs[..i], hbMode, fds[..i], picks);
            && Batch(t, c, msgs[..i + 1], hbMode, fds[..i + 1], picks + [p]) == Told(u, c, msgs[i], hbMode, fds[i], p)
            && BatchInside(x, t, c, msgs[..i + 1], hbMode, fds[..i + 1], picks + [p])
               == ToldInside(BatchInside(x, t, c, msgs[..i], hbMode, fds[..i], picks), u, c, msgs[i], fds[i], p)
            && (PicksFit(t, c, msgs[..i + 1], hbMode, fds[..i + 1], picks + [p]) <==>
                  PicksFit(t, c, msgs[..i], hbMode, fds[..i], picks) && u.now <= p.heard <= p.after && Unissued(u, p.f))
  {
    hide Told, ToldInside, Unissued;
    assert msgs[..i + 1][..i] == msgs[..i] && fds[..i + 1][..i] == fds[..i] && (picks + [p])[..i] == picks;
  }

  lemma ToldStaysReady(t: Table, c: ConnInfo, msg: Message, hbMode: nat, fd: int, p: Pick)
    requires c in t.recs
    ensures Told(t, c, msg, hbMode, fd, p).recs[c].state == t.recs[c].state
  {
  }

  lemma PositiveNext(fds: seq<int>, i: nat)
    requires i < |fds|
    ensures Positive(fds[..i]) + (if fds[i] >= 0 then {fds[i]} else {}) == Positive(fds[..i + 1])
    ensures Positive(fds[..0]) == {}
  {
    assert forall j :: 0 <= j < i ==> fds[..i][j] == fds[..i + 1][j] == fds[j];
    assert fds[..i + 1][i] == fds[i];
  }

  /** The messages of one packet: the loop over what was parsed. */
  method OnReadyBatch(m: ConnManager, c: ConnInfo, msgs: seq<Message>, hbMode: nat, fds: seq<int>, raws: seq<(nat, nat, nat)>)
    returns (ghost picks: seq<Pick>)
    requires m.Valid() && c in m.recs && m.recs[c].state == Ready && c in m.insides
    requires |msgs| == |fds| == |raws| && Available(m, fds)
    modifies m, m.fds, m.clock, m.repr
    ensures m.Valid() && m.repr == old(m.repr) && m.lastClearTime == old(m.lastClearTime)
    ensures old(m.clock.Reading()) <= m.clock.Reading()
    ensures |picks| == |msgs| && m.View() == Batch(old(m.View()), c, msgs, hbMode, fds, picks)
    ensures m.insides == old(m.insides)[c := BatchInside(old(m.insides)[c], old(m.View()), c, msgs, hbMode, fds, picks)]
    ensures PicksFit(old(m.View()), c, msgs, hbMode, fds, picks)
    ensures m.fds.fdToFd64.Keys <= old(m.fds.fdToFd64.Keys) + Positive(fds)
  {
    hide Inv, ConnManager.Valid, ConnManager.Objects, Delivered, Told, ToldInside, Batch, BatchInside, PicksFit,
         Unissued, Positive;
    picks := [];
    ghost var t, x := m.View(), m.insides[c];
    BatchNone(t, x, c, hbMode);
    assert msgs[..0] == [] && fds[..0] == [];
    for i := 0 to |msgs|
      invariant m.Valid() && m.repr == old(m.repr) && m.lastClearTime == old(m.lastClearTime)
      invariant old(m.clock.Reading()) <= m.clock.Reading()
      invariant c in m.recs && m.recs[c].state == Ready
      invariant forall j :: i <= j < |fds| && fds[j] >= 0 ==> fds[j] !in m.fds.fdToFd64
      invariant |picks| == i && m.View() == Batch(t, c, msgs[..i], hbMode, fds[..i], picks)
      invariant c in m.insides && m.insides == old(m.insides)[c := BatchInside(x, t, c, msgs[..i], hbMode, fds[..i], picks)]
      invariant PicksFit(t, c, msgs[..i], hbMode, fds[..i], picks)
      invariant m.fds.fdToFd64.Keys <= old(m.fds.fdToFd64.Keys) + Positive(fds[..i])
    {
      ghost var u := m.View();
      var sent;
      ghost var p;
      sent, p := OnReady(m, c, msgs[i], hbMode, fds[i], raws[i].0, raws[i].1, raws[i].2);
      ToldStaysReady(u, c, msgs[i], hbMode, fds[i], p);
      BatchGrows(t, x, c, msgs, hbMode, fds, picks, i, p);
      PositiveNext(fds, i);
      picks := picks + [p];
    }
    assert msgs[..|msgs|] == msgs && fds[..|msgs|] == fds;
  }

  lemma BatchNone(t: Table, x: Inside, c: ConnInfo, hbMode: nat)
    requires c in t.recs
    ensures Batch(t, c, [], hbMode, [], []) == t && BatchInside(x, t, c, [], hbMode, [], []) == x
    ensures PicksFit(t, c, [], hbMode, [], []) && Positive([]) == {}
  {
  }

  // ----- packets -----

  /** A packet as the parsers see it: its source, whether it is a TCP SYN and one without data and acknowledgement,
  with its number, what `recv_bare` makes of it (nothing, or a payload), and what `recv_safer_multi` decrypts of it. */
  datatype RawPacket = RawPacket(addr: Address, syn: bool, plainSyn: bool, synSeq: nat, bare: seq<Shake>, batch: seq<Packet>)

  /** The reading after the window was asked, the number of a new timer, the readings of the rollers, and what
  happened to each message. */
  datatype Trace = Trace(at: nat, f: nat, nows: seq<nat>, picks: seq<Pick>)

  function MessagesOf(out: seq<Packet>): (r: seq<Message>)
    requires forall p <- out :: p.Safer?
    ensures |r| == |out|
  {
    seq(|out|, i requires 0 <= i < |out| => assert out[i] in out; out[i].msg)
  }

  /** Does the packet open a connection? */
  predicate Opens(t: Table, p: RawPacket) {
    && !p.syn && p.addr !in t.mp && |t.mp| < MAX_HANDSHAKE_CONN_NUM
    && |p.bare| > 0 && p.bare[0].Ids? && p.bare[0].second == 0
  }

  /** A plain SYN from an address that has no ready connection is acknowledged, unless a dummy socket does it. */
  function SynReply(t: Table, p: RawPacket, dummySocket: bool): Reply {
    var ready := p.addr in t.mp && t.mp[p.addr] in t.recs && t.recs[t.mp[p.addr]].state == Ready;
    if !ready && !dummySocket && p.plainSyn then SynAck((p.synSeq + 1) % U32) else NoReply
  }

  /** A new object, in handshake state with id `myId`, stands at `a`; nothing else changed but the clock. */
  ghost predicate Opened(t: Table, u: Table, a: Address, myId: nat) {
    && t.now <= u.now && a in u.mp && u.mp[a] !in t.recs && u.mp[a] in u.recs
    && var r := u.recs[u.mp[a]];
      && r.state == Handshake1 && !r.hasBlob && r.constId == 0 && r.timer == 0 && r.convs == map[]
      && r.myId == myId && r.peer == a && r.lastStateTime == u.now
      && exists pos: nat :: pos <= |t.order| && u == Admit(Tick(t, u.now), a, u.mp[a], r, pos)
  }

  /** A handshake payload to a connection in handshake state. */
  ghost predicate HandshakeDone(s: State, u: State, c: ConnInfo, h: Shake, g: Given, reply: Reply, sent: seq<Packet>, f: nat)
    requires Inv(s.t) && c in s.t.recs && s.t.recs[c].state == Handshake1
  {
    && s.t.now <= u.t.now && Unissued(s.t, f) && Inv(Tick(s.t, u.t.now))
    && u.t == Shaken(Tick(s.t, u.t.now), c, h, f, g.timerFd)
    && ShakenInside(s.ins, u.ins, Tick(s.t, u.t.now), c, h, g.firstSeq, sent)
    && reply == (if h.Ids? && h.second == 0 then SendIds(s.t.recs[c].myId, h.first) else NoReply)
  }

  /** A packet to a ready connection: the window first, for the whole packet, then the messages one by one. */
  ghost predicate ChannelDone(s: State, u: State, c: ConnInfo, batch: seq<Packet>, hbMode: nat, fds: seq<int>,
          out: seq<Packet>, tr: Trace)
    requires c in s.t.recs
  {
    var r, n, t := s.t.recs[c], |out|, Tick(s.t, tr.at);
    && c in s.ins && s.t.now <= tr.at && |tr.nows| == |tr.picks| == n <= |fds|
    && (forall p <- out :: p.Safer?) && out == Parsed(s.ins[c].filter, r.myId, r.oppositeId, batch).1
    && u.t == Batch(t, c, MessagesOf(out), hbMode, fds[..n], tr.picks)
    && u.ins == s.ins[c := BatchInside(AfterBatch(s.ins[c], r, batch, out, hbMode, tr.nows), t, c, MessagesOf(out), hbMode, fds[..n], tr.picks)]
    && PicksFit(t, c, MessagesOf(out), hbMode, fds[..n], tr.picks)
  }

  ghost predicate Nothing(s: State, u: State, reply: Reply, sent: seq<Packet>, out: seq<Packet>) {
    u == s && reply == NoReply && sent == [] && out == []
  }

  /** The state after a packet, what goes back, and what was delivered: a SYN, a new connection, one step of a
  handshake, or a batch of messages. */
  ghost predicate Received(s: State, u: State, p: RawPacket, hbMode: nat, dummySocket: bool, g: Given,
                           reply: Reply, sent: seq<Packet>, out: seq<Packet>, tr: Trace)
    requires Inv(s.t)
  {
    if p.syn then u == s && sent == [] && out == [] && reply == SynReply(s.t, p, dummySocket)
    else if Opens(s.t, p) then
      Opened(s.t, u.t, p.addr, g.myId) && u.ins == s.ins && sent == [] && out == [] && reply == SendIds(g.myId, p.bare[0].first)
    else if p.addr !in s.t.mp then Nothing(s, u, reply, sent, out)
    else
      AddressedByPeer(s.t, p.addr);
      var c := s.t.mp[p.addr];
      match s.t.recs[c].state
      case Idle => Nothing(s, u, reply, sent, out)
      case Handshake1 =>
        if p.bare == [] then Nothing(s, u, reply, sent, out)
        else HandshakeDone(s, u, c, p.bare[0], g, reply, sent, tr.f) && out == []
      case Ready => ChannelDone(s, u, c, p.batch, hbMode, g.fds, out, tr) && reply == NoReply && sent == []
  }

  /** What a packet leads to, by its source.  A plain SYN of an address without a ready connection is acknowledged by the next
  number, unless a dummy socket does that, and changes nothing.  A first handshake of an unknown address is let in while there
  are fewer than 10000, and answered with a new id and the id it gave; nothing else of an unknown address changes anything. */
  lemma PacketOutcome(s: State, u: State, p: RawPacket, hbMode: nat, dummySocket: bool, g: Given,
                      reply: Reply, sent: seq<Packet>, out: seq<Packet>, tr: Trace)
    requires Inv(s.t) && Received(s, u, p, hbMode, dummySocket, g, reply, sent, out, tr)
    ensures p.syn ==>
              var ready := p.addr in s.t.mp && s.t.mp[p.addr] in s.t.recs && s.t.recs[s.t.mp[p.addr]].state == Ready;
              && u == s && sent == [] && out == []
              && reply == if p.plainSyn && !dummySocket && !ready then SynAck((p.synSeq + 1) % 0x1_0000_0000) else NoReply
    ensures !p.syn && p.addr !in s.t.mp ==>
              if |s.t.mp| < 10000 && p.bare != [] && p.bare[0].Ids? && p.bare[0].second == 0
              then
                && p.addr in u.t.mp && u.t.mp[p.addr] !in s.t.recs && u.t.mp[p.addr] in u.t.recs && |u.t.mp| == |s.t.mp| + 1
                && var r := u.t.recs[u.t.mp[p.addr]];
                  && r.state == Handshake1 && r.peer == p.addr && r.myId == g.myId && r.lastStateTime == u.t.now
                  && u.t.constIdMp == s.t.constIdMp && u.t.fds == s.t.fds && u.ins == s.ins
                  && reply == SendIds(g.myId, p.bare[0].first) && sent == [] && out == []
              else u == s && reply == NoReply && sent == [] && out == []
    ensures !p.syn && p.addr in s.t.mp && s.t.mp[p.addr] in s.t.recs && s.t.recs[s.t.mp[p.addr]].state == Handshake1 && p.bare != [] ==>
              && out == []
              && reply == if p.bare[0].Ids? && p.bare[0].second == 0
                          then SendIds(s.t.recs[s.t.mp[p.addr]].myId, p.bare[0].first) else NoReply
  {
    hide Inv, ChannelDone, Shaken, ShakenInside;
    if Opens(s.t, p) { OpenedGrows(s.t, u.t, p.addr, g.myId); }
  }

  lemma OpenedGrows(t: Table, u: Table, a: Address, myId: nat)
    requires a !in t.mp && Opened(t, u, a, myId)
    ensures |u.mp| == |t.mp| + 1 && u.constIdMp == t.constIdMp && u.fds == t.fds
  {
    assert u.mp == t.mp[a := u.mp[a]];
    assert u.mp.Keys == t.mp.Keys + {a};
  }

  method OpenConn(m: ConnManager, addr: Address, pos: nat, myId: nat, first: nat, raw: nat) returns (reply: Reply)
    requires m.Valid() && addr !in m.mp && |m.mp| < MAX_HANDSHAKE_CONN_NUM && pos <= |m.order|
    modifies m, m.fds, m.clock, m.repr
    ensures m.Valid() && old(m.repr) <= m.repr && fresh(m.repr - old(m.repr)) && m.lastClearTime == old(m.lastClearTime)
    ensures old(m.clock.Reading()) <= m.clock.Reading() && m.insides == old(m.insides)
    ensures Opened(old(m.View()), m.View(), addr, myId) && reply == SendIds(myId, first)
  {
    hide Inv, ConnManager.Valid, ConnManager.Objects, Admit;
    ghost var t := m.View();
    var now := m.CurrentTime(raw);
    var c := m.InsertConn(addr, pos, myId, now);
    reply := SendIds(myId, first);
    assert m.View() == Admit(Tick(t, m.View().now), addr, c, m.recs[c], pos);
    AdmitHas(Tick(t, m.View().now), addr, c, m.recs[c], pos);
    assert c !in t.recs;
  }

  lemma AdmitHas(t: Table, a: Address, c: ConnInfo, r: Rec, pos: nat)
    requires pos <= |t.order|
    ensures var u := Admit(t, a, c, r, pos); a in u.mp && u.mp[a] == c && c in u.recs && u.recs[c] == r
  {
  }

  /** The window first. */
  method ParseNow(m: ConnManager, c: ConnInfo, batch: seq<Packet>, hbMode: nat, g: Given) returns (out: seq<Packet>,
          ghost nows: seq<nat>)
    requires m.Valid() && c in m.recs && m.recs[c].state == Ready
    modifies m, m.fds, m.clock, m.repr
    ensures m.Valid() && m.repr == old(m.repr) && m.lastClearTime == old(m.lastClearTime)
    ensures old(m.clock.Reading()) <= m.clock.Reading() && c in old(m.insides) && m.fds.fdToFd64 == old(m.fds.fdToFd64)
    ensures m.View() == Tick(old(m.View()), m.clock.Reading()) && |nows| == |out| <= |batch|
    ensures var r := old(m.recs)[c];
            && (forall p <- out :: p.Safer?) && out == Parsed(old(m.insides)[c].filter, r.myId, r.oppositeId, batch).1
            && m.insides == old(m.insides)[c := AfterBatch(old(m.insides)[c], r, batch, out, hbMode, nows)]
  {
    hide Inv, ConnManager.Valid, ConnManager.Objects, AfterBatch, Parsed, InsideOf, RecOf, FdManager.FdManager.View,
         FdManager.FdManager.Valid;
    Seen(m);
    StateMirrored(m, c);
    NotReadyNoBlob(m.View(), c);
    out, nows := m.RecvSafer(c, batch, hbMode, seq(|batch|, i requires 0 <= i < |batch| => g.raw(i)));
    ParsedShorter(old(m.insides)[c].filter, m.recs[c].myId, m.recs[c].oppositeId, batch);
  }

  /** The ready branch. */
  method OnChannel(m: ConnManager, c: ConnInfo, batch: seq<Packet>, hbMode: nat, g: Given) returns (out: seq<Packet>,
          ghost tr: Trace)
    requires m.Valid() && c in m.recs && m.recs[c].state == Ready
    requires |batch| == |g.fds| && Available(m, g.fds)
    modifies m, m.fds, m.clock, m.repr
    ensures m.Valid() && m.repr == old(m.repr) && m.lastClearTime == old(m.lastClearTime)
    ensures old(m.clock.Reading()) <= m.clock.Reading()
    ensures ChannelDone(old(StateOf(m)), StateOf(m), c, batch, hbMode, g.fds, out, tr)
  {
    hide Inv, ConnManager.Valid, ConnManager.Objects, Batch, BatchInside, PicksFit, AfterBatch, Parsed, InsideOf, RecOf,
         FdManager.FdManager.View, FdManager.FdManager.Valid;
    ghost var nows;
    out, nows := ParseNow(m, c, batch, hbMode, g);
    ghost var at := m.clock.Reading();
    var n := |batch|;
    var raws := seq(|out|, i requires 0 <= i < |out| => (g.raw(n + 3 * i), g.raw(n + 3 * i + 1), g.raw(n + 3 * i + 2)));
    ghost var picks := OnReadyBatch(m, c, MessagesOf(out), hbMode, g.fds[..|out|], raws);
    tr := Trace(at, 0, nows, picks);
  }

  lemma {:induction false} ParsedShorter(f: AntiReplay.Filter, myId: nat, oppositeId: nat, batch: seq<Packet>)
    ensures |Parsed(f, myId, oppositeId, batch).1| <= |batch|
  {
    if batch != [] { ParsedShorter(f, myId, oppositeId, batch[..|batch| - 1]); }
  }

  /** `server_on_raw_recv_multi` */
  method OnRawRecv(m: ConnManager, p: RawPacket, hbMode: nat, dummySocket: bool, g: Given)
    returns (reply: Reply, sent: seq<Packet>, out: seq<Packet>, ghost tr: Trace)
    requires m.Valid() && |p.batch| == |g.fds| && Available(m, g.fds) && g.timerFd !in m.fds.fdToFd64 && g.pos <= |m.order|
    modifies m, m.fds, m.clock, m.repr
    ensures m.Valid() && old(m.repr) <= m.repr && fresh(m.repr - old(m.repr)) && m.lastClearTime == old(m.lastClearTime)
    ensures old(m.clock.Reading()) <= m.clock.Reading() && Inv(old(m.View()))
    ensures Received(old(StateOf(m)), StateOf(m), p, hbMode, dummySocket, g, reply, sent, out, tr)
  {
    hide Inv, ConnManager.Valid, ConnManager.Objects, Opened, Batch, Shaken, ShakenInside, Available, Parsed, ChannelDone,
         FdManager.FdManager.View, FdManager.FdManager.Valid;
    Seen(m);
    reply, sent, out, tr := NoReply, [], [], Trace(0, 0, [], []);
    if p.syn {
      if p.addr in m.mp { AddressedByPeer(m.View(), p.addr); StateMirrored(m, m.mp[p.addr]); }
      if p.addr !in m.mp || m.mp[p.addr].state != Ready {
        if !dummySocket && p.plainSyn { reply := SynAck((p.synSeq + 1) % U32); }
      }
    } else if p.addr !in m.mp {
      if |m.mp| < MAX_HANDSHAKE_CONN_NUM && |p.bare| > 0 && p.bare[0].Ids? && p.bare[0].second == 0 {
        reply := OpenConn(m, p.addr, g.pos, g.myId, p.bare[0].first, g.raw(0));
      }
    } else {
      AddressedByPeer(m.View(), p.addr);
      var c := m.mp[p.addr];
      StateMirrored(m, c);
      if c.state == Handshake1 {
        if p.bare != [] {
          ghost var f;
          reply, sent, f := OnHandshake1(m, c, p.bare[0], g.timerFd, g.firstSeq, g.lastClear, g.raw(0));
          tr := Trace(0, f, [], []);
        }
      } else if c.state == Ready {
        out, tr := OnChannel(m, c, p.batch, hbMode, g);
      }
    }
  }

  // ----- descriptor events -----

  datatype FdResult = Gone | TimerRan(c: ConnInfo) | FromConv(c: ConnInfo, conv: nat)

  /** The conversations on a list. */
  function Listed(convs: map<nat, nat>, list: seq<L.Entry>): map<nat, nat> {
    map k | k in convs && k in L.Keys(list) :: convs[k]
  }

  /** The readings of a timer: when the cleanup asked, when it had done, and when the heartbeat was considered. */
  datatype Readings = Readings(asked: nat, cleared: nat, checked: nat)

  /** The connection's timer: expired conversations go, and a heartbeat is sent unless the last was just now. */
  ghost predicate TimerDone(s: State, u: State, c: ConnInfo, sent: seq<Packet>, rd: Readings)
    requires c in s.t.recs
  {
    && c in s.ins && c in u.ins && s.t.now <= rd.asked <= rd.cleared <= rd.checked <= u.t.now
    && var r, x, y := s.t.recs[c], s.ins[c], u.ins[c];
      && u.ins == s.ins[c := y] && Cleared(x, x.(list := y.list, lastClear := y.lastClear), rd.asked, rd.cleared)
      && u.t == Tick(DropConvs(s.t, c, Listed(r.convs, y.list)), u.t.now)
      && if (rd.checked - x.hbSent) % ConvManager.U64 < HEARTBEAT_INTERVAL
         then sent == [] && u.t.now == rd.checked && y == x.(list := y.list, lastClear := y.lastClear)
         else sent == [Safer(r.myId, r.oppositeId, x.sendSeq, Heartbeat, x.rollers.mine)]
              && y == x.(list := y.list, lastClear := y.lastClear, sendSeq := x.sendSeq + 1, hbSent := u.t.now)
  }

  /** The cleanup of conversations. */
  method ClearNow(m: ConnManager, c: ConnInfo, g: Given) returns (ghost asked: nat)
    requires m.Valid() && c in m.recs && m.recs[c].state == Ready
    modifies m, m.fds, m.clock, m.repr
    ensures m.Valid() && m.repr == old(m.repr) && m.lastClearTime == old(m.lastClearTime)
    ensures old(m.clock.Reading()) <= asked <= m.clock.Reading() && c in old(m.insides) && c in m.insides
    ensures var x, y := old(m.insides)[c], m.insides[c];
            m.insides == old(m.insides)[c := y] && Cleared(x, y, asked, m.clock.Reading())
    ensures m.View() == Tick(DropConvs(old(m.View()), c, Listed(old(m.recs)[c].convs, m.insides[c].list)), m.clock.Reading())
  {
    hide Inv, ConnManager.Valid, ConnManager.Objects, InsideOf, RecOf, FdManager.FdManager.View,
         FdManager.FdManager.Valid, Cleared, DropConvs;
    ghost var t := m.View();
    Seen(m);
    StateMirrored(m, c);
    NotReadyNoBlob(t, c);
    asked := m.ClearConvs(c, g.raw(0), g.raw(1), g.raw(2));
    ListedIs(t.recs[c].convs, m.recs[c].convs, m.insides[c].list);
  }

  /** The heartbeat. */
  method BeatNow(m: ConnManager, c: ConnInfo, g: Given) returns (sent: seq<Packet>, ghost checked: nat)
    requires m.Valid() && c in m.recs && m.recs[c].state == Ready
    modifies m, m.fds, m.clock, m.repr
    ensures m.Valid() && m.repr == old(m.repr) && m.lastClearTime == old(m.lastClearTime)
    ensures old(m.clock.Reading()) <= checked <= m.clock.Reading() && c in old(m.insides)
    ensures m.View() == Tick(old(m.View()), m.clock.Reading())
    ensures checked == Clock.Read(old(m.clock.At()), g.raw(3)).top / 1000
    ensures var r, x := old(m.recs)[c], old(m.insides)[c];
            if (checked - x.hbSent) % ConvManager.U64 < HEARTBEAT_INTERVAL
            then sent == [] && m.clock.Reading() == checked && m.insides == old(m.insides)
            else sent == [Safer(r.myId, r.oppositeId, x.sendSeq, Heartbeat, x.rollers.mine)]
                 && m.insides == old(m.insides)[c := x.(sendSeq := x.sendSeq + 1, hbSent := m.clock.Reading())]
  {
    hide Clock.Read, Inv, ConnManager.Valid, ConnManager.Objects, InsideOf, RecOf, FdManager.FdManager.View,
         FdManager.FdManager.Valid;
    Seen(m);
    StateMirrored(m, c);
    NotReadyNoBlob(m.View(), c);
    var now := m.CurrentTime(g.raw(3));
    checked, sent := now, [];
    if (now - c.lastHbSentTime) % ConvManager.U64 >= HEARTBEAT_INTERVAL {
      var p := m.SendSafer(c, Heartbeat);
      sent := [p];
      m.StampHeartbeat(c, g.raw(4));
    }
  }

  /** `server_on_timer_multi` */
  method OnTimer(m: ConnManager, c: ConnInfo, g: Given) returns (sent: seq<Packet>, ghost rd: Readings)
    requires m.Valid() && c in m.recs && m.recs[c].state == Ready
    modifies m, m.fds, m.clock, m.repr
    ensures m.Valid() && m.repr == old(m.repr) && m.lastClearTime == old(m.lastClearTime)
    ensures old(m.clock.Reading()) <= m.clock.Reading()
    ensures c in old(m.insides) && old(m.clock.Reading()) <= rd.checked <= m.clock.Reading()
    ensures sent == [] <==> (rd.checked - old(m.insides)[c].hbSent) % 0x1_0000_0000_0000_0000 < 600
    ensures sent != [] ==>
              && sent == [Safer(old(m.recs)[c].myId, old(m.recs)[c].oppositeId, old(m.insides)[c].sendSeq, Heartbeat,
                                old(m.insides)[c].rollers.mine)]
              && c in m.insides && m.insides[c].hbSent == m.clock.Reading()
    ensures TimerDone(old(StateOf(m)), StateOf(m), c, sent, rd)
  {
    hide Inv, ConnManager.Valid, ConnManager.Objects, InsideOf, RecOf, FdManager.FdManager.View,
         FdManager.FdManager.Valid, Cleared, DropConvs;
    ghost var t := m.View();
    ghost var asked := ClearNow(m, c, g);
    ghost var cleared, y := m.clock.Reading(), m.insides[c];
    ClearedIs(old(m.insides)[c], y, asked, cleared);
    DroppedRec(t, c, Listed(t.recs[c].convs, y.list));
    ghost var checked;
    sent, checked := BeatNow(m, c, g);
    rd := Readings(asked, cleared, checked);
  }

  lemma ClearedIs(x: Inside, y: Inside, asked: nat, now: nat)
    requires Cleared(x, y, asked, now)
    ensures y == x.(list := y.list, lastClear := y.lastClear)
  {
  }

  lemma ListedIs(m: map<nat, nat>, n: map<nat, nat>, list: seq<L.Entry>)
    requires n.Keys <= m.Keys && (forall k :: k in n ==> n[k] == m[k]) && n.Keys == L.Keys(list)
    ensures n == Listed(m, list)
  {
  }

  lemma DroppedRec(t: Table, c: ConnInfo, kept: map<nat, nat>)
    requires c in t.recs
    ensures var u := DropConvs(t, c, kept);
            c in u.recs && u.recs[c].state == t.recs[c].state && u.recs[c].myId == t.recs[c].myId && u.recs[c].oppositeId == t.recs[c].oppositeId
  {
  }

  /** Data from a conversation's descriptor goes to the peer, unless receiving failed or there was too much. */
  ghost predicate ConvDone(s: State, u: State, c: ConnInfo, conv: nat, recvLen: int, sent: seq<Packet>)
    requires c in s.t.recs
  {
    && c in s.ins && u.t == s.t
    && var r, x := s.t.recs[c], s.ins[c];
      if 0 <= recvLen <= MAX_DATA_LEN
      then sent == [Safer(r.myId, r.oppositeId, x.sendSeq, Data(conv), x.rollers.mine)] && u.ins == s.ins[c := x.(sendSeq := x.sendSeq + 1)]
      else sent == [] && u.ins == s.ins
  }

  /** `server_on_udp_recv` */
  method OnUdp(m: ConnManager, c: ConnInfo, f: nat, recvLen: int) returns (conv: nat, sent: seq<Packet>)
    requires m.Valid() && c in m.recs && m.recs[c].state == Ready && f in m.recs[c].convs.Values
    modifies m, m.fds, m.clock, m.repr
    ensures m.Valid() && m.repr == old(m.repr) && m.lastClearTime == old(m.lastClearTime)
    ensures conv in old(m.recs)[c].convs && old(m.recs)[c].convs[conv] == f && m.clock.Reading() == old(m.clock.Reading())
    ensures c in old(m.insides)
    ensures sent == if 0 <= recvLen <= 1800
                    then [Safer(old(m.recs)[c].myId, old(m.recs)[c].oppositeId, old(m.insides)[c].sendSeq, Data(conv),
                                old(m.insides)[c].rollers.mine)]
                    else []
    ensures ConvDone(old(StateOf(m)), StateOf(m), c, conv, recvLen, sent)
  {
    hide Inv, ConnManager.Valid, ConnManager.Objects, InsideOf, RecOf, FdManager.FdManager.View,
         FdManager.FdManager.Valid;
    Seen(m);
    StateMirrored(m, c);
    NotReadyNoBlob(m.View(), c);
    ConvOfData(m, c, f);
    conv := c.blob.convs.dataToConv[f];
    sent := [];
    if 0 <= recvLen <= MAX_DATA_LEN {
      var p := m.SendSafer(c, Data(conv));
      sent := [p];
    }
  }

  /** The assertion of `server_on_udp_recv`, and what the map then says. */
  lemma ConvOfData(m: ConnManager, c: ConnInfo, f: nat)
    requires c in m.recs && m.Objects() && c.blob != null && f in m.recs[c].convs.Values
    ensures c.blob.convs.IsDataUsed(f)
    ensures var conv := c.blob.convs.dataToConv[f]; conv in m.recs[c].convs && m.recs[c].convs[conv] == f
  {
    hide ConnManager.Objects;
    m.Unmirror(c);
    m.DataAreValues(c.blob.convs);
  }

  /** The event loop's branch for a 64-bit number: all the assertions on its way hold.  A number that is no longer
  live is left to the loop. */
  method OnFdEvent(m: ConnManager, f: nat, g: Given) returns (res: FdResult, sent: seq<Packet>, ghost rd: Readings)
    requires m.Valid()
    modifies m, m.fds, m.clock, m.repr
    ensures m.Valid() && m.repr == old(m.repr) && m.lastClearTime == old(m.lastClearTime)
    ensures old(m.clock.Reading()) <= m.clock.Reading()
    ensures FdDone(old(StateOf(m)), StateOf(m), f, g.recvLen, res, sent, rd)
  {
    hide Inv, ConnManager.Valid, ConnManager.Objects, TimerDone, ConvDone, FdManager.FdManager.Valid;
    Seen(m);
    sent, rd := [], Readings(0, 0, 0);
    if !m.fds.Exist(f) { return Gone, [], rd; }
    FdOwner(m.View(), f);
    assert f in m.fds.info;
    var c := m.fds.info[f];
    StateMirrored(m, c);
    assert c.state == Ready;
    if f == c.timerFd64 {
      sent, rd := OnTimer(m, c, g);
      res := TimerRan(c);
    } else {
      var conv;
      conv, sent := OnUdp(m, c, f, g.recvLen);
      res := FromConv(c, conv);
    }
  }

  /** An event on the number `f`. */
  ghost predicate FdDone(s: State, u: State, f: nat, recvLen: int, res: FdResult, sent: seq<Packet>, rd: Readings) {
    match res
    case Gone => f !in s.t.fds.live && u == s && sent == []
    case TimerRan(c) =>
      && f in s.t.fds.live && f in s.t.fds.info && s.t.fds.info[f] == c
      && c in s.t.recs && s.t.recs[c].state == Ready && f == s.t.recs[c].timer
      && TimerDone(s, u, c, sent, rd)
    case FromConv(c, conv) =>
      && f in s.t.fds.live && f in s.t.fds.info && s.t.fds.info[f] == c
      && c in s.t.recs && s.t.recs[c].state == Ready && f != s.t.recs[c].timer
      && conv in s.t.recs[c].convs && s.t.recs[c].convs[conv] == f
      && ConvDone(s, u, c, conv, recvLen, sent)
  }

  lemma FdOwner(t: Table, f: nat)
    requires Inv(t) && f in t.fds.live
    ensures FdOk(t, f)
  {
  }
}
