/** One raw connection of the server (`conn_info_t`, `blob_t`). */
module Connection {
  import AntiReplay
  import Clock
  import ConvManager
  import FdManager
  import opened Packets

  datatype Address = Address(ip: nat, port: nat)

  datatype ServerState = Idle | Handshake1 | Ready

  /** The bulky part, allocated only when a connection becomes ready. */
  class Blob {
    const convs: ConvManager.ConvManager<ConnInfo>
    const antiReplay: AntiReplay.Window

    constructor (clock: Clock.Clock, fds: FdManager.FdManager<ConnInfo>, firstSeq: nat, lastClear: int)
      ensures fresh(convs) && fresh(convs.lru) && fresh(antiReplay) && fresh(antiReplay.window)
      ensures convs.Valid() && convs.closer == fds && convs.lru.clock == clock && convs.convToData == map[]
      ensures convs.lru.Contents() == [] && convs.lastClearTime == lastClear
      ensures antiReplay.Valid() && antiReplay.antiReplaySeq == firstSeq
    {
      convs := new ConvManager.ConvManager(clock, fds, lastClear);
      antiReplay := new AntiReplay.Window(firstSeq);
    }
  }

  class ConnInfo {
    var state: ServerState
    var peer: Address            // the source address of the last packet, raw_info.recv_info
    var lastStateTime: nat
    var lastHbSentTime: nat
    var lastHbRecvTime: nat
    var myId: nat
    var oppositeId: nat
    var timerFd64: nat
    var oppositeConstId: nat
    var blob: Blob?
    var myRoller: nat
    var oppositeRoller: nat
    var lastOppositeRollerTime: nat

    ghost function Rolls(): Rollers
      reads this
    {
      Rollers(myRoller, oppositeRoller, lastOppositeRollerTime)
    }

    constructor ()
      ensures state == Idle && blob == null && timerFd64 == 0 && oppositeConstId == 0
      ensures lastStateTime == 0 && Rolls() == Rollers(0, 0, 0)
    {
      blob := null;
      state, lastStateTime, oppositeConstId, timerFd64 := Idle, 0, 0, 0;
      myRoller, oppositeRoller, lastOppositeRollerTime := 0, 0, 0;
    }

    method Prepare(clock: Clock.Clock, fds: FdManager.FdManager<ConnInfo>, firstSeq: nat, lastClear: int)
      requires blob == null
      modifies this`blob
      ensures blob != null && fresh(blob) && fresh(blob.convs) && fresh(blob.convs.lru)
      ensures fresh(blob.antiReplay) && fresh(blob.antiReplay.window) && blob.antiReplay.Valid()
      ensures blob.convs.Valid() && blob.convs.closer == fds && blob.convs.lru.clock == clock
      ensures blob.convs.convToData == map[] && blob.convs.lru.Contents() == [] && blob.convs.lastClearTime == lastClear
      ensures blob.antiReplay.antiReplaySeq == firstSeq
    {
      blob := new Blob(clock, fds, firstSeq, lastClear);
    }

    /** The fields of a connection whose first handshake packet has come. */
    method EnterHandshake1(addr: Address, myId: nat, now: nat)
      modifies this`peer, this`myId, this`state, this`lastStateTime
      ensures peer == addr && this.myId == myId && state == Handshake1 && lastStateTime == now
    {
      peer := addr;
      this.myId := myId;
      state := Handshake1;
      lastStateTime := now;
    }

    /** The fields of a connection that becomes ready; its timer comes last. */
    method EnterReady(clock: Clock.Clock, fds: FdManager.FdManager<ConnInfo>, firstSeq: nat, lastClear: int, constId: nat, now: nat)
      requires blob == null
      modifies this`blob, this`state, this`oppositeConstId, this`lastHbRecvTime, this`lastHbSentTime
      ensures blob != null && fresh(blob) && fresh(blob.convs) && fresh(blob.convs.lru)
      ensures fresh(blob.antiReplay) && fresh(blob.antiReplay.window) && blob.antiReplay.Valid()
      ensures blob.convs.Valid() && blob.convs.closer == fds && blob.convs.lru.clock == clock
      ensures blob.convs.convToData == map[] && blob.convs.lru.Contents() == [] && blob.convs.lastClearTime == lastClear
      ensures blob.antiReplay.antiReplaySeq == firstSeq
      ensures blob.antiReplay.filter == AntiReplay.Fresh(blob.antiReplay.window[0] == 1)
      ensures state == Ready && oppositeConstId == constId && lastHbRecvTime == lastHbSentTime == now
    {
      Prepare(clock, fds, firstSeq, lastClear);
      state := Ready;
      oppositeConstId := constId;
      lastHbRecvTime := now;
      lastHbSentTime := lastHbRecvTime;
      blob.antiReplay.ReInit();
    }

    /** `send_safer` of a ready connection, up to the bytes. */
    method SendSafer(msg: Message) returns (p: Packet)
      requires blob != null && blob.antiReplay.Valid()
      modifies blob.antiReplay`antiReplaySeq
      ensures blob.antiReplay.Valid() && blob.antiReplay.antiReplaySeq == old(blob.antiReplay.antiReplaySeq) + 1
      ensures p == Safer(myId, oppositeId, old(blob.antiReplay.antiReplaySeq), msg, myRoller)
    {
      var seqNo := blob.antiReplay.GetNewSeqForSend();
      p := Safer(myId, oppositeId, seqNo, msg, myRoller);
    }

    /** `recv_safer_multi` of a ready connection, with anti-replay enabled: the packets of a batch that are
        delivered, and the window and the rollers after them. */
    method RecvSafer(batch: seq<Packet>, hbMode: nat, clock: Clock.Clock, raws: seq<nat>) returns (out: seq<Packet>, ghost nows: seq<nat>)
      requires blob != null && blob.antiReplay.Valid() && |raws| == |batch|
      modifies blob.antiReplay`maxPacketReceived, blob.antiReplay`filter, blob.antiReplay.window, clock
      modifies this`myRoller, this`oppositeRoller, this`lastOppositeRollerTime
      ensures blob.antiReplay.Valid() && old(clock.Reading()) <= clock.Reading()
      ensures (blob.antiReplay.filter, out) == Parsed(old(blob.antiReplay.filter), myId, oppositeId, batch)
      ensures |nows| == |out| && Rolls() == RollAll(old(Rolls()), out, hbMode, nows)
    {
      hide AntiReplay.Window.Valid, AntiReplay.Accepts, Roll, RollAll;
      out, nows := [], [];
      assert batch[..0] == [];
      RollNone(Rolls(), hbMode);
      for i := 0 to |batch|
        invariant blob.antiReplay.Valid() && old(clock.Reading()) <= clock.Reading()
        invariant (blob.antiReplay.filter, out) == Parsed(old(blob.antiReplay.filter), myId, oppositeId, batch[..i])
        invariant |nows| == |out| && Rolls() == RollAll(old(Rolls()), out, hbMode, nows)
      {
        assert batch[..i + 1][..i] == batch[..i];
        var h := Header(batch[i]);
        if h.from == oppositeId && h.to == myId {
          var ok := blob.antiReplay.IsValid(h.seqNo, false);
          if ok && batch[i].Safer? {
            ghost var now := RollOn(batch[i], hbMode, clock, raws[i]);
            RollNext(old(Rolls()), out, hbMode, nows, batch[i], now);
            out, nows := out + [batch[i]], nows + [now];
          }
        }
      }
      assert batch[..|batch|] == batch;
    }

    lemma RollNone(r: Rollers, hbMode: nat)
      ensures RollAll(r, [], hbMode, []) == r
    {
    }

    /** The rollers on delivery. */
    method RollOn(p: Packet, hbMode: nat, clock: Clock.Clock, raw: nat) returns (ghost now: nat)
      requires p.Safer?
      modifies this`myRoller, this`oppositeRoller, this`lastOppositeRollerTime, clock
      ensures old(clock.Reading()) <= clock.Reading() && Rolls() == Roll(old(Rolls()), p, hbMode, now)
      ensures p.roller != old(oppositeRoller) ==>
                oppositeRoller == p.roller && clock.At() == Clock.Read(old(clock.At()), raw) && lastOppositeRollerTime == clock.Reading()
      ensures p.roller == old(oppositeRoller) ==>
                oppositeRoller == old(oppositeRoller) && lastOppositeRollerTime == old(lastOppositeRollerTime)
      ensures myRoller == if hbMode == 0 || p.msg == Heartbeat then (old(myRoller) + 1) % 256 else old(myRoller)
    {
      now := 0;
      if p.roller != oppositeRoller {
        oppositeRoller := p.roller;
        lastOppositeRollerTime := clock.CurrentTime(raw);
        now := lastOppositeRollerTime;
      }
      if hbMode == 0 || p.msg == Heartbeat {
        myRoller := (myRoller + 1) % 256;
      }
    }

    /** A ready connection takes over the address, times and ids of the connection that grabs it; its
        conversations, timer and const id stay, and its window starts a new era. */
    method Recover(other: ConnInfo)
      requires other != this && blob != null && blob.antiReplay.Valid()
      modifies this`peer, this`lastStateTime, this`lastHbRecvTime, this`lastHbSentTime, this`myId, this`oppositeId
      modifies this`myRoller, this`oppositeRoller, this`lastOppositeRollerTime
      modifies blob.antiReplay`maxPacketReceived, blob.antiReplay`filter
      ensures peer == other.peer && lastStateTime == other.lastStateTime && lastHbRecvTime == other.lastHbRecvTime
      ensures lastHbSentTime == other.lastHbSentTime && Rolls() == Rollers(0, 0, 0)
      ensures myId == other.myId && oppositeId == other.oppositeId
      ensures blob.antiReplay.Valid()
      ensures blob.antiReplay.filter == AntiReplay.Fresh(blob.antiReplay.window[0] == 1)
    {
      peer := other.peer;
      lastStateTime := other.lastStateTime;
      lastHbRecvTime := other.lastHbRecvTime;
      lastHbSentTime := other.lastHbSentTime;
      myId := other.myId;
      oppositeId := other.oppositeId;
      blob.antiReplay.ReInit();
      myRoller, oppositeRoller, lastOppositeRollerTime := 0, 0, 0;
    }

    /** Recovery as the ready connection sees it: the new session counts as just heard from. */
    method TakeOver(other: ConnInfo, now: nat)
      requires other != this && blob != null && blob.antiReplay.Valid()
      modifies this`peer, this`lastStateTime, this`lastHbRecvTime, this`lastHbSentTime, this`myId, this`oppositeId
      modifies this`myRoller, this`oppositeRoller, this`lastOppositeRollerTime
      modifies blob.antiReplay`maxPacketReceived, blob.antiReplay`filter
      ensures peer == other.peer && lastStateTime == other.lastStateTime && lastHbRecvTime == now
      ensures lastHbSentTime == other.lastHbSentTime && Rolls() == Rollers(0, 0, 0)
      ensures myId == other.myId && oppositeId == other.oppositeId
      ensures blob.antiReplay.Valid()
      ensures blob.antiReplay.filter == AntiReplay.Fresh(blob.antiReplay.window[0] == 1)
    {
      Recover(other);
      lastHbRecvTime := now;
    }

    method GoIdle()
      modifies this`state, this`oppositeConstId
      ensures state == Idle && oppositeConstId == 0
    {
      state := Idle;
      oppositeConstId := 0;
    }
  }
}
