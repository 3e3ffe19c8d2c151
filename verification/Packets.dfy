/** The packets of the tunnel after decryption.  Both kinds go through the same cipher, so a receiver may
read either kind as either; the byte at offset 16 tells them apart. */
module Packets {
  import AntiReplay

  /** The content of a channel packet: 'h', 'd' with at least a conversation number, or a shorter 'd'. */
  datatype Message = Heartbeat | Data(conv: nat) | Other

  /** The random bytes in front of a handshake payload, as the fields a channel packet has there. */
  datatype Junk = Junk(from: nat, to: nat, seqNo: nat)

  datatype Packet =
    | Bare(first: nat, second: nat, third: nat, junk: Junk)
    | Safer(from: nat, to: nat, seqNo: nat, msg: Message, roller: nat)

  /** The three fields `reserved_parse_safer` reads first. */
  function Header(p: Packet): Junk {
    match p
    case Bare(_, _, _, j) => j
    case Safer(from, to, s, _, _) => Junk(from, to, s)
  }

  /** The header passes the check of ids and the window. */
  predicate Passes(f: AntiReplay.Filter, myId: nat, oppositeId: nat, p: Packet) {
    var h := Header(p);
    h.from == oppositeId && h.to == myId && AntiReplay.Accepts(f, h.seqNo)
  }

  /** `reserved_parse_safer` delivers a packet that passes and has type 'h' or 'd'. */
  predicate Delivers(f: AntiReplay.Filter, myId: nat, oppositeId: nat, p: Packet) {
    Passes(f, myId, oppositeId, p) && p.Safer?
  }

  /** The window moves before the type is looked at. */
  function FilterAfter(f: AntiReplay.Filter, myId: nat, oppositeId: nat, p: Packet): AntiReplay.Filter {
    if Passes(f, myId, oppositeId, p) then AntiReplay.Spend(f, Header(p).seqNo) else f
  }

  /** The filter after a batch, and the packets delivered from it. */
  function Parsed(f: AntiReplay.Filter, myId: nat, oppositeId: nat, batch: seq<Packet>): (r: (AntiReplay.Filter, seq<Packet>))
    ensures forall p <- r.1 :: p in batch && p.Safer? && p.from == oppositeId && p.to == myId
  {
    if batch == [] then (f, []) else
    var n := |batch| - 1;
    var (g, out) := Parsed(f, myId, oppositeId, batch[..n]);
    (FilterAfter(g, myId, oppositeId, batch[n]),
     if Delivers(g, myId, oppositeId, batch[n]) then out + [batch[n]] else out)
  }

  /** Distinct sequence numbers. */
  ghost predicate SeqNosDiffer(s: seq<Packet>)
  {
    forall i, j :: 0 <= i < j < |s| ==> Header(s[i]).seqNo != Header(s[j]).seqNo
  }

  /** A batch spends what it delivers: nothing spent before is delivered, and no number twice. */
  lemma {:induction false} ParsedSpends(f: AntiReplay.Filter, myId: nat, oppositeId: nat, batch: seq<Packet>)
    ensures var (g, out) := Parsed(f, myId, oppositeId, batch);
            && f.spent <= g.spent
            && (forall p <- out :: Header(p).seqNo in g.spent && Header(p).seqNo !in f.spent)
            && SeqNosDiffer(out)
  {
    if batch != [] {
      ParsedSpends(f, myId, oppositeId, batch[..|batch| - 1]);
    }
  }

  // ----- rollers -----

  /** `my_roller`, `oppsite_roller` and the time it last changed: a changing roller shows the other end that its
  packets arrive. */
  datatype Rollers = Rollers(mine: nat, theirs: nat, time: nat)

  /** What the delivery of `p` does to them. */
  function Roll(r: Rollers, p: Packet, hbMode: nat, now: nat): Rollers
    requires p.Safer?
  {
    var q := if p.roller != r.theirs then r.(theirs := p.roller, time := now) else r;
    if hbMode == 0 || p.msg == Heartbeat then q.(mine := (q.mine + 1) % 256) else q
  }

  /** The rollers after the deliveries of a batch. */
  function RollAll(r: Rollers, out: seq<Packet>, hbMode: nat, nows: seq<nat>): Rollers
    requires |nows| == |out| && forall p <- out :: p.Safer?
  {
    if out == [] then r else
    var n := |out| - 1;
    Roll(RollAll(r, out[..n], hbMode, nows[..n]), out[n], hbMode, nows[n])
  }

  lemma RollNext(r: Rollers, out: seq<Packet>, hbMode: nat, nows: seq<nat>, p: Packet, now: nat)
    requires |nows| == |out| && p.Safer? && forall q <- out :: q.Safer?
    ensures forall q <- out + [p] :: q.Safer?
    ensures RollAll(r, out + [p], hbMode, nows + [now]) == Roll(RollAll(r, out, hbMode, nows), p, hbMode, now)
  {
    assert (out + [p])[..|out|] == out && (nows + [now])[..|nows|] == nows;
  }

  /** The roller of the packet delivered before the one at `i`. */
  function RollerBefore(r: Rollers, out: seq<Packet>, i: nat): nat
    requires i <= |out| && forall p <- out :: p.Safer?
  {
    if i == 0 then r.theirs else assert out[i - 1] in out; out[i - 1].roller
  }

  /** How many of the packets move the own roller on. */
  function Moves(out: seq<Packet>, hbMode: nat): nat
    requires forall p <- out :: p.Safer?
  {
    if out == [] then 0
    else Moves(out[..|out| - 1], hbMode) + if hbMode == 0 || out[|out| - 1].msg == Heartbeat then 1 else 0
  }

  /** After any deliveries the peer's roller is that of the last packet, and the own one moved once for each heartbeat,
  in mode 0 once for each packet. */
  lemma {:induction false} RollersFollow(r: Rollers, out: seq<Packet>, hbMode: nat, nows: seq<nat>)
    requires |nows| == |out| && r.mine < 256 && forall p <- out :: p.Safer?
    ensures RollAll(r, out, hbMode, nows).theirs == RollerBefore(r, out, |out|)
    ensures RollAll(r, out, hbMode, nows).mine == (r.mine + Moves(out, hbMode)) % 256
  {
    if out != [] {
      var n := |out| - 1;
      RollersFollow(r, out[..n], hbMode, nows[..n]);
      NextRoller(r.mine + Moves(out[..n], hbMode));
    }
  }

  lemma NextRoller(n: nat)
    ensures (n % 256 + 1) % 256 == (n + 1) % 256
  {
  }

  /** The time is that of the last delivery whose roller differed from the one before; without one it stays. */
  lemma {:induction false} RollerTime(r: Rollers, out: seq<Packet>, hbMode: nat, nows: seq<nat>, i: nat)
    requires |nows| == |out| && r.mine < 256 && (forall p <- out :: p.Safer?) && i <= |out|
    requires forall j :: i <= j < |out| ==> out[j].roller == RollerBefore(r, out, j)
    requires i > 0 ==> out[i - 1].roller != RollerBefore(r, out, i - 1)
    ensures RollAll(r, out, hbMode, nows).time == if i == 0 then r.time else nows[i - 1]
  {
    if out != [] {
      var n := |out| - 1;
      RollersFollow(r, out[..n], hbMode, nows[..n]);
      assert RollerBefore(r, out[..n], n) == RollerBefore(r, out, n);
      if i <= n {
        assert forall j :: 0 <= j <= n ==> RollerBefore(r, out[..n], j) == RollerBefore(r, out, j);
        RollerTime(r, out[..n], hbMode, nows[..n], i);
      }
    }
  }
}
