/** The server's connection table as a value: which connection object every index leads to, and a record
of every live object.  Each server operation is a step on this value, and every step keeps `Inv`. */
module ServerTable {
  import opened Connection
  import FdManager
  import ConvManager

  const MAX_HANDSHAKE_CONN_NUM: nat := 10000
  const MAX_READY_CONN_NUM: nat := 1000
  const RESERVED: nat := 10007
  const CONN_CLEAR_RATIO: nat := 50
  const CONN_CLEAR_MIN: nat := 1
  const SERVER_HANDSHAKE_TIMEOUT: nat := 10000
  const SERVER_CONN_TIMEOUT: nat := 240000

  datatype Rec = Rec(state: ServerState, peer: Address, lastStateTime: nat, lastHbRecvTime: nat,
                     myId: nat, oppositeId: nat, constId: nat, timer: nat, hasBlob: bool, convs: map<nat, nat>)

  /** The cleanup iterator: an element, past the end, or invalidated by a rehash. */
  datatype Cursor = End | At(key: Address) | Dangling

  datatype Table = Table(
    mp: map<Address, ConnInfo>,         // by peer address
    recs: map<ConnInfo, Rec>,           // the live connection objects
    constIdMp: map<nat, ConnInfo>,      // ready connections by the peer's const id
    readyNum: nat,
    fds: FdManager.Table<ConnInfo>,
    order: seq<Address>,                // the iteration order of `mp`
    cursor: Cursor,
    now: nat)                           // the latest clock reading, in ms

  // ----- the invariant -----

  ghost predicate Owns(t: Table, c: ConnInfo, f: nat) {
    f in t.fds.live && f in t.fds.info && t.fds.info[f] == c
  }

  ghost predicate Injective(m: map<nat, nat>) {
    forall k, l :: k in m && l in m && m[k] == m[l] ==> k == l
  }

  /** What a ready connection holds: its timer and one descriptor for every conversation, all different. */
  ghost predicate ReadyOk(t: Table, c: ConnInfo)
    requires c in t.recs
  {
    var r := t.recs[c];
    && r.constId in t.constIdMp && t.constIdMp[r.constId] == c
    && Owns(t, c, r.timer) && r.timer !in r.convs.Values
    && (forall k :: k in r.convs ==> Owns(t, c, r.convs[k]))
    && Injective(r.convs)
    && |r.convs| <= ConvManager.MAX_CONV_NUM
    && r.lastHbRecvTime <= t.now
  }

  ghost predicate ConnOk(t: Table, c: ConnInfo)
    requires c in t.recs
  {
    var r := t.recs[c];
    && (r.state == Ready <==> r.hasBlob)
    && (r.state != Ready ==> r.constId == 0 && r.timer == 0 && r.convs == map[])
    && (r.state != Idle ==> r.peer in t.mp && t.mp[r.peer] == c)
    && (r.state == Ready ==> ReadyOk(t, c))
    && r.lastStateTime <= t.now
  }

  /** Descriptor `f` belongs to a live ready connection, as its timer or as a conversation's descriptor. */
  ghost predicate FdOk(t: Table, f: nat) {
    && f in t.fds.info
    && var c := t.fds.info[f];
       c in t.recs && t.recs[c].state == Ready && (f == t.recs[c].timer || f in t.recs[c].convs.Values)
  }

  ghost predicate IndexOk(t: Table, k: nat)
    requires k in t.constIdMp
  {
    && t.constIdMp[k] in t.recs
    && t.recs[t.constIdMp[k]].state == Ready
    && t.recs[t.constIdMp[k]].constId == k
  }

  ghost predicate Distinct(s: seq<Address>) {
    forall i, j :: 0 <= i < j < |s| ==> s[i] != s[j]
  }

  /** `s` lists the keys once each. */
  ghost predicate Lists(s: seq<Address>, keys: set<Address>) {
    && Distinct(s)
    && (forall a :: a in s <==> a in keys)
  }

  ghost predicate OrderOk(t: Table) {
    && Lists(t.order, t.mp.Keys)
    && t.cursor != Dangling
    && (t.cursor.At? ==> t.cursor.key in t.mp)
  }

  ghost predicate InjectiveMp(m: map<Address, ConnInfo>) {
    forall a, b :: a in m && b in m && m[a] == m[b] ==> a == b
  }

  ghost predicate Conns(t: Table) {
    forall c :: c in t.recs ==> ConnOk(t, c)
  }

  ghost predicate Index(t: Table) {
    forall k :: k in t.constIdMp ==> IndexOk(t, k)
  }

  ghost predicate Fds(t: Table) {
    && (forall f :: f in t.fds.live ==> FdOk(t, f))
    && t.fds.info.Keys <= t.fds.live.Keys <= t.fds.issued
    && (forall f :: f in t.fds.issued ==> f > FdManager.U32_MAX)
  }

  ghost predicate Sizes(t: Table) {
    && t.readyNum == |t.constIdMp| <= MAX_READY_CONN_NUM
    && |t.mp| <= MAX_HANDSHAKE_CONN_NUM
  }

  ghost predicate Inv(t: Table) {
    && InjectiveMp(t.mp)
    && t.recs.Keys == t.mp.Values
    && Conns(t)
    && Index(t)
    && Fds(t)
    && Sizes(t)
    && OrderOk(t)
  }

  /** The peer ids are non-zero; true when no peer ever announced a zero const id. */
  ghost predicate NonZeroIds(t: Table) {
    0 !in t.constIdMp
  }

  // ----- consequences -----

  ghost function ReadyConns(t: Table): set<ConnInfo> {
    set c | c in t.recs && t.recs[c].state == Ready
  }

  lemma {:induction false} ValuesCount(m: map<nat, ConnInfo>)
    requires forall k, l :: k in m && l in m && m[k] == m[l] ==> k == l
    ensures |m.Values| == |m|
    decreases |m|
  {
    if m != map[] {
      var k :| k in m;
      var n := m - {k};
      ValuesCount(n);
      assert m.Values == n.Values + {m[k]} by {
        forall c | c in m.Values ensures c in n.Values + {m[k]} {
          var l :| l in m && m[l] == c;
          assert l == k || (l in n && n[l] == c);
        }
      }
      assert m[k] !in n.Values;
      assert m.Keys == n.Keys + {k};
      assert |m| == |m.Keys| && |n| == |n.Keys|;
    }
  }

  lemma ConnAt(t: Table, c: ConnInfo)
    requires Conns(t) && c in t.recs
    ensures ConnOk(t, c)
  {
  }

  lemma IndexAt(t: Table, k: nat)
    requires Index(t) && k in t.constIdMp
    ensures IndexOk(t, k)
  {
  }

  lemma FdAt(t: Table, f: nat)
    requires Fds(t) && f in t.fds.live
    ensures FdOk(t, f)
  {
  }

  lemma IndexIsReady(t: Table)
    requires Inv(t)
    ensures t.constIdMp.Values == ReadyConns(t)
    ensures forall k, l :: k in t.constIdMp && l in t.constIdMp && t.constIdMp[k] == t.constIdMp[l] ==> k == l
  {
    hide Conns, Index, Fds;
    forall c | c in t.constIdMp.Values ensures c in ReadyConns(t) {
      var k :| k in t.constIdMp && t.constIdMp[k] == c;
      IndexAt(t, k);
    }
    forall c | c in ReadyConns(t) ensures c in t.constIdMp.Values {
      ConnAt(t, c);
      assert t.recs[c].constId in t.constIdMp && t.constIdMp[t.recs[c].constId] == c;
    }
    forall k, l | k in t.constIdMp && l in t.constIdMp && t.constIdMp[k] == t.constIdMp[l] ensures k == l {
      IndexAt(t, k);
      IndexAt(t, l);
    }
  }

  /** `ready_num`, the size of the const-id index and the number of ready connections are one number,
      at most 1000, and the index leads to the one ready connection with each id. */
  lemma ReadyCount(t: Table)
    requires Inv(t)
    ensures t.readyNum == |t.constIdMp| == |ReadyConns(t)| <= MAX_READY_CONN_NUM
    ensures forall c :: c in ReadyConns(t) ==> t.recs[c].constId in t.constIdMp && t.constIdMp[t.recs[c].constId] == c
  {
    hide Conns, Index, Fds;
    IndexIsReady(t);
    ValuesCount(t.constIdMp);
    forall c | c in ReadyConns(t) ensures t.recs[c].constId in t.constIdMp && t.constIdMp[t.recs[c].constId] == c {
      ConnAt(t, c);
    }
  }

  /** Every connection in handshake or ready state sits under its own recorded peer address, and a
      const-id hit is a ready connection under its address: the fatal branches of recovery cannot run. */
  lemma AddressedByPeer(t: Table, a: Address)
    requires Inv(t) && a in t.mp
    ensures t.mp[a] in t.recs
    ensures t.recs[t.mp[a]].state != Idle ==> t.recs[t.mp[a]].peer == a
  {
    hide Conns, Index, Fds;
    assert t.mp[a] in t.mp.Values;
    ConnAt(t, t.mp[a]);
  }

  /** A live descriptor belongs to exactly one ready connection, and there in exactly one role. */
  lemma SoleOwner(t: Table, f: nat, c: ConnInfo, d: ConnInfo)
    requires Inv(t) && f in t.fds.live && c in t.recs && d in t.recs
    requires t.recs[c].state == Ready && (f == t.recs[c].timer || f in t.recs[c].convs.Values)
    requires t.recs[d].state == Ready && (f == t.recs[d].timer || f in t.recs[d].convs.Values)
    ensures c == d && t.fds.info.Keys >= {f} && t.fds.info[f] == c
    ensures !(f == t.recs[c].timer && f in t.recs[c].convs.Values)
  {
    hide Conns, Index, Fds;
    ConnAt(t, c);
    ConnAt(t, d);
    assert Owns(t, c, f) by {
      if f != t.recs[c].timer { var k :| k in t.recs[c].convs && t.recs[c].convs[k] == f; }
    }
    assert Owns(t, d, f) by {
      if f != t.recs[d].timer { var k :| k in t.recs[d].convs && t.recs[d].convs[k] == f; }
    }
  }

  // ----- maps of pointers -----

  lemma ValuesAdd(m: map<Address, ConnInfo>, a: Address, c: ConnInfo)
    requires a !in m
    ensures m[a := c].Values == m.Values + {c}
  {
    var n := m[a := c];
    assert n[a] == c;
    forall d | d in m.Values ensures d in n.Values {
      var b :| b in m && m[b] == d;
      assert n[b] == d;
    }
  }

  lemma ValuesRemove(m: map<Address, ConnInfo>, a: Address)
    requires a in m && InjectiveMp(m)
    ensures (m - {a}).Values == m.Values - {m[a]}
  {
    var n := m - {a};
    forall d | d in m.Values - {m[a]} ensures d in n.Values {
      var b :| b in m && m[b] == d;
      assert n[b] == d;
    }
  }

  function Swap(m: map<Address, ConnInfo>, a: Address, b: Address): map<Address, ConnInfo>
    requires a in m && b in m
  {
    m[a := m[b]][b := m[a]]
  }

  lemma ValuesSwap(m: map<Address, ConnInfo>, a: Address, b: Address)
    requires a in m && b in m && InjectiveMp(m)
    ensures Swap(m, a, b).Values == m.Values && Swap(m, a, b).Keys == m.Keys && InjectiveMp(Swap(m, a, b))
  {
    var n := Swap(m, a, b);
    assert n[a] == m[b] && n[b] == m[a];
    forall d | d in m.Values ensures d in n.Values {
      var x :| x in m && m[x] == d;
      assert n[if x == a then b else if x == b then a else x] == d;
    }
  }

  // ----- the steps -----

  function SetRec(t: Table, c: ConnInfo, r: Rec): Table {
    t.(recs := t.recs[c := r])
  }

  /** The clock moves on. */
  function Tick(t: Table, now: nat): Table {
    t.(now := now)
  }

  /** `mp[addr] = new conn_info_t`, with the state the handshake code gives it.  The new key may land
      anywhere in the iteration order; an insertion beyond the reserved size rehashes. */
  function Admit(t: Table, a: Address, c: ConnInfo, r: Rec, pos: nat): Table
    requires pos <= |t.order|
  {
    t.(mp := t.mp[a := c], recs := t.recs[c := r],
       order := t.order[..pos] + [a] + t.order[pos..],
       cursor := if |t.mp| + 1 > RESERVED then Dangling else t.cursor)
  }

  /** A handshake that cannot become ready. */
  function Retire(t: Table, c: ConnInfo): Table
    requires c in t.recs
  {
    SetRec(t, c, t.recs[c].(state := Idle, constId := 0))
  }

  /** First connection of a const id: it becomes ready and gets a timer. */
  function Promote(t: Table, c: ConnInfo, k: nat, f: nat, fd: int): Table
    requires c in t.recs
  {
    var r := t.recs[c].(state := Ready, constId := k, timer := f, hasBlob := true, convs := map[], lastHbRecvTime := t.now);
    t.(recs := t.recs[c := r], constIdMp := t.constIdMp[k := c], readyNum := t.readyNum + 1,
       fds := FdManager.Table(t.fds.live[f := fd], t.fds.info[f := c], t.fds.issued + {f}))
  }

  /** Recovery: the ready connection `o` takes the place and the session of `c`, which goes idle at `o`'s
      old address. */
  function Grab(t: Table, o: ConnInfo, c: ConnInfo): Table
    requires o in t.recs && c in t.recs && t.recs[o].peer in t.mp && t.recs[c].peer in t.mp
  {
    var ro, rc := t.recs[o], t.recs[c];
    var no := ro.(peer := rc.peer, lastStateTime := rc.lastStateTime, lastHbRecvTime := t.now,
                  myId := rc.myId, oppositeId := rc.oppositeId);
    t.(mp := Swap(t.mp, ro.peer, rc.peer), recs := t.recs[o := no][c := rc.(state := Idle, constId := 0)])
  }

  /** A new conversation with its own descriptor. */
  function OpenConv(t: Table, c: ConnInfo, conv: nat, f: nat, fd: int): Table
    requires c in t.recs
  {
    t.(recs := t.recs[c := t.recs[c].(convs := t.recs[c].convs[conv := f])],
       fds := FdManager.Table(t.fds.live[f := fd], t.fds.info[f := c], t.fds.issued + {f}))
  }

  /** Conversations expire: only `kept` remain and the descriptors of the others are closed. */
  function DropConvs(t: Table, c: ConnInfo, kept: map<nat, nat>): Table
    requires c in t.recs
  {
    t.(recs := t.recs[c := t.recs[c].(convs := kept)],
       fds := FdManager.Closed(t.fds, t.recs[c].convs.Values - kept.Values))
  }

  /** The descriptors a connection holds. */
  function Holdings(r: Rec): set<nat> {
    if r.state == Ready then {r.timer} + r.convs.Values else {}
  }

  function WithoutKey(s: seq<Address>, a: Address): seq<Address> {
    if s == [] then [] else (if s[0] == a then [] else [s[0]]) + WithoutKey(s[1..], a)
  }

  /** Deletes the connection at `a`, closing exactly what it holds. */
  function Erase(t: Table, a: Address): Table
    requires a in t.mp && t.mp[a] in t.recs
  {
    var c, r := t.mp[a], t.recs[t.mp[a]];
    t.(mp := t.mp - {a}, recs := t.recs - {c},
       constIdMp := if r.state == Ready then t.constIdMp - {r.constId} else t.constIdMp,
       readyNum := if r.state == Ready && t.readyNum > 0 then t.readyNum - 1 else t.readyNum,
       fds := FdManager.Closed(t.fds, Holdings(r)),
       order := WithoutKey(t.order, a))
  }
}
