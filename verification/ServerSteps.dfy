/** Every step of the server's connection table keeps its invariant. */
module ServerSteps {
  import opened Connection
  import opened ServerTable
  import FdManager
  import ConvManager

  // ----- framing: a step concerns the connections in `s` and leaves the others alone -----

  ghost predicate SameRecs(t: Table, u: Table, s: set<ConnInfo>) {
    && (forall d :: d in t.recs && d !in s ==> d in u.recs && u.recs[d] == t.recs[d])
    && (forall d :: d in u.recs && d !in s ==> d in t.recs)
  }

  ghost predicate SameMaps(t: Table, u: Table, s: set<ConnInfo>) {
    && (forall a :: a in t.mp && t.mp[a] !in s ==> a in u.mp && u.mp[a] == t.mp[a])
    && (forall k :: k in t.constIdMp && t.constIdMp[k] !in s ==> k in u.constIdMp && u.constIdMp[k] == t.constIdMp[k])
    && (forall k :: k in u.constIdMp && u.constIdMp[k] !in s ==> k in t.constIdMp && u.constIdMp[k] == t.constIdMp[k])
  }

  ghost predicate SameFds(t: Table, u: Table, s: set<ConnInfo>) {
    && (forall f :: f in t.fds.live && f in t.fds.info && t.fds.info[f] !in s ==>
          f in u.fds.live && f in u.fds.info && u.fds.info[f] == t.fds.info[f])
    && (forall f :: f in u.fds.live && !(f in u.fds.info && u.fds.info[f] in s) ==>
          f in t.fds.live && (f in t.fds.info ==> f in u.fds.info && u.fds.info[f] == t.fds.info[f]))
  }

  /** A connection owns what it holds. */
  lemma HoldsWhatItOwns(t: Table, c: ConnInfo, f: nat)
    requires c in t.recs && ConnOk(t, c) && f in Holdings(t.recs[c])
    ensures Owns(t, c, f)
  {
    var r := t.recs[c];
    if f != r.timer { var k :| k in r.convs && r.convs[k] == f; }
  }

  lemma OtherConn(t: Table, u: Table, s: set<ConnInfo>, d: ConnInfo)
    requires Conns(t) && SameRecs(t, u, s) && SameMaps(t, u, s) && SameFds(t, u, s) && t.now <= u.now
    requires d in u.recs && d !in s
    ensures ConnOk(u, d)
  {
    ConnAt(t, d);
    hide Conns;
    var r := t.recs[d];
    if r.state == Ready {
      assert Owns(t, d, r.timer);
      forall k | k in r.convs ensures Owns(u, d, r.convs[k]) { assert Owns(t, d, r.convs[k]); }
    }
  }

  /** Only the connections a step concerns need a look. */
  lemma OthersKeep(t: Table, u: Table, s: set<ConnInfo>)
    requires Conns(t) && Index(t) && Fds(t)
    requires SameRecs(t, u, s) && SameMaps(t, u, s) && SameFds(t, u, s) && t.now <= u.now
    ensures forall d :: d in u.recs && d !in s ==> ConnOk(u, d)
    ensures forall k :: k in u.constIdMp && u.constIdMp[k] !in s ==> IndexOk(u, k)
    ensures forall f :: f in u.fds.live && !(f in u.fds.info && u.fds.info[f] in s) ==> FdOk(u, f)
  {
    forall d | d in u.recs && d !in s ensures ConnOk(u, d) { OtherConn(t, u, s, d); }
    forall k | k in u.constIdMp && u.constIdMp[k] !in s ensures IndexOk(u, k) { OtherIndex(t, u, s, k); }
    forall f | f in u.fds.live && !(f in u.fds.info && u.fds.info[f] in s) ensures FdOk(u, f) { OtherFd(t, u, s, f); }
  }

  lemma OtherIndex(t: Table, u: Table, s: set<ConnInfo>, k: nat)
    requires Index(t) && SameRecs(t, u, s) && SameMaps(t, u, s)
    requires k in u.constIdMp && u.constIdMp[k] !in s
    ensures IndexOk(u, k)
  {
    IndexAt(t, k);
    hide Index;
  }

  lemma OtherFd(t: Table, u: Table, s: set<ConnInfo>, f: nat)
    requires Fds(t) && SameRecs(t, u, s) && SameFds(t, u, s)
    requires f in u.fds.live && !(f in u.fds.info && u.fds.info[f] in s)
    ensures FdOk(u, f)
  {
    FdAt(t, f);
    hide Fds;
  }

  /** Puts the parts of the invariant together. */
  lemma Assemble(t: Table, u: Table, s: set<ConnInfo>)
    requires Inv(t)
    requires SameRecs(t, u, s) && SameMaps(t, u, s) && SameFds(t, u, s) && t.now <= u.now
    requires Concerned(u, s) && FdsBound(u)
    requires InjectiveMp(u.mp) && u.recs.Keys == u.mp.Values && Sizes(u) && OrderOk(u)
    ensures Inv(u)
  {
    OthersKeep(t, u, s);
    hide ConnOk, IndexOk, FdOk, SameRecs, SameMaps, SameFds;
  }

  // ----- how the primitive updates frame -----

  lemma RecFrame(t: Table, u: Table, c: ConnInfo, r: Rec)
    requires u.recs == t.recs[c := r]
    ensures SameRecs(t, u, {c})
  {
  }

  lemma RecGoneFrame(t: Table, u: Table, c: ConnInfo)
    requires u.recs == t.recs - {c}
    ensures SameRecs(t, u, {c})
  {
  }

  lemma MapsFrame(t: Table, u: Table, s: set<ConnInfo>)
    requires u.mp == t.mp && u.constIdMp == t.constIdMp
    ensures SameMaps(t, u, s)
  {
  }

  lemma FdsFrame(t: Table, u: Table, s: set<ConnInfo>)
    requires u.fds == t.fds
    ensures SameFds(t, u, s) && (FdsBound(t) ==> FdsBound(u))
  {
  }

  lemma FdAddFrame(t: Table, u: Table, c: ConnInfo, f: nat, fd: int)
    requires u.fds == FdManager.Table(t.fds.live[f := fd], t.fds.info[f := c], t.fds.issued + {f})
    requires FdsBound(t) && f !in t.fds.issued && f > FdManager.U32_MAX
    ensures SameFds(t, u, {c}) && FdsBound(u)
  {
  }

  lemma FdCloseFrame(t: Table, u: Table, c: ConnInfo, gone: set<nat>)
    requires u.fds == FdManager.Closed(t.fds, gone)
    requires FdsBound(t) && forall g :: g in gone ==> g in t.fds.info && t.fds.info[g] == c
    requires t.fds.live.Keys <= t.fds.info.Keys
    ensures SameFds(t, u, {c}) && FdsBound(u)
  {
  }

  ghost predicate FdsBound(t: Table) {
    && t.fds.info.Keys <= t.fds.live.Keys <= t.fds.issued
    && forall f :: f in t.fds.issued ==> f > FdManager.U32_MAX
  }

  lemma FdsFacts(t: Table)
    requires Fds(t)
    ensures FdsBound(t) && t.fds.live.Keys <= t.fds.info.Keys
  {
    forall f | f in t.fds.live ensures f in t.fds.info { FdAt(t, f); }
  }

  /** The connections in `s`, and what leads to them, are in order. */
  ghost predicate Concerned(t: Table, s: set<ConnInfo>) {
    && (forall c :: c in s && c in t.recs ==> ConnOk(t, c))
    && (forall k :: k in t.constIdMp && t.constIdMp[k] in s ==> IndexOk(t, k))
    && (forall f :: f in t.fds.live && f in t.fds.info && t.fds.info[f] in s ==> FdOk(t, f))
  }

  lemma ConcernedOne(u: Table, c: ConnInfo)
    requires c in u.recs ==> ConnOk(u, c)
    requires forall k :: k in u.constIdMp && u.constIdMp[k] == c ==> IndexOk(u, k)
    requires forall f :: f in u.fds.live && f in u.fds.info && u.fds.info[f] == c ==> FdOk(u, f)
    ensures Concerned(u, {c})
  {
    hide ConnOk, IndexOk, FdOk;
  }

  /** No index and no descriptor leads to a connection that is not ready. */
  lemma Unreferenced(t: Table, c: ConnInfo)
    requires Index(t) && Fds(t) && (c in t.recs ==> t.recs[c].state != Ready)
    ensures forall k :: k in t.constIdMp ==> t.constIdMp[k] != c
    ensures forall f :: f in t.fds.live && f in t.fds.info ==> t.fds.info[f] != c
  {
    hide Index, Fds;
    forall k | k in t.constIdMp ensures t.constIdMp[k] != c { IndexAt(t, k); }
    forall f | f in t.fds.live && f in t.fds.info ensures t.fds.info[f] != c { FdAt(t, f); }
  }

  /** The const-id index of a connection that stays ready under its id. */
  lemma IndexStays(t: Table, u: Table, c: ConnInfo)
    requires Index(t) && u.constIdMp == t.constIdMp && c in t.recs && c in u.recs
    requires u.recs[c].state == t.recs[c].state == Ready && u.recs[c].constId == t.recs[c].constId
    ensures forall k :: k in u.constIdMp && u.constIdMp[k] == c ==> IndexOk(u, k)
  {
    forall k | k in u.constIdMp && u.constIdMp[k] == c ensures IndexOk(u, k) { IndexAt(t, k); }
  }

  // ----- the steps -----

  lemma TickKeeps(t: Table, now: nat)
    requires Inv(t) && t.now <= now
    ensures Inv(Tick(t, now))
  {
    hide Conns, Index, Fds, SameRecs, SameMaps, SameFds, FdsBound, InjectiveMp, OrderOk, Sizes, Injective, Concerned;
    var u := Tick(t, now);
    FdsFacts(t);
    RecFrame0(t, u);
    MapsFrame(t, u, {});
    FdsFrame(t, u, {});
    SizesOrder(t, u);
    ConcernedNone(u);
    Assemble(t, u, {});
  }

  lemma ConcernedNone(u: Table)
    ensures Concerned(u, {})
  {
  }

  lemma RecFrame0(t: Table, u: Table)
    requires u.recs == t.recs
    ensures SameRecs(t, u, {})
  {
  }

  lemma OrderInsert(s: seq<Address>, keys: set<Address>, a: Address, pos: nat)
    requires Lists(s, keys) && a !in keys && pos <= |s|
    ensures Lists(s[..pos] + [a] + s[pos..], keys + {a})
  {
    var r := s[..pos] + [a] + s[pos..];
    assert forall i :: 0 <= i < |r| ==> r[i] == if i < pos then s[i] else if i == pos then a else s[i - 1];
    forall x | x in s ensures x in r {
      var i :| 0 <= i < |s| && s[i] == x;
      assert r[if i < pos then i else i + 1] == x;
    }
    assert r[pos] == a;
  }

  lemma AdmitShape(t: Table, a: Address, c: ConnInfo, r: Rec, pos: nat)
    requires InjectiveMp(t.mp) && t.recs.Keys == t.mp.Values && OrderOk(t) && Sizes(t)
    requires a !in t.mp && c !in t.recs && |t.mp| < MAX_HANDSHAKE_CONN_NUM && pos <= |t.order|
    ensures var u := Admit(t, a, c, r, pos);
            InjectiveMp(u.mp) && u.recs.Keys == u.mp.Values && OrderOk(u) && Sizes(u)
  {
    AdmitInjective(t, a, c);
    AdmitOrder(t, a, c, r, pos);
    hide InjectiveMp, OrderOk, Sizes;
  }

  lemma AdmitOrder(t: Table, a: Address, c: ConnInfo, r: Rec, pos: nat)
    requires OrderOk(t) && Sizes(t)
    requires a !in t.mp && |t.mp| < MAX_HANDSHAKE_CONN_NUM && pos <= |t.order|
    ensures var u := Admit(t, a, c, r, pos); OrderOk(u) && Sizes(u)
  {
    hide Lists;
    assert t.mp[a := c].Keys == t.mp.Keys + {a};
    OrderInsert(t.order, t.mp.Keys, a, pos);
  }

  lemma AdmitInjective(t: Table, a: Address, c: ConnInfo)
    requires InjectiveMp(t.mp) && t.recs.Keys == t.mp.Values && a !in t.mp && c !in t.recs
    ensures InjectiveMp(t.mp[a := c]) && t.mp[a := c].Values == t.recs.Keys + {c}
  {
    ValuesAdd(t.mp, a, c);
    forall x | x in t.mp ensures t.mp[x] in t.recs { assert t.mp[x] in t.mp.Values; }
  }

  lemma AdmitMaps(t: Table, u: Table, a: Address, c: ConnInfo)
    requires u.mp == t.mp[a := c] && u.constIdMp == t.constIdMp && a !in t.mp
    ensures SameMaps(t, u, {c})
  {
  }

  lemma AdmitKeeps(t: Table, a: Address, c: ConnInfo, r: Rec, pos: nat)
    requires Inv(t) && a !in t.mp && c !in t.recs && |t.mp| < MAX_HANDSHAKE_CONN_NUM && pos <= |t.order|
    requires r.state == Handshake1 && !r.hasBlob && r.constId == 0 && r.timer == 0 && r.convs == map[]
    requires r.peer == a && r.lastStateTime <= t.now
    ensures Inv(Admit(t, a, c, r, pos))
  {
    hide Conns, Index, Fds, SameRecs, SameMaps, SameFds, FdsBound, InjectiveMp, OrderOk, Sizes, Injective, Concerned;
    var u := Admit(t, a, c, r, pos);
    FdsFacts(t);
    RecFrame(t, u, c, r);
    AdmitMaps(t, u, a, c);
    FdsFrame(t, u, {c});
    AdmitShape(t, a, c, r, pos);
    Unreferenced(t, c);
    assert ConnOk(u, c);
    ConcernedOne(u, c);
    Assemble(t, u, {c});
  }

  /** Changing a connection that is not ready touches neither the const-id index nor the descriptors. */
  lemma SetRecKeeps(t: Table, c: ConnInfo, r: Rec)
    requires Inv(t) && c in t.recs && t.recs[c].state != Ready
    requires r.state != Ready && !r.hasBlob && r.constId == 0 && r.timer == 0 && r.convs == map[]
    requires r.state != Idle ==> r.peer in t.mp && t.mp[r.peer] == c
    requires r.lastStateTime <= t.now
    ensures Inv(SetRec(t, c, r))
  {
    hide Conns, Index, Fds, SameRecs, SameMaps, SameFds, FdsBound, InjectiveMp, OrderOk, Sizes, Injective, Concerned;
    var u := SetRec(t, c, r);
    FdsFacts(t);
    RecFrame(t, u, c, r);
    MapsFrame(t, u, {c});
    FdsFrame(t, u, {c});
    assert u.recs.Keys == t.recs.Keys;
    Unreferenced(t, c);
    ConcernedOne(u, c);
    SizesOrder(t, u);
    Assemble(t, u, {c});
  }

  /** The id a client announced. */
  lemma IdSetKeeps(t: Table, c: ConnInfo, id: nat)
    requires Inv(t) && c in t.recs && t.recs[c].state == Handshake1
    ensures Inv(SetRec(t, c, t.recs[c].(oppositeId := id)))
  {
    ConnAt(t, c);
    hide Conns, Index, Fds, InjectiveMp, OrderOk, Sizes;
    SetRecKeeps(t, c, t.recs[c].(oppositeId := id));
  }

  lemma SizesOrder(t: Table, u: Table)
    requires Sizes(t) && OrderOk(t) && FdsBound(t)
    requires u.mp.Keys == t.mp.Keys && u.constIdMp == t.constIdMp && u.readyNum == t.readyNum && u.order == t.order && u.cursor == t.cursor
    ensures Sizes(u) && OrderOk(u)
    ensures u.fds == t.fds ==> FdsBound(u)
  {
    assert |u.mp.Keys| == |t.mp.Keys|;
    assert |u.mp| == |u.mp.Keys|;
  }

  lemma RetireKeeps(t: Table, c: ConnInfo)
    requires Inv(t) && c in t.recs && t.recs[c].state == Handshake1
    ensures Inv(Retire(t, c))
  {
    hide Conns, Index, Fds, SameRecs, SameMaps, SameFds, FdsBound, InjectiveMp, OrderOk, Sizes, Injective, Concerned;
    ConnAt(t, c);
    SetRecKeeps(t, c, t.recs[c].(state := Idle, constId := 0));
  }

  /** The indexes and descriptors that lead to `c` stay right while its id and holdings stay. */
  lemma SameRole(t: Table, u: Table, c: ConnInfo)
    requires Conns(t) && Index(t) && Fds(t) && c in t.recs && c in u.recs
    requires t.recs[c].state == u.recs[c].state == Ready && t.recs[c].constId == u.recs[c].constId
    requires t.recs[c].timer == u.recs[c].timer && t.recs[c].convs == u.recs[c].convs
    requires u.constIdMp == t.constIdMp && u.fds == t.fds && t.now <= u.now
    requires u.recs[c].hasBlob && u.recs[c].peer in u.mp && u.mp[u.recs[c].peer] == c
    requires u.recs[c].lastStateTime <= u.now && u.recs[c].lastHbRecvTime <= u.now
    ensures ConnOk(u, c)
    ensures forall k :: k in u.constIdMp && u.constIdMp[k] == c ==> IndexOk(u, k)
    ensures forall f :: f in u.fds.live && f in u.fds.info && u.fds.info[f] == c ==> FdOk(u, f)
  {
    hide Conns, Index, Fds;
    ConnAt(t, c);
    assert Owns(t, c, t.recs[c].timer);
    forall k | k in u.recs[c].convs ensures Owns(u, c, u.recs[c].convs[k]) { assert Owns(t, c, t.recs[c].convs[k]); }
    forall k | k in u.constIdMp && u.constIdMp[k] == c ensures IndexOk(u, k) { IndexAt(t, k); }
    forall f | f in u.fds.live && f in u.fds.info && u.fds.info[f] == c ensures FdOk(u, f) { FdAt(t, f); }
  }

  /** A heartbeat on a ready connection. */
  lemma HeardKeeps(t: Table, c: ConnInfo, heard: nat)
    requires Inv(t) && c in t.recs && t.recs[c].state == Ready && heard <= t.now
    ensures Inv(SetRec(t, c, t.recs[c].(lastHbRecvTime := heard)))
  {
    hide Conns, Index, Fds, SameRecs, SameMaps, SameFds, FdsBound, InjectiveMp, OrderOk, Sizes, Injective, Concerned;
    var r := t.recs[c].(lastHbRecvTime := heard);
    var u := SetRec(t, c, r);
    FdsFacts(t);
    RecFrame(t, u, c, r);
    MapsFrame(t, u, {c});
    FdsFrame(t, u, {c});
    assert u.recs.Keys == t.recs.Keys;
    ConnAt(t, c);
    SameRole(t, u, c);
    SizesOrder(t, u);
    ConcernedOne(u, c);
    Assemble(t, u, {c});
  }

  lemma IndexAddMaps(t: Table, u: Table, c: ConnInfo, k: nat)
    requires u.mp == t.mp && u.constIdMp == t.constIdMp[k := c] && k !in t.constIdMp
    requires u.readyNum == t.readyNum + 1 && t.readyNum < MAX_READY_CONN_NUM && u.order == t.order && u.cursor == t.cursor
    requires Sizes(t) && OrderOk(t)
    ensures SameMaps(t, u, {c}) && Sizes(u) && OrderOk(u)
  {
    assert u.constIdMp.Keys == t.constIdMp.Keys + {k};
  }

  lemma PromoteKeeps(t: Table, c: ConnInfo, k: nat, f: nat, fd: int)
    requires Inv(t) && c in t.recs && t.recs[c].state == Handshake1
    requires k !in t.constIdMp && t.readyNum < MAX_READY_CONN_NUM
    requires f !in t.fds.issued && f > FdManager.U32_MAX
    ensures Inv(Promote(t, c, k, f, fd))
    ensures NonZeroIds(Promote(t, c, k, f, fd)) <==> NonZeroIds(t) && k != 0
  {
    hide Conns, Index, Fds, SameRecs, SameMaps, SameFds, FdsBound, InjectiveMp, OrderOk, Sizes, Injective, Concerned;
    var u := Promote(t, c, k, f, fd);
    FdsFacts(t);
    RecFrame(t, u, c, u.recs[c]);
    IndexAddMaps(t, u, c, k);
    FdAddFrame(t, u, c, f, fd);
    ConnAt(t, c);
    assert u.recs.Keys == t.recs.Keys;
    Unreferenced(t, c);
    EmptyInjective();
    ConcernedOne(u, c);
    Assemble(t, u, {c});
  }

  lemma EmptyInjective()
    ensures Injective(map[])
  {
  }

  lemma GrabMaps(t: Table, u: Table, o: ConnInfo, c: ConnInfo, a: Address, b: Address)
    requires a in t.mp && b in t.mp && t.mp[a] == o && t.mp[b] == c
    requires u.mp == Swap(t.mp, a, b) && u.constIdMp == t.constIdMp
    ensures SameMaps(t, u, {o, c})
  {
  }

  lemma GrabRecs(t: Table, u: Table, o: ConnInfo, c: ConnInfo, r: Rec, q: Rec)
    requires u.recs == t.recs[o := r][c := q]
    ensures SameRecs(t, u, {o, c})
  {
  }

  lemma GrabbedIsIdle(t: Table, u: Table, o: ConnInfo, c: ConnInfo)
    requires Conns(t) && Index(t) && Fds(t) && c in t.recs && t.recs[c].state == Handshake1
    requires u.constIdMp == t.constIdMp && u.fds == t.fds && u.now == t.now
    requires c in u.recs && u.recs[c] == t.recs[c].(state := Idle, constId := 0)
    requires o in u.recs ==> ConnOk(u, o)
    requires forall k :: k in u.constIdMp && u.constIdMp[k] == o ==> IndexOk(u, k)
    requires forall f :: f in u.fds.live && f in u.fds.info && u.fds.info[f] == o ==> FdOk(u, f)
    ensures Concerned(u, {o, c})
  {
    hide Conns, Index, Fds, IndexOk, FdOk;
    Unreferenced(t, c);
    assert ConnOk(u, c) by { ConnAt(t, c); }
  }

  /** Recovery keeps every index right: both objects change places, and the ready one sits under the
      address it was grabbed from, still holding its timer and conversations. */
  lemma GrabKeeps(t: Table, o: ConnInfo, c: ConnInfo)
    requires Inv(t) && o in t.recs && c in t.recs && t.recs[o].state == Ready && t.recs[c].state == Handshake1
    ensures t.recs[o].peer in t.mp && t.recs[c].peer in t.mp && o != c
    ensures t.mp[t.recs[o].peer] == o && t.mp[t.recs[c].peer] == c
    ensures var u := Grab(t, o, c);
            Inv(u) && u.mp[t.recs[c].peer] == o && u.mp[t.recs[o].peer] == c
            && (NonZeroIds(u) <==> NonZeroIds(t)) && Holdings(u.recs[o]) == Holdings(t.recs[o])
  {
    hide Conns, Index, Fds, SameRecs, SameMaps, SameFds, FdsBound, InjectiveMp, OrderOk, Sizes, Injective, Concerned;
    ConnAt(t, o);
    ConnAt(t, c);
    var u := Grab(t, o, c);
    FdsFacts(t);
    ValuesSwap(t.mp, t.recs[o].peer, t.recs[c].peer);
    GrabMaps(t, u, o, c, t.recs[o].peer, t.recs[c].peer);
    GrabRecs(t, u, o, c, u.recs[o], u.recs[c]);
    FdsFrame(t, u, {o, c});
    assert u.recs.Keys == t.recs.Keys;
    SameRole(t, u, o);
    GrabbedIsIdle(t, u, o, c);
    SizesOrder(t, u);
    Assemble(t, u, {o, c});
  }

  lemma AddValue(m: map<nat, nat>, conv: nat, f: nat)
    requires conv !in m && f !in m.Values && Injective(m)
    ensures m[conv := f].Values == m.Values + {f} && Injective(m[conv := f]) && |m[conv := f]| == |m| + 1
  {
    var n := m[conv := f];
    assert n.Keys == m.Keys + {conv};
    forall k, l | k in n && l in n && n[k] == n[l] ensures k == l {
      assert k in m ==> m[k] in m.Values;
      assert l in m ==> m[l] in m.Values;
    }
    hide Injective;
    assert n[conv] == f;
    forall g | g in m.Values ensures g in n.Values { var k :| k in m && m[k] == g; assert n[k] == g; }
  }

  lemma OpenConvConn(t: Table, u: Table, c: ConnInfo, conv: nat, f: nat, fd: int)
    requires c in t.recs && ConnOk(t, c) && t.recs[c].state == Ready && FdsBound(t)
    requires conv !in t.recs[c].convs && |t.recs[c].convs| < ConvManager.MAX_CONV_NUM
    requires f !in t.fds.issued && u == OpenConv(t, c, conv, f, fd)
    ensures ConnOk(u, c)
  {
    var m, n := t.recs[c].convs, u.recs[c].convs;
    OwnsValues(t, c);
    assert Owns(t, c, t.recs[c].timer);
    hide Injective;
    AddValue(m, conv, f);
    forall k | k in n ensures Owns(u, c, n[k]) { if k != conv { assert m[k] in m.Values; } }
  }

  lemma OpenConvFds(t: Table, u: Table, c: ConnInfo, conv: nat, f: nat, fd: int)
    requires Fds(t) && c in t.recs && t.recs[c].state == Ready
    requires conv !in t.recs[c].convs && u == OpenConv(t, c, conv, f, fd)
    ensures forall g :: g in u.fds.live && g in u.fds.info && u.fds.info[g] == c ==> FdOk(u, g)
  {
    hide Fds;
    var m, n := t.recs[c].convs, u.recs[c].convs;
    assert n[conv] == f;
    forall g | g in m.Values ensures g in n.Values { var k :| k in m && m[k] == g; assert n[k] == g; }
    forall g | g in u.fds.live && g in u.fds.info && u.fds.info[g] == c ensures FdOk(u, g) { if g != f { FdAt(t, g); } }
  }

  lemma OpenConvKeeps(t: Table, c: ConnInfo, conv: nat, f: nat, fd: int)
    requires Inv(t) && c in t.recs && t.recs[c].state == Ready
    requires conv !in t.recs[c].convs && |t.recs[c].convs| < ConvManager.MAX_CONV_NUM
    requires f !in t.fds.issued && f > FdManager.U32_MAX
    ensures Inv(OpenConv(t, c, conv, f, fd))
  {
    hide Conns, Index, Fds, SameRecs, SameMaps, SameFds, FdsBound, InjectiveMp, OrderOk, Sizes, ConnOk, FdOk, IndexOk, Concerned;
    var u := OpenConv(t, c, conv, f, fd);
    FdsFacts(t);
    ConnAt(t, c);
    RecFrame(t, u, c, u.recs[c]);
    MapsFrame(t, u, {c});
    FdAddFrame(t, u, c, f, fd);
    assert u.recs.Keys == t.recs.Keys;
    OpenConvConn(t, u, c, conv, f, fd);
    OpenConvFds(t, u, c, conv, f, fd);
    IndexStays(t, u, c);
    ConcernedOne(u, c);
    SizesOrder(t, u);
    Assemble(t, u, {c});
  }

  /** The values a smaller map lost are values of the larger one only. */
  lemma KeptValues(m: map<nat, nat>, kept: map<nat, nat>)
    requires kept.Keys <= m.Keys && (forall k :: k in kept ==> kept[k] == m[k]) && Injective(m)
    ensures kept.Values <= m.Values && Injective(kept) && |kept| <= |m|
  {
    forall g | g in kept.Values ensures g in m.Values { var k :| k in kept && kept[k] == g; assert m[k] == g; }
    assert m.Keys == kept.Keys + (m.Keys - kept.Keys);
  }

  lemma OwnsValues(t: Table, c: ConnInfo)
    requires c in t.recs && t.recs[c].state == Ready && ConnOk(t, c)
    ensures forall g :: g in t.recs[c].convs.Values ==> Owns(t, c, g)
  {
    var m := t.recs[c].convs;
    forall g | g in m.Values ensures Owns(t, c, g) { var k :| k in m && m[k] == g; assert Owns(t, c, m[k]); }
  }

  lemma DropConvsConn(t: Table, u: Table, c: ConnInfo, kept: map<nat, nat>)
    requires c in t.recs && ConnOk(t, c) && t.recs[c].state == Ready
    requires kept.Keys <= t.recs[c].convs.Keys && forall k :: k in kept ==> kept[k] == t.recs[c].convs[k]
    requires u == DropConvs(t, c, kept)
    ensures ConnOk(u, c)
  {
    var m := t.recs[c].convs;
    assert Owns(t, c, t.recs[c].timer) && t.recs[c].timer !in m.Values;
    OwnsValues(t, c);
    KeptValues(m, kept);
    hide Injective;
    forall k | k in kept ensures Owns(u, c, kept[k]) { assert kept[k] in kept.Values; }
  }

  lemma DropConvsFds(t: Table, u: Table, c: ConnInfo, kept: map<nat, nat>)
    requires Fds(t) && c in t.recs && t.recs[c].state == Ready
    requires u == DropConvs(t, c, kept)
    ensures forall g :: g in u.fds.live && g in u.fds.info && u.fds.info[g] == c ==> FdOk(u, g)
  {
    hide Fds;
    forall g | g in u.fds.live && g in u.fds.info && u.fds.info[g] == c ensures FdOk(u, g) { FdAt(t, g); }
  }

  /** Dropping conversations closes their descriptors, all live until then, and no others. */
  lemma DropConvsKeeps(t: Table, c: ConnInfo, kept: map<nat, nat>)
    requires Inv(t) && c in t.recs && t.recs[c].state == Ready
    requires kept.Keys <= t.recs[c].convs.Keys && forall k :: k in kept ==> kept[k] == t.recs[c].convs[k]
    ensures Inv(DropConvs(t, c, kept))
    ensures t.recs[c].convs.Values - kept.Values <= t.fds.live.Keys
  {
    hide Conns, Index, Fds, SameRecs, SameMaps, SameFds, FdsBound, InjectiveMp, OrderOk, Sizes, ConnOk, FdOk, IndexOk, Concerned;
    var u := DropConvs(t, c, kept);
    FdsFacts(t);
    ConnAt(t, c);
    OwnsValues(t, c);
    RecFrame(t, u, c, u.recs[c]);
    MapsFrame(t, u, {c});
    FdCloseFrame(t, u, c, t.recs[c].convs.Values - kept.Values);
    assert u.recs.Keys == t.recs.Keys;
    DropConvsConn(t, u, c, kept);
    DropConvsFds(t, u, c, kept);
    IndexStays(t, u, c);
    ConcernedOne(u, c);
    SizesOrder(t, u);
    Assemble(t, u, {c});
  }

  lemma {:induction false} WithoutKeyElems(s: seq<Address>, a: Address)
    ensures forall x :: x in WithoutKey(s, a) <==> x in s && x != a
  {
    if s != [] {
      WithoutKeyElems(s[1..], a);
      assert s == [s[0]] + s[1..];
    }
  }

  lemma {:induction false} WithoutKeyDistinct(s: seq<Address>, a: Address)
    requires Distinct(s)
    ensures Distinct(WithoutKey(s, a))
  {
    if s != [] {
      var v := WithoutKey(s[1..], a);
      WithoutKeyDistinct(s[1..], a);
      WithoutKeyElems(s[1..], a);
      assert s[0] !in s[1..];
      if s[0] == a { assert [] + v == v; } else { ConsDistinct(s[0], v); }
    }
  }

  lemma ConsDistinct(x: Address, v: seq<Address>)
    requires Distinct(v) && x !in v
    ensures Distinct([x] + v)
  {
  }

  lemma OrderRemove(s: seq<Address>, keys: set<Address>, a: Address)
    requires Lists(s, keys)
    ensures Lists(WithoutKey(s, a), keys - {a})
  {
    WithoutKeyElems(s, a);
    WithoutKeyDistinct(s, a);
  }

  lemma EraseShape(t: Table, a: Address)
    requires InjectiveMp(t.mp) && t.recs.Keys == t.mp.Values && OrderOk(t) && Sizes(t)
    requires a in t.mp && t.mp[a] in t.recs && t.cursor != At(a)
    requires t.recs[t.mp[a]].state == Ready ==> t.recs[t.mp[a]].constId in t.constIdMp
    ensures var u := Erase(t, a);
            InjectiveMp(u.mp) && u.recs.Keys == u.mp.Values && OrderOk(u) && Sizes(u)
  {
    ValuesRemove(t.mp, a);
    assert InjectiveMp(t.mp - {a});
    hide InjectiveMp, OrderOk, Sizes;
    EraseOrder(t, a);
    EraseSizes(t, a);
  }

  lemma EraseOrder(t: Table, a: Address)
    requires OrderOk(t) && a in t.mp && t.mp[a] in t.recs && t.cursor != At(a)
    ensures OrderOk(Erase(t, a))
  {
    hide Lists;
    OrderRemove(t.order, t.mp.Keys, a);
    assert (t.mp - {a}).Keys == t.mp.Keys - {a};
  }

  lemma EraseSizes(t: Table, a: Address)
    requires Sizes(t) && a in t.mp && t.mp[a] in t.recs
    requires t.recs[t.mp[a]].state == Ready ==> t.recs[t.mp[a]].constId in t.constIdMp
    ensures Sizes(Erase(t, a))
  {
    var k := t.recs[t.mp[a]].constId;
    assert (t.mp - {a}).Keys == t.mp.Keys - {a};
    assert (t.constIdMp - {k}).Keys == t.constIdMp.Keys - {k};
  }

  lemma EraseMaps(t: Table, u: Table, a: Address, c: ConnInfo)
    requires a in t.mp && t.mp[a] == c && u.mp == t.mp - {a}
    requires u.constIdMp == t.constIdMp || exists k :: k in t.constIdMp && t.constIdMp[k] == c && u.constIdMp == t.constIdMp - {k}
    ensures SameMaps(t, u, {c})
  {
  }

  /** Erasing closes exactly what the connection holds, all of it live until then, and keeps the rest. */
  lemma EraseKeeps(t: Table, a: Address)
    requires Inv(t) && a in t.mp
    requires t.cursor != At(a)
    ensures t.mp[a] in t.recs
    ensures Inv(Erase(t, a))
    ensures Holdings(t.recs[t.mp[a]]) <= t.fds.live.Keys
    ensures NonZeroIds(t) ==> NonZeroIds(Erase(t, a))
  {
    hide Conns, Index, Fds, SameRecs, SameMaps, SameFds, FdsBound, InjectiveMp, OrderOk, Sizes, Injective, Concerned;
    assert t.mp[a] in t.mp.Values;
    var c, r, u := t.mp[a], t.recs[t.mp[a]], Erase(t, a);
    FdsFacts(t);
    ConnAt(t, c);
    OwnsHoldings(t, c);
    EraseShape(t, a);
    RecGoneFrame(t, u, c);
    EraseMaps(t, u, a, c);
    FdCloseFrame(t, u, c, Holdings(r));
    EraseNoTrace(t, u, a, c);
    ConcernedOne(u, c);
    Assemble(t, u, {c});
  }

  lemma OwnsHoldings(t: Table, c: ConnInfo)
    requires c in t.recs && ConnOk(t, c)
    ensures forall g :: g in Holdings(t.recs[c]) ==> Owns(t, c, g)
  {
    forall g | g in Holdings(t.recs[c]) ensures Owns(t, c, g) { HoldsWhatItOwns(t, c, g); }
  }

  /** Nothing leads to an erased connection any more. */
  lemma EraseNoTrace(t: Table, u: Table, a: Address, c: ConnInfo)
    requires Index(t) && Fds(t) && a in t.mp && t.mp[a] == c && c in t.recs && u == Erase(t, a)
    ensures forall k :: k in u.constIdMp ==> u.constIdMp[k] != c
    ensures forall f :: f in u.fds.live && f in u.fds.info ==> u.fds.info[f] != c
  {
    hide Index, Fds;
    forall k | k in t.constIdMp && t.constIdMp[k] == c ensures t.recs[c].state == Ready && k == t.recs[c].constId { IndexAt(t, k); }
    forall f | f in t.fds.live && f in t.fds.info && t.fds.info[f] == c ensures f in Holdings(t.recs[c]) { FdAt(t, f); }
  }
}
