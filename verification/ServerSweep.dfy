/** The server's incremental cleanup (`conn_manager_t::clear_inactive0`) as a function of the table: from a
saved iterator it visits a few entries in cyclic order and erases the timed-out ones. */
module ServerSweep {
  import opened Connection
  import opened ServerTable
  import opened ServerSteps
  import FdManager

  /** What the cleanup erases: a connection that timed out in its state and has no conversations. */
  predicate Expired(t: Table, a: Address)
    requires a in t.mp && t.mp[a] in t.recs
  {
    var r := t.recs[t.mp[a]];
    if r.state == Ready && t.now <= r.lastHbRecvTime + SERVER_CONN_TIMEOUT then false
    else if r.state != Ready && t.now <= r.lastStateTime + SERVER_HANDSHAKE_TIMEOUT then false
    else !(r.hasBlob && |r.convs| > 0)
  }

  function Quota(size: nat): nat {
    var n := size / CONN_CLEAR_RATIO + CONN_CLEAR_MIN;
    if n < size then n else size
  }

  /** How many entries a pass looks at: one more than the whole fiftieths, if there are any. */
  lemma QuotaIs(size: nat)
    ensures Quota(size) <= size && (size > 0 ==> 50 * (Quota(size) - 1) <= size < 50 * Quota(size))
  {
    assert size == 50 * (size / 50) + size % 50;
  }

  // ----- the loop over the iteration order -----

  function IndexOf(s: seq<Address>, a: Address): (i: nat)
    requires a in s
    ensures i < |s| && s[i] == a
  {
    if s[0] == a then 0 else 1 + IndexOf(s[1..], a)
  }

  /** The order in which a loop starting at the iterator sees the entries, wrapping around once. */
  function Rotation(s: seq<Address>, it: Cursor): seq<Address>
    requires it.At? ==> it.key in s
  {
    if it.At? then var i := IndexOf(s, it.key); s[i..] + s[..i] else s
  }

  /** `it++` */
  function Next(s: seq<Address>, a: Address): Cursor
    requires a in s
  {
    var i := IndexOf(s, a);
    if i + 1 < |s| then At(s[i + 1]) else End
  }

  /** One turn of the loop at entry `a`. */
  function Turn(t: Table, a: Address): Table
    requires a in t.mp && t.mp[a] in t.recs && a in t.order
  {
    var u := t.(cursor := Next(t.order, a));
    if Expired(t, a) then Erase(u, a) else u
  }

  /** The entry the loop looks at: `it`, or the first one when `it` is at the end. */
  function Current(t: Table): Address
    requires t.order != []
  {
    if t.cursor.At? then t.cursor.key else t.order[0]
  }

  lemma {:induction false} IndexOfUnique(s: seq<Address>, i: nat)
    requires Distinct(s) && i < |s|
    ensures IndexOf(s, s[i]) == i
  {
    var j := IndexOf(s, s[i]);
    assert s[j] == s[i];
  }

  lemma {:induction false} WithoutKeyIsRemoval(s: seq<Address>, i: nat)
    requires Distinct(s) && i < |s|
    ensures WithoutKey(s, s[i]) == s[..i] + s[i + 1..]
    decreases |s|
  {
    if i == 0 {
      assert s[0] !in s[1..];
      WithoutKeyAbsent(s[1..], s[0]);
      assert s[..0] + s[1..] == s[1..];
    } else {
      assert s[0] != s[i];
      WithoutKeyIsRemoval(s[1..], i - 1);
      assert s[..i] + s[i + 1..] == [s[0]] + (s[1..][..i - 1] + s[1..][i..]);
    }
  }

  lemma {:induction false} WithoutKeyAbsent(s: seq<Address>, a: Address)
    requires a !in s
    ensures WithoutKey(s, a) == s
  {
    if s != [] {
      assert s == [s[0]] + s[1..];
      WithoutKeyAbsent(s[1..], a);
    }
  }

  lemma RemovalDistinct(s: seq<Address>, i: nat)
    requires Distinct(s) && i < |s|
    ensures Distinct(s[..i] + s[i + 1..])
  {
    var r := s[..i] + s[i + 1..];
    forall j, k | 0 <= j < k < |r| ensures r[j] != r[k] {
      assert r[j] == s[if j < i then j else j + 1] && r[k] == s[if k < i then k else k + 1];
    }
  }

  /** Rotating by one entry. */
  lemma RotateKeep(s: seq<Address>, i: nat)
    requires Distinct(s) && i < |s|
    ensures var rot := s[i..] + s[..i];
            && rot[0] == s[i] && |rot| == |s|
            && (Next(s, s[i]).At? ==> Next(s, s[i]).key in s)
            && Rotation(s, Next(s, s[i])) == rot[1..] + [rot[0]]
  {
    var rot := s[i..] + s[..i];
    IndexOfUnique(s, i);
    if i + 1 < |s| {
      IndexOfUnique(s, i + 1);
      hide Distinct;
      assert s[i + 1..] + s[..i + 1] == rot[1..] + [rot[0]];
    } else {
      hide Distinct;
      assert s == rot[1..] + [rot[0]];
    }
  }

  /** Rotating by one entry and removing it. */
  lemma RotateRemove(s: seq<Address>, i: nat)
    requires Distinct(s) && i < |s|
    ensures var rot := s[i..] + s[..i]; var r := s[..i] + s[i + 1..];
            && (Next(s, s[i]).At? ==> Next(s, s[i]).key in r && Next(s, s[i]).key != s[i])
            && Rotation(r, Next(s, s[i])) == rot[1..]
  {
    var rot, r := s[i..] + s[..i], s[..i] + s[i + 1..];
    IndexOfUnique(s, i);
    RemovalDistinct(s, i);
    if i + 1 < |s| {
      assert s[i] != s[i + 1];
      assert r[i] == s[i + 1];
      IndexOfUnique(r, i);
      hide Distinct;
      assert r[i..] == s[i + 1..] && r[..i] == s[..i];
      assert r[i..] + r[..i] == rot[1..];
    } else {
      hide Distinct;
      assert r == rot[1..];
    }
  }

  ghost function Rot(t: Table): seq<Address>
    requires OrderOk(t)
  {
    Rotation(t.order, t.cursor)
  }

  /** A turn keeps the invariant and moves the entry it looked at to the back, or out. */
  lemma TurnFacts(t: Table)
    requires Inv(t) && t.order != []
    ensures var a := Current(t); a in t.mp && t.mp[a] in t.recs && a in t.order
    ensures var a, u := Current(t), Turn(t, Current(t));
            && Inv(u) && |Rot(t)| == |t.order| && Rot(t)[0] == a
            && Rot(u) == Rot(t)[1..] + (if Expired(t, a) then [] else [a])
            && (NonZeroIds(t) ==> NonZeroIds(u))
  {
    hide Conns, Index, Fds, InjectiveMp, Sizes, NonZeroIds, Distinct, Expired, Rotation;
    var a := Current(t);
    assert t.order[0] in t.order;
    assert t.mp[a] in t.mp.Values;
    RotHead(t.order, t.cursor);
    var i := IndexOf(t.order, a);
    RotateKeep(t.order, i);
    var it := Next(t.order, a);
    var v := t.(cursor := it);
    CursorKeeps(t, it);
    SameIds(t, v);
    if Expired(t, a) {
      hide OrderOk;
      TurnErases(t, v, a, i);
    }
  }

  lemma TurnErases(t: Table, v: Table, a: Address, i: nat)
    requires i < |t.order| && t.order[i] == a && a in t.mp && t.mp[a] in t.recs
    requires OrderOk(t) && v == t.(cursor := Next(t.order, a)) && Inv(v)
    requires Rot(t) == t.order[i..] + t.order[..i]
    ensures Inv(Erase(v, a)) && Rot(Erase(v, a)) == Rot(t)[1..] == Rot(t)[1..] + []
    ensures NonZeroIds(v) ==> NonZeroIds(Erase(v, a))
  {
    hide Conns, Index, Fds, InjectiveMp, Sizes, NonZeroIds, Rotation;
    RotateRemove(t.order, i);
    WithoutKeyIsRemoval(t.order, i);
    EraseKeeps(v, a);
  }

  /** The loop looks at the head of the rotation. */
  lemma RotHead(s: seq<Address>, it: Cursor)
    requires Distinct(s) && s != [] && it != Dangling && (it.At? ==> it.key in s)
    ensures var a := if it.At? then it.key else s[0];
            && a in s && Rotation(s, it) == s[IndexOf(s, a)..] + s[..IndexOf(s, a)]
  {
    IndexOfUnique(s, 0);
    assert s[0..] + s[..0] == s;
  }

  lemma SameIds(t: Table, u: Table)
    requires t.constIdMp == u.constIdMp
    ensures NonZeroIds(t) <==> NonZeroIds(u)
  {
  }

  lemma CursorKeeps(t: Table, it: Cursor)
    requires Inv(t) && it != Dangling && (it.At? ==> it.key in t.mp)
    ensures Inv(t.(cursor := it))
  {
    hide Conns, Index, Fds, SameRecs, SameMaps, SameFds, FdsBound, InjectiveMp, Concerned, Lists;
    var u := t.(cursor := it);
    FdsFacts(t);
    RecFrame0(t, u);
    MapsFrame(t, u, {});
    FdsFrame(t, u, {});
    ConcernedNone(u);
    Assemble(t, u, {});
  }

  /** `n` turns of the loop; it also stops when the table is empty. */
  ghost function Sweep(t: Table, n: nat): Table
    requires Inv(t)
    decreases n
  {
    if n == 0 || t.order == [] then t else
    TurnFacts(t);
    Sweep(Turn(t, Current(t)), n - 1)
  }

  // ----- what a sweep does to the table -----

  /** The timed-out entries among some. */
  ghost function Victims(t: Table, seen: seq<Address>): (s: set<Address>)
    requires forall a <- seen :: a in t.mp && t.mp[a] in t.recs
    ensures forall a <- s :: a in seen
  {
    set a | a in seen && Expired(t, a)
  }

  ghost function HeldBy(t: Table, s: set<Address>): set<nat>
    requires forall a <- s :: a in t.mp && t.mp[a] in t.recs
  {
    set a, f | a in s && f in Holdings(t.recs[t.mp[a]]) :: f
  }

  lemma RotLists(t: Table)
    requires Inv(t)
    ensures |Rot(t)| == |t.order| && Distinct(Rot(t))
    ensures forall a :: a in Rot(t) <==> a in t.mp
    ensures forall a :: a in t.mp ==> t.mp[a] in t.recs
  {
    hide Conns, Index, Fds, InjectiveMp, Sizes;
    forall a | a in t.mp ensures t.mp[a] in t.recs { assert t.mp[a] in t.mp.Values; }
    if t.cursor.At? {
      var i := IndexOf(t.order, t.cursor.key);
      RotatedLists(t.order, i);
    }
  }

  lemma RotatedLists(s: seq<Address>, i: nat)
    requires Distinct(s) && i <= |s|
    ensures Distinct(s[i..] + s[..i]) && forall a :: a in s[i..] + s[..i] <==> a in s
  {
    var r := s[i..] + s[..i];
    forall j, k | 0 <= j < k < |r| ensures r[j] != r[k] {
      var j' := if j < |s| - i then j + i else j - (|s| - i);
      var k' := if k < |s| - i then k + i else k - (|s| - i);
      assert r[j] == s[j'] && r[k] == s[k'];
    }
    assert s == s[..i] + s[i..];
  }

  /** Every connection of `v` is in `t` too, with the same record. */
  ghost predicate Agrees(t: Table, v: Table) {
    && t.now == v.now
    && forall b :: b in v.mp ==> b in t.mp && t.mp[b] in t.recs && v.mp[b] in v.recs && v.recs[v.mp[b]] == t.recs[t.mp[b]]
  }

  lemma EraseEffect(t: Table, a: Address)
    requires InjectiveMp(t.mp) && t.recs.Keys == t.mp.Values && a in t.mp && t.mp[a] in t.recs
    ensures Agrees(t, Erase(t, a))
  {
    forall b | b in t.mp ensures t.mp[b] in t.recs { assert t.mp[b] in t.mp.Values; }
  }

  lemma TurnEffect(t: Table, a: Address)
    requires Inv(t) && a in t.mp && t.mp[a] in t.recs && a in t.order
    ensures var v := Turn(t, a);
            && Agrees(t, v)
            && v.mp == t.mp - (if Expired(t, a) then {a} else {})
            && v.fds == FdManager.Closed(t.fds, if Expired(t, a) then Holdings(t.recs[t.mp[a]]) else {})
  {
    hide Conns, Index, Fds, OrderOk, Sizes, InjectiveMp, FdManager.Closed, Holdings, Expired;
    if Expired(t, a) {
      EraseEffect(t.(cursor := Next(t.order, a)), a);
    } else {
      forall b | b in t.mp ensures t.mp[b] in t.recs { assert t.mp[b] in t.mp.Values; }
      FdManager.ClosedNone(t.fds);
      assert t.mp - {} == t.mp;
    }
  }

  lemma AgreesVictims(t: Table, v: Table, seen: seq<Address>)
    requires Agrees(t, v) && forall b <- seen :: b in v.mp
    ensures Victims(v, seen) == Victims(t, seen)
    ensures HeldBy(v, Victims(v, seen)) == HeldBy(t, Victims(t, seen))
  {
    forall b | b in seen ensures Expired(v, b) == Expired(t, b) {
    }
    var s := Victims(t, seen);
    forall b | b in s ensures Holdings(v.recs[v.mp[b]]) == Holdings(t.recs[t.mp[b]]) {
    }
    forall f | f in HeldBy(v, s) ensures f in HeldBy(t, s) {
      var b :| b in s && f in Holdings(v.recs[v.mp[b]]);
      assert f in Holdings(t.recs[t.mp[b]]);
    }
    forall f | f in HeldBy(t, s) ensures f in HeldBy(v, s) {
      var b :| b in s && f in Holdings(t.recs[t.mp[b]]);
      assert f in Holdings(v.recs[v.mp[b]]);
    }
  }

  lemma VictimsCons(t: Table, a: Address, seen: seq<Address>)
    requires forall b <- [a] + seen :: b in t.mp && t.mp[b] in t.recs
    requires forall b <- seen :: b in [a] + seen
    requires a in [a] + seen
    ensures Victims(t, [a] + seen) == (if Expired(t, a) then {a} else {}) + Victims(t, seen)
    ensures HeldBy(t, Victims(t, [a] + seen)) ==
            (if Expired(t, a) then Holdings(t.recs[t.mp[a]]) else {}) + HeldBy(t, Victims(t, seen))
  {
    var s, d := Victims(t, seen), Victims(t, [a] + seen);
    assert forall b :: b in [a] + seen <==> b == a || b in seen;
    assert d == (if Expired(t, a) then {a} else {}) + s;
    forall f | f in HeldBy(t, d) ensures f in (if Expired(t, a) then Holdings(t.recs[t.mp[a]]) else {}) + HeldBy(t, s) {
      var b :| b in d && f in Holdings(t.recs[t.mp[b]]);
    }
    forall f | f in HeldBy(t, s) ensures f in HeldBy(t, d) {
      var b :| b in s && f in Holdings(t.recs[t.mp[b]]);
      assert b in d;
    }
    if Expired(t, a) { assert a in d; }
  }

  /** What the next `n` turns leave. */
  ghost predicate Swept(t: Table, u: Table, seen: seq<Address>)
    requires forall a <- seen :: a in t.mp && t.mp[a] in t.recs
  {
    && Agrees(t, u)
    && u.mp == t.mp - Victims(t, seen)
    && u.fds == FdManager.Closed(t.fds, HeldBy(t, Victims(t, seen)))
  }

  lemma SweptNone(t: Table)
    requires Inv(t)
    ensures Swept(t, t, [])
  {
    hide Conns, Index, Fds, InjectiveMp, OrderOk, Sizes, ConnOk;
    RotLists(t);
    hide Rot;
    FdManager.ClosedNone(t.fds);
    hide FdManager.Closed;
    assert Victims(t, []) == {};
    assert HeldBy(t, {}) == {};
  }

  lemma SweptCons(t: Table, a: Address, u: Table, seen: seq<Address>)
    requires Inv(t) && a in t.mp && t.mp[a] in t.recs && a in t.order
    requires forall b <- seen :: b in Turn(t, a).mp && Turn(t, a).mp[b] in Turn(t, a).recs
    requires Swept(Turn(t, a), u, seen)
    ensures forall b <- [a] + seen :: b in t.mp && t.mp[b] in t.recs
    ensures Swept(t, u, [a] + seen)
  {
    hide Conns, Index, Fds, Turn, Expired, Holdings, InjectiveMp, OrderOk, Sizes, Victims, HeldBy, FdManager.Closed;
    var v := Turn(t, a);
    TurnEffect(t, a);
    assert forall b :: b in [a] + seen <==> b == a || b in seen;
    AgreesVictims(t, v, seen);
    VictimsCons(t, a, seen);
    var mine, held := if Expired(t, a) then {a} else {}, if Expired(t, a) then Holdings(t.recs[t.mp[a]]) else {};
    FdManager.ClosedNone(t.fds);
    SweptMaps(t, v, u, mine, held, Victims(t, seen), HeldBy(t, Victims(t, seen)));
  }

  lemma SweptMaps(t: Table, v: Table, u: Table, s: set<Address>, f: set<nat>, s': set<Address>, f': set<nat>)
    requires Agrees(t, v) && Agrees(v, u)
    requires v.mp == t.mp - s && u.mp == v.mp - s'
    requires v.fds == FdManager.Closed(t.fds, f) && u.fds == FdManager.Closed(v.fds, f')
    ensures Agrees(t, u) && u.mp == t.mp - (s + s') && u.fds == FdManager.Closed(t.fds, f + f')
  {
    FdManager.ClosedTwice(t.fds, f, f');
    hide FdManager.Closed;
    assert (t.mp - s) - s' == t.mp - (s + s');
  }

  /** The sweep erases exactly the timed-out connections among the next `n` in cyclic order, closes
      exactly the descriptors they hold, and leaves every other connection as it was. */
  lemma {:induction false} SweepErasesTheTimedOut(t: Table, n: nat)
    requires Inv(t) && n <= |t.order|
    ensures |Rot(t)| == |t.order| && forall a :: a in Rot(t) ==> a in t.mp && t.mp[a] in t.recs
    ensures Inv(Sweep(t, n)) && Swept(t, Sweep(t, n), Rot(t)[..n])
    ensures NonZeroIds(t) ==> NonZeroIds(Sweep(t, n))
    decreases n
  {
    hide Conns, Index, Fds, Turn, Expired, Holdings, InjectiveMp, Sizes, NonZeroIds, Swept, Distinct, Rotation;
    RotLists(t);
    if n == 0 {
      SweptNone(t);
      assert Rot(t)[..0] == [];
    } else {
      TurnFacts(t);
      var a, v := Current(t), Turn(t, Current(t));
      RotLists(v);
      SweepErasesTheTimedOut(v, n - 1);
      assert Rot(v)[..n - 1] == Rot(t)[1..n];
      assert [a] + Rot(t)[1..n] == Rot(t)[..n];
      forall b | b in Rot(v)[..n - 1] ensures b in v.mp && v.mp[b] in v.recs {
        assert b in Rot(v);
      }
      SweptCons(t, a, Sweep(v, n - 1), Rot(v)[..n - 1]);
    }
  }

  /** A victim timed out in its state, and if it was ready it had no conversation left: what a sweep
      closes are timers only. */
  lemma VictimsTimedOut(t: Table, seen: seq<Address>, a: Address)
    requires Inv(t) && (forall b <- seen :: b in t.mp && t.mp[b] in t.recs) && a in Victims(t, seen)
    ensures var r := t.recs[t.mp[a]];
            if r.state == Ready
            then t.now > r.lastHbRecvTime + SERVER_CONN_TIMEOUT && r.convs == map[] && Holdings(r) == {r.timer}
            else t.now > r.lastStateTime + SERVER_HANDSHAKE_TIMEOUT && Holdings(r) == {}
  {
    hide Index, Fds, OrderOk, Sizes, InjectiveMp;
    ConnAt(t, t.mp[a]);
  }

  // ----- what the next pass looks at -----

  lemma {:induction false} ListsSize(s: seq<Address>, keys: set<Address>)
    requires Lists(s, keys)
    ensures |s| == |keys|
  {
    if s == [] {
      assert keys == {};
    } else {
      assert s[0] in s && s[0] !in s[1..];
      assert s == [s[0]] + s[1..];
      ListsSize(s[1..], keys - {s[0]});
    }
  }

  lemma OrderSize(t: Table)
    requires Inv(t)
    ensures |t.order| == |t.mp| && Quota(|t.mp|) <= |Rot(t)|
  {
    hide Conns, Index, Fds, InjectiveMp, Sizes, Lists;
    ListsSize(t.order, t.mp.Keys);
    assert |t.mp.Keys| == |t.mp|;
    RotLists(t);
  }

  /** The addresses the next global cleanup looks at. */
  ghost function NextUp(t: Table): seq<Address>
    requires Inv(t)
  {
    OrderSize(t);
    Rot(t)[..Quota(|t.mp|)]
  }

  /** A ready connection not heard from for four minutes, without conversations, or a handshake of more than ten seconds. */
  predicate TimedOut(r: Rec, now: nat) {
    if r.state == Ready then now > r.lastHbRecvTime + 240000 && r.convs == map[] else now > r.lastStateTime + 10000
  }

  predicate DueForErase(r: Rec, now: nat) {
    r.state == Ready && TimedOut(r, now)
  }

  lemma Ordered(t: Table)
    requires Inv(t)
    ensures OrderOk(t)
  {
  }

  lemma DueMeans(r: Rec, now: nat)
    ensures DueForErase(r, now) <==> r.state == Ready && now > r.lastHbRecvTime + SERVER_CONN_TIMEOUT && r.convs == map[]
  {
  }

  lemma DueExpires(t: Table, a: Address)
    requires a in t.mp && t.mp[a] in t.recs && DueForErase(t.recs[t.mp[a]], t.now)
    ensures Expired(t, a) && t.recs[t.mp[a]].state == Ready
  {
  }

  lemma VictimIs(t: Table, seen: seq<Address>, a: Address)
    requires (forall b <- seen :: b in t.mp && t.mp[b] in t.recs) && a in seen && Expired(t, a)
    ensures a in Victims(t, seen)
  {
  }

  lemma SweptMp(t: Table, u: Table, seen: seq<Address>)
    requires (forall a <- seen :: a in t.mp && t.mp[a] in t.recs) && Swept(t, u, seen)
    ensures u.mp == t.mp - Victims(t, seen) && u.now == t.now
  {
  }

  // ----- passes until everything was visited -----

  /** How many passes visit `n` entries, each pass a fiftieth of what is left and one. */
  function PassesFor(n: nat): (r: nat)
    ensures r <= n
  {
    if n == 0 then 0 else 1 + PassesFor(n - Quota(n))
  }

  lemma {:induction false} PassesGrow(m: nat, n: nat)
    requires m <= n
    ensures PassesFor(m) <= PassesFor(n)
    decreases n
  {
    if m > 0 { PassesGrow(m - Quota(m), n - Quota(n)); }
  }

  /** Times go on. */
  predicate Forward(now: nat, times: seq<nat>) {
    && (times != [] ==> now <= times[0])
    && forall i, j :: 0 <= i < j < |times| ==> times[i] <= times[j]
  }

  /** One pass after the other, at the given times, with nothing else happening. */
  ghost function Sweeps(t: Table, times: seq<nat>): Table
    requires Inv(t) && Forward(t.now, times)
    decreases |times|
  {
    if times == [] then t else
    PassKeeps(t, times[0]);
    Sweeps(OnePass(t, times[0]), times[1..])
  }

  ghost function OnePass(t: Table, now: nat): Table
    requires Inv(t) && t.now <= now
  {
    TickKeeps(t, now);
    Sweep(Tick(t, now), Quota(|t.mp|))
  }

  /** Every connection of `u` was in `t`, with the same record. */
  ghost predicate Within(t: Table, u: Table) {
    forall b :: b in u.mp ==> b in t.mp && t.mp[b] in t.recs && u.mp[b] == t.mp[b] && u.mp[b] in u.recs && u.recs[u.mp[b]] == t.recs[t.mp[b]]
  }

  /** What one pass does to the cyclic order: the entries it visited are behind those it did not. */
  lemma {:induction false} SweepRotates(t: Table, n: nat)
    requires Inv(t) && n <= |t.order|
    ensures |Rot(t)| == |t.order| && Inv(Sweep(t, n)) && |Rot(Sweep(t, n))| >= |t.order| - n
    ensures Rot(Sweep(t, n))[..|t.order| - n] == Rot(t)[n..]
    decreases n
  {
    hide Conns, Index, Fds, Turn, InjectiveMp, Sizes, Rotation, Distinct, Expired;
    RotLists(t);
    if n > 0 {
      TurnFacts(t);
      var v := Turn(t, Current(t));
      RotLists(v);
      SweepRotates(v, n - 1);
      var r, k := Rot(Sweep(t, n)), |t.order| - n;
      assert r[..|v.order| - (n - 1)][..k] == r[..k];
      assert Rot(v)[n - 1..][..k] == Rot(t)[n..];
    }
  }

  lemma PassKeeps(t: Table, now: nat)
    requires Inv(t) && t.now <= now
    ensures Inv(OnePass(t, now)) && OnePass(t, now).now == now
    ensures Within(t, OnePass(t, now))
  {
    hide Inv, Swept, Rot;
    TickKeeps(t, now);
    var u := Tick(t, now);
    OrderSize(u);
    Ordered(u);
    SweepErasesTheTimedOut(u, Quota(|t.mp|));
    SweptWithin(u, Sweep(u, Quota(|t.mp|)), Rot(u)[..Quota(|t.mp|)]);
  }

  lemma SweptWithin(t: Table, u: Table, seen: seq<Address>)
    requires (forall a <- seen :: a in t.mp && t.mp[a] in t.recs) && Swept(t, u, seen)
    ensures Within(t, u) && u.now == t.now
  {
  }

  lemma RotStays(t: Table, now: nat)
    requires Inv(t) && Inv(Tick(t, now))
    ensures Rot(Tick(t, now)) == Rot(t)
  {
  }

  /** In a valid table the code's three tests decide whether a connection timed out. */
  lemma ExpiredIff(t: Table, now: nat, a: Address)
    requires Inv(t) && a in t.mp && t.mp[a] in t.recs
    ensures Expired(Tick(t, now), a) <==> TimedOut(t.recs[t.mp[a]], now)
  {
    hide Index, Fds, OrderOk, Sizes, InjectiveMp;
    ConnAt(t, t.mp[a]);
  }

  /** A pass erases an entry if and only if it is among the next `min(size/50+1, size)` and timed out. */
  lemma PassErases(t: Table, now: nat, a: Address)
    requires Inv(t) && t.now <= now && a in t.mp
    ensures Inv(OnePass(t, now)) && t.mp[a] in t.recs
    ensures a in OnePass(t, now).mp <==> !(a in NextUp(t) && TimedOut(t.recs[t.mp[a]], now))
  {
    hide Inv, OnePass, NextUp, Expired, TimedOut;
    AddressedByPeer(t, a);
    PassErasesExpired(t, now, a);
    ExpiredIff(t, now, a);
  }

  lemma PassErasesExpired(t: Table, now: nat, a: Address)
    requires Inv(t) && t.now <= now && a in t.mp
    ensures Inv(OnePass(t, now)) && t.mp[a] in t.recs
    ensures a in OnePass(t, now).mp <==> !(a in NextUp(t) && Expired(Tick(t, now), a))
  {
    hide Inv, Swept, Rot, Expired, Victims;
    AddressedByPeer(t, a);
    PassKeeps(t, now);
    TickKeeps(t, now);
    var u := Tick(t, now);
    OrderSize(t);
    OrderSize(u);
    Ordered(u);
    RotStays(t, now);
    SweepErasesTheTimedOut(u, Quota(|t.mp|));
    var seen := Rot(u)[..Quota(|t.mp|)];
    assert forall b <- seen :: b in Rot(u);
    SweptMp(u, Sweep(u, Quota(|t.mp|)), seen);
    VictimsAre(u, seen, a);
  }

  lemma VictimsAre(t: Table, seen: seq<Address>, a: Address)
    requires (forall b <- seen :: b in t.mp && t.mp[b] in t.recs) && a in t.mp && t.mp[a] in t.recs
    ensures a in Victims(t, seen) <==> a in seen && Expired(t, a)
  {
  }

  /** What timed out stays timed out. */
  lemma StillExpired(t: Table, u: Table, a: Address, now: nat)
    requires a in t.mp && t.mp[a] in t.recs && Expired(t, a) && t.now <= now
    requires a in u.mp && u.mp[a] in u.recs && u.recs[u.mp[a]] == t.recs[t.mp[a]]
    ensures Expired(Tick(u, now), a)
  {
  }

  lemma {:induction false} SweepsKeep(t: Table, times: seq<nat>)
    requires Inv(t) && Forward(t.now, times)
    ensures Inv(Sweeps(t, times)) && Within(t, Sweeps(t, times)) && t.now <= Sweeps(t, times).now
    decreases |times|
  {
    hide Inv, OnePass;
    if times == [] {
      WithinSelf(t);
    } else {
      PassKeeps(t, times[0]);
      SweepsKeep(OnePass(t, times[0]), times[1..]);
    }
  }

  lemma WithinSelf(t: Table)
    requires Inv(t)
    ensures Within(t, t)
  {
    hide Inv;
    forall b | b in t.mp ensures t.mp[b] in t.recs { AddressedByPeer(t, b); }
  }

  /** With no arrivals, passes from any saved cursor erase every timed-out connection without conversations among the
  first `n` in cyclic order, if there are `PassesFor(n)` of them. */
  lemma {:induction false} SweepsErase(t: Table, times: seq<nat>, n: nat, a: Address)
    requires Inv(t) && Forward(t.now, times) && n <= |t.order| && PassesFor(n) <= |times|
    ensures |Rot(t)| == |t.order|
    ensures a in Rot(t)[..n] ==> a in t.mp && t.mp[a] in t.recs && (Expired(t, a) ==> a !in Sweeps(t, times).mp)
    decreases |times|
  {
    hide Inv, OnePass, Expired, Rot, OrderOk, Sweeps, Within, Quota, PassesFor;
    Ordered(t);
    OrderSize(t);
    RotLists(t);
    if a in Rot(t)[..n] {
      assert a in Rot(t);
      if Expired(t, a) && a in Sweeps(t, times).mp {
        OneMore(n);
        var u, q, m := OnePass(t, times[0]), Quota(|t.mp|), n - Quota(n);
        PassKeeps(t, times[0]);
        SweepsKeep(u, times[1..]);
        SweepsNext(t, times);
        WithinAt(u, Sweeps(u, times[1..]), a);
        WithinAt(t, u, a);
        NotVisited(t, times[0], n, a);
        QuotaGrows(n, |t.mp|);
        PassesGrow(n - q, m);
        assert Tick(u, u.now) == u;
        StillExpired(t, u, a, u.now);
        SweepsErase(u, times[1..], n - q, a);
        assert false;
      }
    }
  }

  lemma OneMore(n: nat)
    requires n > 0
    ensures 0 < Quota(n) <= n && PassesFor(n) == 1 + PassesFor(n - Quota(n))
  {
  }

  lemma QuotaGrows(m: nat, n: nat)
    requires m <= n
    ensures Quota(m) <= Quota(n)
  {
  }

  lemma SweepsNext(t: Table, times: seq<nat>)
    requires Inv(t) && Forward(t.now, times) && times != []
    ensures Inv(OnePass(t, times[0])) && Forward(OnePass(t, times[0]).now, times[1..])
    ensures Sweeps(t, times) == Sweeps(OnePass(t, times[0]), times[1..])
  {
    hide Inv, OnePass;
    PassKeeps(t, times[0]);
  }

  lemma WithinAt(t: Table, u: Table, a: Address)
    requires Within(t, u) && a in u.mp
    ensures a in t.mp && t.mp[a] in t.recs && u.mp[a] in u.recs && u.recs[u.mp[a]] == t.recs[t.mp[a]]
  {
  }

  /** A timed-out entry that a pass leaves was not visited, and comes among the first then. */
  lemma NotVisited(t: Table, now: nat, n: nat, a: Address)
    requires Inv(t) && t.now <= now && n <= |t.order| == |Rot(t)| && a in Rot(t)[..n] && a in t.mp && t.mp[a] in t.recs
    requires Expired(t, a) && Inv(OnePass(t, now)) && a in OnePass(t, now).mp
    ensures var u, q := OnePass(t, now), Quota(|t.mp|);
            q < n && n - q <= |u.order| == |Rot(u)| && a in Rot(u)[..n - q]
  {
    hide Inv, Expired, Rot, Sweep, OrderOk;
    var u, q := OnePass(t, now), Quota(|t.mp|);
    TickKeeps(t, now);
    RotStays(t, now);
    Ordered(t);
    Ordered(u);
    OrderSize(t);
    RotLists(u);
    PassErasesExpired(t, now, a);
    StillExpired(t, t, a, now);
    SweepRotates(Tick(t, now), q);
    var i :| 0 <= i < n && Rot(t)[i] == a;
    EarlyIsNext(t, i);
    assert i >= q;
    assert Rot(u)[..|t.order| - q] == Rot(t)[q..];
    assert Rot(u)[i - q] == Rot(t)[q..][i - q] == a;
  }

  lemma EarlyIsNext(t: Table, i: nat)
    requires Inv(t) && OrderOk(t) && i < |Rot(t)|
    ensures i < Quota(|t.mp|) ==> Rot(t)[i] in NextUp(t)
  {
    hide Inv, Rot, OrderOk;
    OrderSize(t);
    if i < Quota(|t.mp|) { assert NextUp(t)[i] == Rot(t)[i]; }
  }

  /** What has not timed out by the last pass is spared by all of them. */
  lemma {:induction false} SweepsSpare(t: Table, times: seq<nat>, a: Address)
    requires Inv(t) && Forward(t.now, times) && a in t.mp
    ensures t.mp[a] in t.recs && (!Expired(Tick(t, Sweeps(t, times).now), a) ==> a in Sweeps(t, times).mp)
    decreases |times|
  {
    hide Inv, OnePass, Expired, Sweeps, Within;
    AddressedByPeer(t, a);
    if times == [] {
      NoSweeps(t);
    } else if !Expired(Tick(t, Sweeps(t, times).now), a) {
      var u := OnePass(t, times[0]);
      PassKeeps(t, times[0]);
      SweepsNext(t, times);
      SweepsKeep(u, times[1..]);
      ExpiredLater(t, times[0], Sweeps(t, times).now, a);
      PassErasesExpired(t, times[0], a);
      WithinAt(t, u, a);
      SweepsSpare(u, times[1..], a);
      SameExpiry(t, u, Sweeps(t, times).now, a);
    }
  }

  lemma NoSweeps(t: Table)
    requires Inv(t)
    ensures Sweeps(t, []) == t
  {
  }

  lemma ExpiredLater(t: Table, now: nat, later: nat, a: Address)
    requires a in t.mp && t.mp[a] in t.recs && now <= later
    ensures Expired(Tick(t, now), a) ==> Expired(Tick(t, later), a)
  {
  }

  lemma SameExpiry(t: Table, u: Table, now: nat, a: Address)
    requires a in t.mp && t.mp[a] in t.recs && a in u.mp && u.mp[a] in u.recs && u.recs[u.mp[a]] == t.recs[t.mp[a]]
    ensures Expired(Tick(u, now), a) <==> Expired(Tick(t, now), a)
  {
  }

  /** With no arrivals, passes from any saved cursor clean the whole table: `PassesFor(|t.mp|)` of them erase every
  connection that had timed out without conversations when they began, and none that has not by the last. */
  lemma PassesEraseTheTimedOut(t: Table, times: seq<nat>)
    requires Inv(t) && Forward(t.now, times) && PassesFor(|t.mp|) <= |times|
    ensures Inv(Sweeps(t, times)) && Within(t, Sweeps(t, times)) && forall a :: a in t.mp ==> t.mp[a] in t.recs
    ensures forall a :: a in t.mp && TimedOut(t.recs[t.mp[a]], t.now) ==> a !in Sweeps(t, times).mp
    ensures forall a :: a in t.mp && !TimedOut(t.recs[t.mp[a]], Sweeps(t, times).now) ==> a in Sweeps(t, times).mp
  {
    hide TimedOut, Inv, OnePass, Expired, Sweeps, Within, Rot, OrderOk, PassesFor;
    Ordered(t);
    OrderSize(t);
    RotLists(t);
    SweepsKeep(t, times);
    forall a | a in t.mp
      ensures t.mp[a] in t.recs && (TimedOut(t.recs[t.mp[a]], t.now) ==> a !in Sweeps(t, times).mp)
              && (!TimedOut(t.recs[t.mp[a]], Sweeps(t, times).now) ==> a in Sweeps(t, times).mp) {
      assert a in Rot(t)[..|t.order|] by { assert Rot(t)[..|t.order|] == Rot(t); }
      SweepsErase(t, times, |t.order|, a);
      SweepsSpare(t, times, a);
      ExpiredIff(t, t.now, a);
      assert Tick(t, t.now) == t;
      ExpiredIff(t, Sweeps(t, times).now, a);
    }
  }
}
