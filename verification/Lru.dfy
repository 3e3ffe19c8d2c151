/** The least-recently-used collector (`lru_collector_t`): a newest-first list of stamped keys, and for
every key the list node that holds it. */
module Lru {
  import Clock

  datatype Entry = Entry(key: nat, ts: nat)

  // ----- the list as a value -----

  ghost predicate NewestFirst(s: seq<Entry>) {
    forall i, j :: 0 <= i < j < |s| ==> s[i].ts >= s[j].ts
  }

  ghost predicate DistinctKeys(s: seq<Entry>) {
    forall i, j :: 0 <= i < j < |s| ==> s[i].key != s[j].key
  }

  function Keys(s: seq<Entry>): set<nat> {
    if s == [] then {} else {s[0].key} + Keys(s[1..])
  }

  lemma {:induction false} KeyAt(s: seq<Entry>, k: nat) returns (i: nat)
    requires k in Keys(s)
    ensures i < |s| && s[i].key == k
  {
    if s[0].key == k { i := 0; } else { i := KeyAt(s[1..], k); i := i + 1; }
  }

  lemma {:induction false} KeyOfEach(s: seq<Entry>, i: nat)
    requires i < |s|
    ensures s[i].key in Keys(s)
  {
    if i > 0 { KeyOfEach(s[1..], i - 1); }
  }

  /** The entries other than the one for `k`. */
  function Without(s: seq<Entry>, k: nat): seq<Entry> {
    if s == [] then [] else (if s[0].key == k then [] else [s[0]]) + Without(s[1..], k)
  }

  lemma {:induction false} WithoutIsRemoval(s: seq<Entry>, i: nat)
    requires i < |s| && DistinctKeys(s)
    ensures Without(s, s[i].key) == s[..i] + s[i + 1..]
    decreases |s|
  {
    if i == 0 {
      if s[0].key in Keys(s[1..]) {
        var j := KeyAt(s[1..], s[0].key);
        assert false;
      }
      WithoutAbsent(s[1..], s[0].key);
      assert s[..0] + s[1..] == s[1..];
    } else {
      WithoutIsRemoval(s[1..], i - 1);
      assert s[..i] + s[i + 1..] == [s[0]] + (s[1..][..i - 1] + s[1..][i..]);
    }
  }

  lemma {:induction false} KeysWithout(s: seq<Entry>, k: nat)
    ensures Keys(Without(s, k)) == Keys(s) - {k}
  {
    if s != [] {
      KeysWithout(s[1..], k);
      var t := Without(s[1..], k);
      if s[0].key != k { assert ([s[0]] + t)[1..] == t; } else { assert [] + t == t; }
    }
  }

  lemma {:induction false} WithoutAbsent(s: seq<Entry>, k: nat)
    requires k !in Keys(s)
    ensures Without(s, k) == s
  {
    if s != [] {
      WithoutAbsent(s[1..], k);
      assert s == [s[0]] + s[1..];
    }
  }

  lemma WithoutHead(e: Entry, s: seq<Entry>)
    requires e.key !in Keys(s)
    ensures Without([e] + s, e.key) == s && Without(s, e.key) == s
  {
    WithoutAbsent(s, e.key);
    assert ([e] + s)[1..] == s;
    assert [] + s == s;
  }

  // ----- the mutable collector -----

  class Node {
    const key: nat
    const ts: nat

    constructor (key: nat, ts: nat)
      ensures this.key == key && this.ts == ts
    {
      this.key, this.ts := key, ts;
    }
  }

  function EntryOf(n: Node): Entry {
    Entry(n.key, n.ts)
  }

  function Entries(q: seq<Node>): (s: seq<Entry>)
    ensures |s| == |q| && forall i :: 0 <= i < |q| ==> s[i] == EntryOf(q[i])
  {
    seq(|q|, i requires 0 <= i < |q| => EntryOf(q[i]))
  }

  /** `mp` and `q` hold the same nodes: each key of `mp` leads to the one node of `q` for it. */
  ghost predicate Linked(mp: map<nat, Node>, q: seq<Node>) {
    && (forall i :: 0 <= i < |q| ==> q[i].key in mp && mp[q[i].key] == q[i])
    && mp.Keys == Keys(Entries(q))
    && DistinctKeys(Entries(q))
    && NewestFirst(Entries(q))
  }

  lemma NodeAt(mp: map<nat, Node>, q: seq<Node>, k: nat) returns (i: nat)
    requires Linked(mp, q) && k in mp
    ensures i < |q| && q[i] == mp[k] && q[i].key == k
  {
    i := KeyAt(Entries(q), k);
  }

  lemma RemovalKeepsOrder(s: seq<Entry>, i: nat)
    requires DistinctKeys(s) && NewestFirst(s) && i < |s|
    ensures DistinctKeys(s[..i] + s[i + 1..]) && NewestFirst(s[..i] + s[i + 1..])
  {
    var r := s[..i] + s[i + 1..];
    forall j, k | 0 <= j < k < |r| ensures r[j].key != r[k].key && r[j].ts >= r[k].ts {
      var j', k' := if j < i then j else j + 1, if k < i then k else k + 1;
      assert r[j] == s[j'] && r[k] == s[k'];
    }
  }

  lemma EntriesOfRemoval(q: seq<Node>, i: nat)
    requires i < |q|
    ensures Entries(q[..i] + q[i + 1..]) == Entries(q)[..i] + Entries(q)[i + 1..]
  {
  }

  lemma UnlinkKeepsLinked(mp: map<nat, Node>, q: seq<Node>, i: nat)
    requires Linked(mp, q) && i < |q|
    ensures Linked(mp - {q[i].key}, q[..i] + q[i + 1..])
    ensures Entries(q[..i] + q[i + 1..]) == Without(Entries(q), q[i].key)
  {
    var s, r := Entries(q), q[..i] + q[i + 1..];
    WithoutIsRemoval(s, i);
    EntriesOfRemoval(q, i);
    RemovalKeepsOrder(s, i);
    KeysWithout(s, q[i].key);
    hide Without, Keys, NewestFirst;
    forall j | 0 <= j < |r| ensures r[j].key in mp - {q[i].key} && mp[r[j].key] == r[j] {
      var j' := if j < i then j else j + 1;
      assert r[j] == q[j'] && s[j'].key != s[i].key;
    }
  }

  lemma PushKeepsLinked(mp: map<nat, Node>, q: seq<Node>, n: Node)
    requires Linked(mp, q) && n.key !in mp
    requires q != [] ==> n.ts >= q[0].ts
    ensures Linked(mp[n.key := n], [n] + q)
    ensures Entries([n] + q) == [EntryOf(n)] + Entries(q)
  {
    var s, r := Entries(q), [n] + q;
    assert Entries(r) == [EntryOf(n)] + s;
    assert Entries(r)[1..] == s;
    forall j | 0 <= j < |s| ensures s[j].key != n.key && n.ts >= s[j].ts {
      KeyOfEach(s, j);
      assert s[0] == EntryOf(q[0]);
    }
  }

  class Lru {
    const clock: Clock.Clock
    var mp: map<nat, Node>
    var q: seq<Node>

    /** No stamp is later than the latest clock reading. */
    ghost predicate Valid()
      reads this, clock
    {
      Linked(mp, q) && (q != [] ==> q[0].ts <= clock.Reading())
    }

    ghost function Contents(): seq<Entry>
      reads this
    {
      Entries(q)
    }

    constructor (clock: Clock.Clock)
      ensures Valid() && Contents() == [] && mp == map[] && this.clock == clock
    {
      this.clock := clock;
      mp, q := map[], [];
    }

    /** Unlinks the node at a list iterator. */
    method Unlink(n: Node)
      requires Linked(mp, q) && n.key in mp && mp[n.key] == n
      modifies this
      ensures Linked(mp, q) && mp == old(mp) - {n.key}
      ensures Contents() == Without(old(Contents()), n.key)
      ensures q != [] ==> q[0].ts <= old(q)[0].ts
    {
      ghost var k := NodeAt(mp, q, n.key);
      assert Entries(q)[0].ts >= Entries(q)[k].ts;
      var i :| 0 <= i < |q| && q[i] == n;
      UnlinkKeepsLinked(mp, q, i);
      q := q[..i] + q[i + 1..];
      mp := mp - {n.key};
    }

    method PushFront(key: nat, ts: nat)
      requires Linked(mp, q) && key !in mp
      requires q != [] ==> ts >= q[0].ts
      modifies this
      ensures Linked(mp, q) && mp.Keys == old(mp.Keys) + {key}
      ensures Contents() == [Entry(key, ts)] + old(Contents())
      ensures q != [] && q[0].ts == ts
    {
      var n := new Node(key, ts);
      PushKeepsLinked(mp, q, n);
      q := [n] + q;
      mp := mp[key := n];
    }

    method Update(key: nat, raw: nat)
      requires Valid() && key in mp
      modifies this, clock
      ensures Valid() && mp.Keys == old(mp.Keys)
      ensures old(clock.Reading()) <= clock.Reading() && clock.At() == Clock.Read(old(clock.At()), raw)
      ensures Contents() == [Entry(key, clock.Reading())] + Without(old(Contents()), key)
    {
      hide Clock.Read;
      ghost var k := NodeAt(mp, q, key);
      assert q[k] == mp[key];
      Unlink(mp[key]);
      var value := clock.CurrentTime(raw);
      if q != [] {
        assert value >= q[0].ts;
      }
      PushFront(key, value);
    }

    method NewKey(key: nat, raw: nat)
      requires Valid() && key !in mp
      modifies this, clock
      ensures Valid() && mp.Keys == old(mp.Keys) + {key}
      ensures old(clock.Reading()) <= clock.Reading() && clock.At() == Clock.Read(old(clock.At()), raw)
      ensures Contents() == [Entry(key, clock.Reading())] + old(Contents())
    {
      hide Clock.Read;
      var value := clock.CurrentTime(raw);
      if q != [] {
        assert value >= q[0].ts;
      }
      PushFront(key, value);
    }

    predicate Empty()
      reads this
      ensures Empty() <==> Contents() == []
    {
      q == []
    }

    method PeekBack() returns (key: nat, ts: nat)
      requires Valid() && !Empty()
      ensures Entry(key, ts) == Contents()[|Contents()| - 1] && key in mp
    {
      var last := q[|q| - 1];
      key, ts := last.key, last.ts;
    }

    method Erase(key: nat)
      requires Valid() && key in mp
      modifies this
      ensures Valid() && mp.Keys == old(mp.Keys) - {key}
      ensures Contents() == Without(old(Contents()), key)
    {
      ghost var k := NodeAt(mp, q, key);
      assert q[k] == mp[key];
      Unlink(mp[key]);
    }

    method Clear()
      modifies this
      ensures Valid() && mp == map[] && Contents() == []
    {
      mp, q := map[], [];
    }
  }
}
