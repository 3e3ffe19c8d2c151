/** The conversations of one raw connection (`conv_manager_t`): two inverse maps between conversation
numbers and their data (a UDP descriptor number on the server, a peer address on the client), and the
LRU that decides which conversations have expired. */
module ConvManager {
  import Clock
  import FdManager
  import L = Lru

  type Entry = L.Entry

  const MAX_CONV_NUM: nat := 10000
  const CONV_CLEAR_RATIO: nat := 30
  const CONV_CLEAR_MIN: nat := 1
  const CONV_CLEAR_INTERVAL: nat := 1000
  const CONV_TIMEOUT: nat := 180000
  const U64: nat := 0x1_0000_0000_0000_0000

  // ----- eviction as a function of the list -----

  predicate IsExpired(e: Entry, now: nat) {
    now >= e.ts + CONV_TIMEOUT
  }

  function Min(a: nat, b: nat): nat { if a < b then a else b }

  /** The expired entries of a list, counted one by one over the whole list. */
  function Expired(s: seq<Entry>, now: nat): nat {
    if s == [] then 0 else (if IsExpired(s[0], now) then 1 else 0) + Expired(s[1..], now)
  }

  /** `get_current_time() - last_clear_time > conv_clear_interval`, in unsigned arithmetic. */
  predicate ClearDue(last: int, now: nat) {
    (now - last) % U64 > CONV_CLEAR_INTERVAL
  }

  /** A pass is due unless the last one was within the last second; a last time in the future counts as due. */
  lemma DueUnlessRecent(last: int, now: nat)
    requires now < U64 && 0 <= last < U64 - 1000
    ensures ClearDue(last, now) <==> !(last <= now <= last + 1000)
  {
  }

  /** The most conversations one pass may look at. */
  function Quota(size: nat): nat {
    Min(size / CONV_CLEAR_RATIO + CONV_CLEAR_MIN, size)
  }

  /** One more than the whole thirtieths, if there are any. */
  lemma QuotaIs(size: nat)
    ensures Quota(size) <= size && (size > 0 ==> 30 * (Quota(size) - 1) <= size < 30 * Quota(size))
  {
    assert size == 30 * (size / 30) + size % 30;
  }

  /** What one pass leaves. */
  function Pass(s: seq<Entry>, now: nat): seq<Entry> {
    Kept(s, Quota(|s|), now)
  }

  /** What is left when at most `quota` expired entries are taken from the old end. */
  function Kept(s: seq<Entry>, quota: nat, now: nat): seq<Entry> {
    ExpiredAtMostAll(s, now);
    s[..|s| - Min(quota, Expired(s, now))]
  }

  /** What `n` passes leave when nothing else happens in between. */
  function Passes(s: seq<Entry>, now: nat, n: nat): seq<Entry>
    decreases n
  {
    if n == 0 then s else Passes(Pass(s, now), now, n - 1)
  }

  lemma {:induction false} ExpiredAtMostAll(s: seq<Entry>, now: nat)
    ensures Expired(s, now) <= |s|
  {
    if s != [] { ExpiredAtMostAll(s[1..], now); }
  }

  lemma {:induction false} NoneExpired(s: seq<Entry>, now: nat)
    requires forall i :: 0 <= i < |s| ==> !IsExpired(s[i], now)
    ensures Expired(s, now) == 0
  {
    if s != [] { NoneExpired(s[1..], now); }
  }

  /** In a newest-first list the expired entries are exactly the last ones, as many as a full scan counts. */
  lemma {:induction false} ExpiredAreLast(s: seq<Entry>, now: nat, i: nat)
    requires L.NewestFirst(s) && i < |s|
    ensures Expired(s, now) <= |s|
    ensures IsExpired(s[i], now) <==> i >= |s| - Expired(s, now)
    decreases |s|
  {
    ExpiredAtMostAll(s, now);
    ExpiredAtMostAll(s[1..], now);
    if IsExpired(s[0], now) {
      AllExpired(s, now);
      assert s[0].ts >= s[i].ts;
    } else if i > 0 {
      ExpiredAreLast(s[1..], now, i - 1);
    }
  }

  lemma {:induction false} AllExpired(s: seq<Entry>, now: nat)
    requires L.NewestFirst(s) && s != [] && IsExpired(s[0], now)
    ensures Expired(s, now) == |s|
  {
    if |s| > 1 {
      assert s[0].ts >= s[1].ts;
      AllExpired(s[1..], now);
    }
  }

  /** Cutting expired entries off the end lowers the count by as many. */
  lemma {:induction false} ExpiredPrefix(s: seq<Entry>, now: nat, r: nat)
    requires L.NewestFirst(s) && r <= Expired(s, now)
    ensures Expired(s, now) <= |s|
    ensures Expired(s[..|s| - r], now) == Expired(s, now) - r
    decreases |s|
  {
    ExpiredAtMostAll(s, now);
    var t := s[..|s| - r];
    if t == [] {
    } else {
      ExpiredAtMostAll(s[1..], now);
      if IsExpired(s[0], now) {
        AllExpired(s, now);
        AllExpired(t, now);
      } else {
        ExpiredPrefix(s[1..], now, r);
        assert t[1..] == s[1..][..|s| - 1 - r];
      }
    }
  }

  /** Repeated passes with no activity drain all expired conversations and no others: as many passes as
      there are expired entries always suffice. */
  lemma {:induction false} PassesDrainExpired(s: seq<Entry>, now: nat, n: nat)
    requires L.NewestFirst(s) && Expired(s, now) <= n
    ensures Expired(s, now) <= |s|
    ensures Passes(s, now, n) == s[..|s| - Expired(s, now)]
    ensures Expired(Passes(s, now, n), now) == 0
    decreases n
  {
    ExpiredAtMostAll(s, now);
    ExpiredPrefix(s, now, Expired(s, now));
    if n > 0 {
      var r := Min(Quota(|s|), Expired(s, now));
      ExpiredPrefix(s, now, r);
      var t := Pass(s, now);
      PassesDrainExpired(t, now, n - 1);
      assert t[..|t| - Expired(t, now)] == s[..|s| - Expired(s, now)];
    }
  }

  /** A pass removes only entries that were not touched for three minutes, from the old end, and leaves such an entry only
  if it has removed a thirtieth of the list and one. */
  lemma {:induction false} PassIsSound(s: seq<Entry>, now: nat, i: nat)
    requires L.NewestFirst(s) && i < |s|
    ensures |Pass(s, now)| <= |s| && Pass(s, now) == s[..|Pass(s, now)|]
    ensures i >= |Pass(s, now)| ==> now >= s[i].ts + 180000
    ensures i < |Pass(s, now)| && now >= s[i].ts + 180000 ==> |s| - |Pass(s, now)| == Quota(|s|)
  {
    ExpiredAreLast(s, now, i);
  }

  // ----- the two maps -----

  ghost predicate Inverse(d: map<nat, nat>, c: map<nat, nat>) {
    && (forall x :: x in d ==> d[x] in c && c[d[x]] == x)
    && (forall y :: y in c ==> c[y] in d && d[c[y]] == y)
  }

  lemma {:induction false} KeysSplit(s: seq<Entry>, t: seq<Entry>)
    ensures L.Keys(s + t) == L.Keys(s) + L.Keys(t)
  {
    if s == [] { assert s + t == t; } else {
      assert (s + t)[1..] == s[1..] + t;
      KeysSplit(s[1..], t);
    }
  }

  /** A conversation manager as a value: the maps, the list, and the descriptor table it closes into. */
  datatype State<T> = State(d: map<nat, nat>, c: map<nat, nat>, list: seq<Entry>, fds: FdManager.Table<T>)

  function NoFds<T>(): FdManager.Table<T> {
    FdManager.Table(map[], map[], {})
  }

  function EraseOldest<T>(v: State<T>): State<T>
    requires v.list != [] && v.list[|v.list| - 1].key in v.c
  {
    var conv := v.list[|v.list| - 1].key;
    State(v.d - {v.c[conv]}, v.c - {conv}, v.list[..|v.list| - 1], FdManager.Closed(v.fds, {v.c[conv]}))
  }

  ghost predicate Consistent<T>(v: State<T>) {
    Inverse(v.d, v.c) && L.NewestFirst(v.list) && L.DistinctKeys(v.list) && L.Keys(v.list) == v.c.Keys
  }

  lemma EraseOldestConsistent<T>(v: State<T>)
    requires Consistent(v) && v.list != []
    ensures v.list[|v.list| - 1].key in v.c && Consistent(EraseOldest(v))
  {
    var n := |v.list| - 1;
    L.KeyOfEach(v.list, n);
    L.WithoutIsRemoval(v.list, n);
    assert v.list[..n] + v.list[n + 1..] == v.list[..n];
    L.KeysWithout(v.list, v.list[n].key);
  }

  predicate OldestExpired<T>(v: State<T>, now: nat) {
    v.list != [] && IsExpired(v.list[|v.list| - 1], now)
  }

  /** Erases expired conversations from the old end one at a time, at most `quota` of them. */
  ghost function Drain<T>(v: State<T>, quota: nat, now: nat): State<T>
    requires Consistent(v)
    decreases quota
  {
    if quota == 0 || !OldestExpired(v, now) then v else
    EraseOldestConsistent(v);
    Drain(EraseOldest(v), quota - 1, now)
  }

  lemma DrainStep<T>(v: State<T>, quota: nat, now: nat)
    requires Consistent(v)
    ensures quota == 0 || !OldestExpired(v, now) ==> Drain(v, quota, now) == v
    ensures quota > 0 && OldestExpired(v, now) ==>
              && v.list[|v.list| - 1].key in v.c && Consistent(EraseOldest(v))
              && Drain(v, quota, now) == Drain(EraseOldest(v), quota - 1, now)
  {
    if v.list != [] { EraseOldestConsistent(v); }
  }

  /** The list a drain leaves, in closed form. */
  lemma {:induction false} DrainList<T>(v: State<T>, quota: nat, now: nat)
    requires Consistent(v)
    ensures Drain(v, quota, now).list == Kept(v.list, quota, now)
    decreases quota
  {
    ExpiredAtMostAll(v.list, now);
    if v.list != [] { ExpiredAreLast(v.list, now, |v.list| - 1); }
    if quota > 0 && OldestExpired(v, now) {
      EraseOldestConsistent(v);
      DrainList(EraseOldest(v), quota - 1, now);
      ExpiredPrefix(v.list, now, 1);
      var s, t := v.list, v.list[..|v.list| - 1];
      assert t[..|t| - Min(quota - 1, Expired(t, now))] == s[..|s| - Min(quota, Expired(s, now))];
    }
  }

  /** The maps a drain leaves, and the descriptors it closed: those of the conversations it dropped. */
  lemma {:induction false} DrainMaps<T>(v: State<T>, quota: nat, now: nat)
    requires Consistent(v)
    ensures var w := Drain(v, quota, now);
            && Consistent(w)
            && w.d.Keys <= v.d.Keys && w.c.Keys <= v.c.Keys
            && (forall k <- w.c :: w.c[k] == v.c[k])
            && w.fds == FdManager.Closed(v.fds, v.d.Keys - w.d.Keys)
    decreases quota
  {
    if quota == 0 || !OldestExpired(v, now) {
      FdManager.ClosedNone(v.fds);
      assert v.d.Keys - v.d.Keys == {};
    } else {
      EraseOldestConsistent(v);
      var u := EraseOldest(v);
      DrainMaps(u, quota - 1, now);
      var w := Drain(u, quota - 1, now);
      var x := v.c[v.list[|v.list| - 1].key];
      FdManager.ClosedTwice(v.fds, {x}, u.d.Keys - w.d.Keys);
      assert {x} + (u.d.Keys - w.d.Keys) == v.d.Keys - w.d.Keys;
    }
  }

  class ConvManager<T> {
    var dataToConv: map<nat, nat>
    var convToData: map<nat, nat>
    const lru: L.Lru
    const closer: FdManager.FdManager?<T>   // additional_clear_function: closes the descriptor; null on a client
    var lastClearTime: int

    ghost predicate Valid()
      reads this, lru, lru.clock
    {
      && lru.Valid()
      && Inverse(dataToConv, convToData)
      && lru.mp.Keys == convToData.Keys
    }

    /** The clear function's assertion holds: all data are live descriptors. */
    ghost predicate Closable()
      reads this, closer
    {
      closer != null ==> closer.Valid() && dataToConv.Keys <= closer.fd64ToFd.Keys
    }

    /** `last` is whatever the memory held: the constructor sets a local variable instead of the field. */
    constructor (clock: Clock.Clock, closer: FdManager.FdManager?<T>, last: int)
      ensures Valid() && fresh(lru) && lru.clock == clock && this.closer == closer
      ensures convToData == map[] && dataToConv == map[] && lru.Contents() == [] && lastClearTime == last
      ensures closer != null && closer.Valid() ==> Closable()
    {
      dataToConv, convToData := map[], map[];
      lru := new L.Lru(clock);
      this.closer := closer;
      lastClearTime := last;
    }

    function GetSize(): nat
      reads this
    {
      |convToData|
    }

    predicate IsConvUsed(conv: nat)
      reads this
    {
      conv in convToData
    }

    predicate IsDataUsed(data: nat)
      reads this
    {
      data in dataToConv
    }

    /** Draws random numbers until one is unused. */
    method GetNewConv(draws: seq<nat>) returns (conv: nat)
      requires exists d <- draws :: d !in convToData
      ensures conv in draws && conv !in convToData
    {
      var i := 0;
      while draws[i] in convToData
        invariant 0 <= i <= |draws| && exists j :: i <= j < |draws| && draws[j] !in convToData
        invariant forall j :: 0 <= j < i ==> draws[j] in convToData
        decreases |draws| - i
      {
        i := i + 1;
      }
      conv := draws[i];
    }

    method UpdateActiveTime(conv: nat, raw: nat)
      requires Valid() && conv in convToData
      modifies lru, lru.clock
      ensures Valid() && old(lru.clock.Reading()) <= lru.clock.Reading() && lru.clock.At() == Clock.Read(old(lru.clock.At()), raw)
      ensures lru.Contents() == [L.Entry(conv, lru.clock.Reading())] + L.Without(old(lru.Contents()), conv)
    {
      lru.Update(conv, raw);
    }

    method InsertConv(conv: nat, data: nat, raw: nat)
      requires Valid() && conv !in convToData && data !in dataToConv
      modifies this`dataToConv, this`convToData, lru, lru.clock
      ensures Valid() && old(lru.clock.Reading()) <= lru.clock.Reading() && lru.clock.At() == Clock.Read(old(lru.clock.At()), raw)
      ensures dataToConv == old(dataToConv)[data := conv] && convToData == old(convToData)[conv := data]
      ensures lru.Contents() == [L.Entry(conv, lru.clock.Reading())] + old(lru.Contents())
    {
      dataToConv := dataToConv[data := conv];
      convToData := convToData[conv := data];
      lru.NewKey(conv, raw);
    }

    method EraseConv(conv: nat)
      requires Valid() && Closable() && conv in convToData
      modifies this, lru, closer
      ensures Valid() && Closable() && lastClearTime == old(lastClearTime)
      ensures convToData == old(convToData) - {conv}
      ensures dataToConv == old(dataToConv) - {old(convToData[conv])}
      ensures lru.Contents() == L.Without(old(lru.Contents()), conv)
      ensures closer != null ==> closer.View() == FdManager.Closed(old(closer.View()), {old(convToData[conv])})
    {
      var data := convToData[conv];
      if closer != null {
        closer.Fd64Close(data);
      }
      convToData := convToData - {conv};
      dataToConv := dataToConv - {data};
      lru.Erase(conv);
    }

    /** The clear function on each of the data, in any order. */
    static method CloseAll(closer: FdManager.FdManager<T>, data: set<nat>)
      requires closer.Valid() && data <= closer.fd64ToFd.Keys
      modifies closer
      ensures closer.Valid() && closer.View() == FdManager.Closed(old(closer.View()), data)
    {
      var todo := data;
      FdManager.ClosedNone(closer.View());
      assert data - data == {};
      hide FdManager.Closed, FdManager.FdManager.View;
      while todo != {}
        invariant todo <= data && todo <= closer.fd64ToFd.Keys
        invariant closer.Valid() && closer.View() == FdManager.Closed(old(closer.View()), data - todo)
        decreases |todo|
      {
        var f :| f in todo;
        closer.Fd64Close(f);
        FdManager.ClosedTwice(old(closer.View()), data - todo, {f});
        assert data - todo + {f} == data - (todo - {f});
        todo := todo - {f};
      }
      assert data - todo == data;
    }

    /** Drops all conversations; the destructor does the same. */
    method Clear()
      requires Valid() && Closable()
      modifies this, lru, closer
      ensures Valid() && Closable()
      ensures convToData == map[] && dataToConv == map[] && lru.Contents() == []
      ensures closer != null ==> closer.View() == FdManager.Closed(old(closer.View()), old(dataToConv.Keys))
    {
      assert convToData.Values == dataToConv.Keys;
      if closer != null {
        CloseAll(closer, convToData.Values);
      }
      dataToConv, convToData := map[], map[];
      lru.Clear();
    }

    ghost function View(): State<T>
      reads this, lru, closer
    {
      State(dataToConv, convToData, lru.Contents(), if closer == null then NoFds() else closer.View())
    }

    lemma ViewConsistent()
      requires Valid()
      ensures Consistent(View())
    {
    }

    /** Erases the oldest conversation if it has expired. */
    method EraseBackIfExpired(currentTime: nat) returns (erased: bool)
      requires Valid() && Closable() && lru.clock.Reading() == currentTime
      modifies this, lru, closer
      ensures Valid() && Closable() && lastClearTime == old(lastClearTime)
      ensures erased == OldestExpired(old(View()), currentTime)
      ensures !erased ==> View() == old(View())
      ensures erased ==> old(View()).list[|old(View()).list| - 1].key in old(View()).c && View() == EraseOldest(old(View()))
    {
      erased := false;
      if !lru.Empty() {
        var conv, ts := lru.PeekBack();
        assert lru.Contents()[0].ts >= ts;
        if currentTime - ts >= CONV_TIMEOUT {
          L.WithoutIsRemoval(lru.Contents(), |lru.Contents()| - 1);
          assert FdManager.Closed(NoFds<T>(), {convToData[conv]}) == NoFds<T>();
          EraseConv(conv);
          erased := true;
        }
      }
    }

    /** The loop of a pass: erases from the old end until the quota, the list or the expired ones run out. */
    method EvictExpired(numToClean: nat, currentTime: nat)
      requires Valid() && Closable() && lru.clock.Reading() == currentTime
      modifies this, lru, closer
      ensures Valid() && Closable() && lastClearTime == old(lastClearTime)
      ensures Consistent(old(View())) && View() == Drain(old(View()), numToClean, currentTime)
    {
      ViewConsistent();
      var cnt, more := 0, true;
      hide View, Valid, Consistent, Inverse, Closable, EraseOldest, OldestExpired, Drain;
      while more && cnt < numToClean
        invariant Valid() && Closable() && lastClearTime == old(lastClearTime)
        invariant lru.clock.Reading() == currentTime
        invariant cnt <= numToClean && Consistent(View())
        invariant Drain(old(View()), numToClean, currentTime) ==
                  if more then Drain(View(), numToClean - cnt, currentTime) else View()
        decreases numToClean - cnt, more
      {
        DrainStep(View(), numToClean - cnt, currentTime);
        more := EraseBackIfExpired(currentTime);
        ViewConsistent();
        if more { cnt := cnt + 1; }
      }
      DrainStep(View(), 0, currentTime);
    }

    /** One bounded pass over the oldest conversations. */
    method ClearInactive0(raw: nat)
      requires Valid() && Closable()
      modifies this, lru, lru.clock, closer
      ensures Valid() && Closable() && lastClearTime == old(lastClearTime)
      ensures old(lru.clock.Reading()) <= lru.clock.Reading() && lru.clock.At() == Clock.Read(old(lru.clock.At()), raw)
      ensures lru.Contents() == Pass(old(lru.Contents()), lru.clock.Reading())
      ensures dataToConv.Keys <= old(dataToConv.Keys)
      ensures convToData.Keys <= old(convToData.Keys) && forall k <- convToData :: convToData[k] == old(convToData)[k]
      ensures closer != null ==>
                closer.View() == FdManager.Closed(old(closer.View()), old(dataToConv.Keys) - dataToConv.Keys)
    {
      hide Drain, Kept, Expired, Inverse, FdManager.Closed, L.Linked, FdManager.FdManager.Valid, Clock.Read;
      var size := |lru.q|;
      var numToClean := Min(size / CONV_CLEAR_RATIO + CONV_CLEAR_MIN, size);
      var currentTime := lru.clock.CurrentTime(raw);
      ViewConsistent();
      DrainList(View(), numToClean, currentTime);
      DrainMaps(View(), numToClean, currentTime);
      EvictExpired(numToClean, currentTime);
    }

    /** At most one pass per second.  The subtraction is unsigned, so a `lastClearTime` in the future, such
        as an uninitialised one, also starts a pass. */
    method ClearInactive(raw1: nat, raw2: nat, raw3: nat) returns (due: bool, ghost now: nat)
      requires Valid() && Closable()
      modifies this, lru, lru.clock, closer
      ensures Valid() && Closable()
      ensures old(lru.clock.Reading()) <= lru.clock.Reading()
      ensures old(lru.clock.Reading()) <= now <= lru.clock.Reading()
      ensures due <==> ClearDue(old(lastClearTime), now)
      ensures now == Clock.Read(old(lru.clock.At()), raw1).top / 1000
      ensures due ==> now <= lastClearTime <= lru.clock.Reading()
      ensures !due ==> convToData == old(convToData) && dataToConv == old(dataToConv)
                       && lru.Contents() == old(lru.Contents()) && lastClearTime == old(lastClearTime)
                       && (closer != null ==> closer.View() == old(closer.View()))
      ensures due ==> lru.Contents() == Pass(old(lru.Contents()), lru.clock.Reading())
      ensures dataToConv.Keys <= old(dataToConv.Keys)
      ensures convToData.Keys <= old(convToData.Keys) && forall k <- convToData :: convToData[k] == old(convToData)[k]
      ensures closer != null ==>
                closer.View() == FdManager.Closed(old(closer.View()), old(dataToConv.Keys) - dataToConv.Keys)
    {
      hide Clock.Read;
      var t := lru.clock.CurrentTime(raw1);
      now := t;
      due := ClearDue(lastClearTime, t);
      if due {
        lastClearTime := lru.clock.CurrentTime(raw2);
        ClearInactive0(raw3);
      }
    }

    /** The client's choice of a conversation for a peer address: the known one, or a new one while fewer
        than `MAX_CONV_NUM` are live. */
    method ConvForPeer(addr: nat, draws: seq<nat>, raw1: nat, raw2: nat) returns (ok: bool, conv: nat)
      requires Valid() && |convToData| <= MAX_CONV_NUM
      requires addr !in dataToConv ==> exists d <- draws :: d !in convToData
      modifies this`dataToConv, this`convToData, lru, lru.clock
      ensures Valid() && |convToData| <= MAX_CONV_NUM && old(lru.clock.Reading()) <= lru.clock.Reading()
      ensures ok <==> addr in old(dataToConv) || |old(convToData)| < MAX_CONV_NUM
      ensures !ok ==> convToData == old(convToData) && lru.Contents() == old(lru.Contents())
      ensures ok ==> conv in convToData && convToData[conv] == addr
                     && lru.Contents() == [L.Entry(conv, lru.clock.Reading())] + L.Without(old(lru.Contents()), conv)
      ensures ok && addr in old(dataToConv) ==> convToData == old(convToData)
      ensures ok && addr !in old(dataToConv) ==> conv !in old(convToData) && convToData == old(convToData)[conv := addr]
    {
      ok, conv := true, 0;
      ghost var s := lru.Contents();
      assert L.Keys(s) == convToData.Keys;
      hide L.Lru.Valid, L.Lru.Contents, L.Without, L.Keys;
      if !IsDataUsed(addr) {
        if GetSize() >= MAX_CONV_NUM {
          return false, 0;
        }
        conv := GetNewConv(draws);
        InsertConv(conv, addr, raw1);
        L.WithoutHead(L.Entry(conv, lru.clock.Reading()), s);
      } else {
        conv := dataToConv[addr];
      }
      UpdateActiveTime(conv, raw2);
    }
  }
}
