/** The timer part of libev's event loop: starting, stopping and rearming timers, making expired ones pending,
and running pending events. */
module Timers {
  import opened TimerHeap
  import opened Pending
  import Reify

  ghost predicate Fit(w: Watcher)
    reads w`repeat, w`priority
  {
    w.repeat >= 0.0 && EV_MINPRI <= w.priority <= EV_MAXPRI
  }

  /** The expiry next to each pointer is the timer's own, and the timers are fit to be fed. */
  ghost predicate Cached(s: seq<Anhe>)
    reads Watchers(s)`at, Watchers(s)`repeat, Watchers(s)`priority
  {
    forall i :: 0 <= i < |s| ==> s[i].at == s[i].w.at && Fit(s[i].w)
  }

  lemma SameMembers(s: seq<Anhe>, t: seq<Anhe>)
    requires multiset(s) == multiset(t)
    ensures forall i :: 0 <= i < |s| ==> s[i] in t
    ensures Watchers(s) == Watchers(t)
  {
    forall i | 0 <= i < |s| ensures s[i] in t && s[i].w in Watchers(t) {
      Reify.MembersOfMultiset(s, t, s[i]);
      var j :| 0 <= j < |t| && t[j] == s[i];
    }
    forall i | 0 <= i < |t| ensures t[i].w in Watchers(s) {
      Reify.MembersOfMultiset(s, t, t[i]);
      var j :| 0 <= j < |s| && s[j] == t[i];
    }
  }

  lemma CachedPermutes(s: seq<Anhe>, t: seq<Anhe>)
    requires multiset(s) == multiset(t) && Cached(s)
    ensures Cached(t)
  {
    SameMembers(t, s);
    forall i | 0 <= i < |t| ensures t[i].at == t[i].w.at && Fit(t[i].w) {
      var j :| 0 <= j < |s| && s[j] == t[i];
    }
  }

  lemma WatchersAdd(s: seq<Anhe>, e: Anhe)
    ensures Watchers(s + [e]) == Watchers(s) + {e.w}
  {
    var t := s + [e];
    forall w | w in Watchers(s) + {e.w} ensures w in Watchers(t) {
      if w == e.w { assert t[|s|].w == w; } else { var i :| 0 <= i < |s| && s[i].w == w; assert t[i].w == w; }
    }
  }

  lemma NotAmong(s: seq<Anhe>, w: Watcher)
    requires w !in Watchers(s)
    ensures forall i :: 0 <= i < |s| ==> s[i].w != w
  {
  }

  lemma CachedCons(s: seq<Anhe>, e: Anhe)
    requires Cached(s) && e.at == e.w.at && Fit(e.w)
    ensures Cached(s + [e])
  {
  }

  /** What is left when element `k` is taken out. */
  function Without(s: seq<Anhe>, k: nat): seq<Anhe>
    requires k < |s|
  {
    s[..k] + s[k + 1..]
  }

  lemma TakenOut(s: seq<Anhe>, k: nat)
    requires k < |s| && Apart(s) && Cached(s)
    ensures var t := Without(s, k);
            multiset(t) == multiset(s) - multiset{s[k]} && Cached(t) && Watchers(t) == Watchers(s) - {s[k].w}
  {
    hide Without, Watchers, Apart, Cached;
    TakenOutElements(s, k);
    WithoutIsApart(s, k);
    WithoutIsCached(s, k);
  }

  lemma TakenOutElements(s: seq<Anhe>, k: nat)
    requires k < |s|
    ensures multiset(Without(s, k)) == multiset(s) - multiset{s[k]}
  {
    assert s == s[..k] + [s[k]] + s[k + 1..];
  }

  lemma WithoutIsCached(s: seq<Anhe>, k: nat)
    requires k < |s| && Cached(s)
    ensures Cached(Without(s, k))
  {
    hide Fit;
    var t := Without(s, k);
    assert forall i :: 0 <= i < |t| ==> t[i] == s[if i < k then i else i + 1];
  }

  lemma WithoutIsApart(s: seq<Anhe>, k: nat)
    requires k < |s| && Apart(s)
    ensures Watchers(Without(s, k)) == Watchers(s) - {s[k].w}
  {
    var t := Without(s, k);
    assert forall i :: 0 <= i < |t| ==> t[i] == s[if i < k then i else i + 1];
    forall w | w in Watchers(s) - {s[k].w} ensures w in Watchers(t) {
      var i :| 0 <= i < |s| && s[i].w == w;
      assert t[if i < k then i else i - 1].w == w;
    }
  }

  /** One timer got another expiry, in itself and next to its pointer. */
  twostate lemma Recached(s: seq<Anhe>, new k: nat, new at: real)
    requires old(Cached(s)) && Apart(s) && k < |s| && s[k].w.at == at
    requires forall w :: w in Watchers(s) ==> w.repeat == old(w.repeat) && w.priority == old(w.priority)
    requires forall w :: w in Watchers(s) && w != s[k].w ==> w.at == old(w.at)
    ensures Cached(s[k := Anhe(at, s[k].w)])
  {
    var t := s[k := Anhe(at, s[k].w)];
    forall i | 0 <= i < |t| ensures t[i].at == t[i].w.at && Fit(t[i].w) {
      assert s[i].w in Watchers(s);
    }
  }

  class EvLoop {
    var mnNow: real
    var timers: array<Anhe>
    var timercnt: nat
    const pendings: array<seq<Pend>>     // one queue per priority
    var rfeeds: seq<Watcher>
    const nobody: Watcher                // pending_w, whose callback does nothing
    ghost var entries: seq<Anhe>         // what the heap holds
    ghost var rest: seq<Anhe>            // and what is left of its array
    ghost var known: set<Watcher>        // the watchers ever initialised

    static function Pri(w: Watcher): int
      reads w`priority
    {
      w.priority - EV_MINPRI
    }

    /** `verify_heap` (positions, order, cached expiries), and that the active timers are those in the heap. */
    ghost predicate HeapValid()
      reads this`timers, this`timercnt, this`entries, this`rest, this`known
      reads timers, known`active, Watchers(entries)`active, Watchers(entries)`at, Watchers(entries)`repeat, Watchers(entries)`priority
    {
      && timercnt == |entries| && Holds(timers, entries, -1, rest) && Ordered(entries) && Cached(entries)
      && Watchers(entries) <= known
      && (forall w :: w in known ==> (w.active != 0 <==> w in Watchers(entries)))
    }

    /** Slot `i` of queue `p`: nobody, or a watcher of that priority that knows its slot. */
    ghost predicate SlotOk(p: nat, i: nat)
      requires p < pendings.Length && i < |pendings[p]|
      reads this`known, pendings, pendings[p][i].w`pending, pendings[p][i].w`priority
    {
      var w := pendings[p][i].w;
      w == nobody || (w in known && Pri(w) == p && w.pending == i + 1)
    }

    /** `verify_watcher` of every watcher. */
    ghost predicate WaitsOk(w: Watcher)
      requires pendings.Length == NUMPRI
      reads pendings, w`pending, w`priority
    {
      w.pending > 0 ==> 0 <= Pri(w) < NUMPRI && w.pending <= |pendings[Pri(w)]| && pendings[Pri(w)][w.pending - 1].w == w
    }

    ghost predicate PendValid()
      reads this`known, pendings, known`pending, known`priority, nobody`pending, nobody`priority
    {
      && pendings.Length == NUMPRI && nobody !in known && nobody.pending == 0
      && (forall w :: w in known ==> WaitsOk(w))
      && (forall p: nat, i: nat :: p < NUMPRI && i < |pendings[p]| ==> pendings[p][i].w == nobody || pendings[p][i].w in known)
      && (forall p: nat, i: nat :: p < NUMPRI && i < |pendings[p]| ==> SlotOk(p, i))
    }

    ghost predicate Valid()
      reads this, timers, pendings, known, Watchers(entries)`active, Watchers(entries)`at, Watchers(entries)`repeat, Watchers(entries)`priority
      reads nobody`pending, nobody`priority
    {
      HeapValid() && PendValid()
    }

    constructor (now: real)
      ensures Valid() && mnNow == now && known == {} && entries == [] && rfeeds == []
      ensures fresh(timers) && fresh(pendings) && fresh(nobody)
      ensures forall p :: 0 <= p < NUMPRI ==> pendings[p] == []
    {
      var w := new Watcher(0.0, 0.0, 0);
      nobody := w;
      mnNow, timercnt, rfeeds, entries, known := now, 0, [], [], {};
      timers := new Anhe[HEAP0](_ => Anhe(0.0, w));
      pendings := new seq<Pend>[NUMPRI](_ => []);
      rest := [];
    }

    twostate lemma MetHeap(new w: Watcher)
      requires old(HeapValid()) && known == old(known) + {w} && w.active == 0 && w !in old(known)
      requires timers == old(timers) && timercnt == old(timercnt) && entries == old(entries) && rest == old(rest)
      requires unchanged(timers) && forall v :: v in old(known) ==> unchanged(v)
      ensures HeapValid()
    {
      assert forall v :: v in Watchers(entries) ==> v in old(known);
      assert Holds(timers, entries, -1, rest);
    }

    twostate lemma MetPend(new w: Watcher)
      requires old(PendValid()) && known == old(known) + {w} && w.pending == 0 && w != nobody && w !in old(known)
      requires unchanged(pendings) && unchanged(nobody) && forall v :: v in old(known) ==> unchanged(v)
      ensures PendValid()
    {
      forall v | v in known ensures WaitsOk(v) {
        if v != w { assert old(WaitsOk(v)); }
      }
      forall p: nat, i: nat | p < NUMPRI && i < |pendings[p]| ensures SlotOk(p, i) {
        assert old(SlotOk(p, i));
      }
    }

    /** `ev_timer_init` */
    method Init(after: real, repeat: real, priority: int) returns (w: Watcher)
      requires Valid()
      modifies this`known
      ensures Valid() && fresh(w) && known == old(known) + {w}
      ensures w.at == after && w.repeat == repeat && w.priority == priority && w.active == 0 && w.pending == 0
    {
      hide HeapValid, PendValid;
      w := new Watcher(after, repeat, priority);
      known := known + {w};
      MetHeap(w);
      MetPend(w);
    }

    // ----- pending events -----

    lemma SlotAt(p: nat, i: nat)
      requires PendValid() && p < NUMPRI && i < |pendings[p]|
      ensures SlotOk(p, i)
    {
    }

    lemma WaitsAt(w: Watcher)
      requires PendValid() && w in known
      ensures WaitsOk(w)
    {
    }

    /** A watcher is pending exactly when it waits in its queue, and then it knows its slot. */
    lemma PendingIsWaiting(w: Watcher, p: nat)
      requires PendValid() && w in known && p < NUMPRI
      ensures Waits(pendings[p], w) <==> w.pending > 0 && Pri(w) == p
      ensures w.pending > 0 && Pri(w) == p ==> w.pending - 1 == Find(pendings[p], w)
    {
      WaitsAt(w);
      var i := Find(pendings[p], w);
      if i < |pendings[p]| { SlotAt(p, i); }
      if w.pending > 0 && Pri(w) == p {
        WaitsIff(pendings[p], w);
        assert pendings[p][w.pending - 1].w == w;
      }
    }

    /** Where a watcher waits: nowhere, or in one slot. */
    lemma OnlySlot(w: Watcher)
      requires PendValid() && w in known
      ensures forall p: nat, i: nat :: p < NUMPRI && i < |pendings[p]| && pendings[p][i].w == w ==> Pri(w) == p && w.pending == i + 1
    {
      forall p: nat, i: nat | p < NUMPRI && i < |pendings[p]| && pendings[p][i].w == w ensures Pri(w) == p && w.pending == i + 1 {
        SlotAt(p, i);
      }
    }

    /** Slots and watchers after only `w` and its slot changed. */
    twostate lemma OthersWait(w: Watcher)
      requires old(PendValid()) && known == old(known) && w in known && nobody.pending == 0
      requires forall v :: v in old(known) && v != w ==> v.pending == old(v.pending)
      requires forall v :: v in old(known) && v != w ==> v.priority == old(v.priority)
      requires forall p :: 0 <= p < NUMPRI ==> |pendings[p]| >= old(|pendings[p]|)
      requires forall p: nat, i: nat :: p < NUMPRI && i < |pendings[p]| ==>
                 (i < old(|pendings[p]|) && pendings[p][i].w == old(pendings[p][i].w))
                 || pendings[p][i].w == nobody || (pendings[p][i].w == w && Pri(w) == p && w.pending == i + 1)
      requires forall p: nat, i: nat :: p < NUMPRI && i < old(|pendings[p]|) && pendings[p][i].w == w ==> Pri(w) == p && w.pending == i + 1
      requires forall p: nat, i: nat :: p < NUMPRI && i < old(|pendings[p]|) && old(pendings[p][i].w) != w ==> pendings[p][i].w == old(pendings[p][i].w)
      requires WaitsOk(w)
      ensures PendValid()
    {
      forall v | v in known ensures WaitsOk(v) {
        if v != w { assert old(WaitsOk(v)); }
      }
      forall p: nat, i: nat | p < NUMPRI && i < |pendings[p]|
        ensures (pendings[p][i].w == nobody || pendings[p][i].w in known) && SlotOk(p, i) {
        if i < old(|pendings[p]|) { assert old(SlotOk(p, i)); }
      }
    }

    /** `ev_feed_event` */
    method EvFeedEvent(w: Watcher, revents: bv32)
      requires PendValid() && w in known && 0 <= Pri(w) < NUMPRI
      modifies pendings, w`pending
      ensures PendValid()
      ensures forall p :: 0 <= p < NUMPRI ==>
                pendings[p] == if p == Pri(w) then Feed(old(pendings[p]), w, revents) else old(pendings[p])
    {
      hide PendValid, Or, Find;
      PendShape();
      var pri := Pri(w);
      PendingIsWaiting(w, pri);
      WaitsAt(w);
      OnlySlot(w);
      if w.pending > 0 {
        var i := w.pending - 1;
        pendings[pri] := pendings[pri][i := Pend(pendings[pri][i].w, Or(pendings[pri][i].events, revents))];
      } else {
        w.pending := |pendings[pri]| + 1;
        pendings[pri] := pendings[pri] + [Pend(w, revents)];
      }
      OthersWait(w);
    }

    lemma PendShape()
      requires PendValid()
      ensures pendings.Length == NUMPRI && nobody !in known && nobody.pending == 0
    {
    }

    /** `clear_pending` */
    method ClearPending(w: Watcher)
      requires PendValid() && w in known
      modifies pendings, w`pending
      ensures PendValid() && w.pending == 0
      ensures forall p :: 0 <= p < NUMPRI ==> pendings[p] == Clear(old(pendings[p]), w, nobody)
    {
      hide PendValid, Find;
      PendShape();
      WaitsAt(w);
      OnlySlot(w);
      forall p: nat | p < NUMPRI ensures Waits(pendings[p], w) <==> w.pending > 0 && Pri(w) == p
        ensures w.pending > 0 && Pri(w) == p ==> w.pending - 1 == Find(pendings[p], w) { PendingIsWaiting(w, p); }
      if w.pending > 0 {
        var pri, i := Pri(w), w.pending - 1;
        pendings[pri] := pendings[pri][i := Pend(nobody, pendings[pri][i].events)];
        w.pending := 0;
        OthersWait(w);
      }
    }

    // ----- timers -----

    lemma HeapShape()
      requires HeapValid()
      ensures timercnt == |entries| && Holds(timers, entries, -1, rest) && Ordered(entries) && Cached(entries) && Apart(entries)
      ensures Watchers(entries) <= known && timers.Length == HEAP0 + |entries| + |rest|
      ensures forall w :: w in known ==> (w.active != 0 <==> w in Watchers(entries))
    {
    }

    /** An active timer is where its index says. */
    lemma ActiveAt(w: Watcher)
      requires HeapValid() && w in known && w.active != 0
      ensures HEAP0 <= w.active < HEAP0 + |entries| && entries[w.active - HEAP0].w == w == timers[w.active].w
    {
      var i :| 0 <= i < |entries| && entries[i].w == w;
      assert timers[HEAP0 + i] == entries[i];
    }

    /** `array_needsize`: room for one more element, possibly in a bigger array. */
    method MakeRoom()
      requires HeapValid()
      modifies this`timers, this`rest
      ensures HeapValid() && rest != [] && (timers == old(timers) || fresh(timers))
    {
      if timercnt + HEAP0 == timers.Length {
        var was := timers;
        ghost var s := entries;
        timers := new Anhe[2 * was.Length + 1](i requires 0 <= i reads was => if i < was.Length then was[i] else Anhe(0.0, nobody));
        rest := timers[HEAP0 + |s|..];
        assert Holds(timers, s, -1, rest);
      }
    }

    lemma HeldActive()
      requires Holds(timers, entries, -1, rest)
      ensures forall w :: w in Watchers(entries) ==> w.active != 0
    {
    }

    /** `ev_timer_start`: a timer that is not active yet enters the heap with its delay made absolute. */
    method EvTimerStart(w: Watcher)
      requires Valid() && w in known && w.repeat >= 0.0
      modifies this`timers, this`timercnt, this`entries, this`rest, timers, w`priority, w`at, w`active, Watchers(entries)`active
      ensures Valid() && (timers == old(timers) || fresh(timers))
      ensures old(w.active) != 0 ==> entries == old(entries) && w.at == old(w.at) && w.active == old(w.active)
      ensures old(w.active) == 0 ==> entries == Entered(old(entries), Anhe(old(w.at) + mnNow, w)) && w.at == old(w.at) + mnNow && w.active != 0
      ensures w.priority == if old(w.active) != 0 then old(w.priority)
                            else if old(w.priority) < -2 then -2 else if old(w.priority) > 2 then 2 else old(w.priority)
    {
      hide HeapValid, PendValid, Holds, Entered, Apart;
      if w.active != 0 { return; }
      HeapShape();
      MakeRoom();
      PriAdjust(w);
      EnterTimer(w);
    }

    method EnterTimer(w: Watcher)
      requires HeapValid() && w in known && w.active == 0 && Fit(w) && rest != []
      modifies this`timercnt, this`entries, this`rest, timers, w`at, w`active, Watchers(entries)`active
      ensures HeapValid() && timers == old(timers)
      ensures entries == Entered(old(entries), Anhe(old(w.at) + mnNow, w)) && w.at == old(w.at) + mnNow && w.active != 0
    {
      hide HeapValid, Holds, Entered, Ordered, Cached, Watchers;
      HeapShape();
      ghost var s := entries;
      NotAmong(s, w);
      w.at := w.at + mnNow;
      var e := Anhe(w.at, w);
      assert Cached(s + [e]) by { CachedCons(s, e); }
      WatchersAdd(s, e);
      EnteredOk(s, e);
      timercnt := timercnt + 1;
      Insert(timers, timercnt - 1, e, s, rest);
      entries := Entered(s, e);
      rest := rest[1..];
      assert multiset(s + [e]) == multiset(s) + multiset{e};
      Settled(s + [e]);
      HeapShape();
    }

    /** The heap is in order again after its elements `s` were moved. */
    lemma Settled(s: seq<Anhe>)
      requires timercnt == |entries| && Holds(timers, entries, -1, rest) && Ordered(entries)
      requires multiset(s) == multiset(entries) && Cached(s) && Watchers(s) <= known
      requires forall w :: w in known && w !in Watchers(s) ==> w.active == 0
      ensures HeapValid() && Watchers(entries) == Watchers(s)
    {
      hide Holds, Ordered, Cached, Watchers;
      SameMembers(s, entries);
      CachedPermutes(s, entries);
      HeldActive();
    }

    /** `pri_adjust` */
    method PriAdjust(w: Watcher)
      requires PendValid() && w in known
      modifies w`priority
      ensures PendValid() && 0 <= Pri(w) < NUMPRI
      ensures w.priority == if old(w.priority) < -2 then -2 else if old(w.priority) > 2 then 2 else old(w.priority)
    {
      hide PendValid;
      WaitsAt(w);
      OnlySlot(w);
      PendShape();
      if w.priority < EV_MINPRI { w.priority := EV_MINPRI; }
      if w.priority > EV_MAXPRI { w.priority := EV_MAXPRI; }
      OthersWait(w);
    }

    /** `ev_timer_stop`: an active timer leaves the heap, its expiry made relative again. */
    method EvTimerStop(w: Watcher)
      requires Valid() && w in known
      modifies this`timercnt, this`entries, this`rest, timers, pendings, w`pending, w`at, w`active, Watchers(entries)`active
      ensures Valid() && w.pending == 0 && w.active == 0
      ensures forall p :: 0 <= p < NUMPRI ==> pendings[p] == Clear(old(pendings[p]), w, nobody)
      ensures old(w.active) == 0 ==> entries == old(entries) && w.at == old(w.at)
      ensures old(w.active) != 0 ==> w.at == old(w.at) - mnNow
      ensures old(w.active) != 0 ==> HEAP0 <= old(w.active) < HEAP0 + old(|entries|) && old(entries[w.active - HEAP0].w) == w
                                     && entries == Removed(old(entries), old(w.active) - HEAP0)
    {
      hide HeapValid, PendValid, Clear, Removed;
      ClearPending(w);
      if w.active != 0 {
        LeaveTimer(w);
      }
    }

    method LeaveTimer(w: Watcher)
      requires HeapValid() && w in known && w.active != 0
      modifies this`timercnt, this`entries, this`rest, timers, w`at, w`active, Watchers(entries)`active
      ensures HeapValid() && w.active == 0 && w.at == old(w.at) - mnNow
      ensures HEAP0 <= old(w.active) < HEAP0 + old(|entries|) && old(entries[w.active - HEAP0].w) == w
      ensures entries == Removed(old(entries), old(w.active) - HEAP0)
    {
      hide HeapValid, Holds, Removed, Ordered, Cached, Watchers, Apart, Without;
      HeapShape();
      ActiveAt(w);
      ghost var s := entries;
      var active := w.active;
      assert timers[active].w == w;
      ghost var t := Without(s, active - HEAP0);
      LeaveFacts(s, active - HEAP0);
      timercnt := timercnt - 1;
      Remove(timers, timercnt, active - HEAP0, s, rest);
      entries := Removed(s, active - HEAP0);
      rest := [s[|s| - 1]] + rest;
      Unlink(w, t);
    }

    lemma LeaveFacts(s: seq<Anhe>, k: nat)
      requires k < |s| && Apart(s) && Cached(s) && Ordered(s)
      ensures Ordered(Removed(s, k)) && |Removed(s, k)| == |s| - 1 && multiset(Without(s, k)) == multiset(Removed(s, k))
      ensures Cached(Without(s, k)) && Watchers(Without(s, k)) == Watchers(s) - {s[k].w}
    {
      hide Ordered, Removed, Cached, Watchers, Without, Apart;
      TakenOut(s, k);
      RemovedOk(s, k);
      RemovedSize(s, k);
    }

    lemma RemovedSize(s: seq<Anhe>, k: nat)
      requires k < |s|
      ensures |Removed(s, k)| == |s| - 1
    {
    }

    /** The last steps of `ev_timer_stop`, when the timer is out of the heap. */
    method Unlink(w: Watcher, ghost t: seq<Anhe>)
      requires timercnt == |entries| && Holds(timers, entries, -1, rest) && Ordered(entries)
      requires multiset(t) == multiset(entries) && Cached(t) && w in known && w !in Watchers(t) && Watchers(t) <= known
      requires forall v :: v in known && v !in Watchers(t) && v != w ==> v.active == 0
      modifies w`at, w`active
      ensures HeapValid() && w.at == old(w.at) - mnNow && w.active == 0
    {
      hide HeapValid, Holds, Ordered, Cached, Watchers;
      SameMembers(t, entries);
      w.at := w.at - mnNow;
      w.active := 0;
      Unlinked(t);
      Settled(t);
    }

    /** A timer that is no longer in the heap does not matter to it. */
    twostate lemma Unlinked(t: seq<Anhe>)
      requires old(Holds(timers, entries, -1, rest)) && old(Cached(t))
      requires Watchers(t) == Watchers(entries) && unchanged(this) && unchanged(timers)
      requires forall v :: v in Watchers(t) ==> unchanged(v)
      ensures Holds(timers, entries, -1, rest) && Cached(t)
    {
    }

    /** `ev_timer_again`: a repeating timer is rearmed to run after its interval, another one is stopped. */
    method EvTimerAgain(w: Watcher)
      requires Valid() && w in known && w.repeat >= 0.0
      modifies this`timers, this`timercnt, this`entries, this`rest, timers, pendings
      modifies w`pending, w`at, w`active, w`priority, Watchers(entries)`active
      ensures Valid() && w.pending == 0 && (timers == old(timers) || fresh(timers))
      ensures forall p :: 0 <= p < NUMPRI ==> pendings[p] == Clear(old(pendings[p]), w, nobody)
      ensures w.active != 0 <==> w.repeat != 0.0
      ensures w.repeat != 0.0 ==> w.at == mnNow + w.repeat
      ensures old(w.active) != 0 ==> HEAP0 <= old(w.active) < HEAP0 + old(|entries|) && old(entries[w.active - HEAP0].w) == w
      ensures entries == if old(w.active) != 0
                         then if w.repeat != 0.0 then Changed(old(entries), old(w.active) - HEAP0, mnNow + w.repeat)
                              else Removed(old(entries), old(w.active) - HEAP0)
                         else if w.repeat != 0.0 then Entered(old(entries), Anhe(w.repeat + mnNow, w))
                         else old(entries)
    {
      hide HeapValid, PendValid, Clear, Removed, Changed, Entered;
      HeapShape();
      ClearPending(w);
      if w.active != 0 {
        if w.repeat != 0.0 {
          MoveTimer(w, mnNow + w.repeat);
        } else {
          LeaveTimer(w);
        }
      } else if w.repeat != 0.0 {
        w.at := w.repeat;
        EvTimerStart(w);
      }
    }

    /** An active timer gets another expiry. */
    method MoveTimer(w: Watcher, at: real)
      requires HeapValid() && w in known && w.active != 0
      modifies timers, this`entries, w`at, Watchers(entries)`active
      ensures HeapValid() && w.at == at && w.active != 0
      ensures HEAP0 <= old(w.active) < HEAP0 + old(|entries|) && old(entries[w.active - HEAP0].w) == w
      ensures entries == Changed(old(entries), old(w.active) - HEAP0, at)
    {
      hide HeapValid, Holds, Changed, Ordered, Cached, Watchers, Apart;
      HeapShape();
      ActiveAt(w);
      ghost var s := entries;
      ghost var k: nat := w.active - HEAP0;
      ghost var t := s[k := Anhe(at, w)];
      w.at := at;
      Recached(s, k, at);
      RecachedApart(s, k, at);
      ChangedOk(s, k, at);
      Change(timers, timercnt, w.active - HEAP0, at, s, rest);
      entries := Changed(s, k, at);
      assert multiset(t) == multiset(s) - multiset{s[k]} + multiset{Anhe(at, w)};
      Settled(t);
      HeapShape();
    }

    // ----- expired timers -----

    /** The repeat intervals of all watchers. */
    ghost predicate RepeatsAre(repeats: map<Watcher, real>)
      reads this`known, known`repeat
    {
      forall w :: w in known ==> w in repeats && repeats[w] == w.repeat
    }

    lemma GoodHeap(repeats: map<Watcher, real>)
      requires HeapValid() && RepeatsAre(repeats)
      ensures Reify.Good(entries, repeats)
    {
      forall i | 0 <= i < |entries| ensures entries[i].w in repeats { assert entries[i].w in Watchers(entries); }
    }

    lemma RootFacts()
      requires HeapValid() && timercnt > 0
      ensures entries != [] && timers.Length > HEAP0 && timers[HEAP0] == entries[0]
      ensures entries[0].w in known && entries[0].w.active == HEAP0 && entries[0].at == entries[0].w.at && Fit(entries[0].w)
    {
      assert entries[0].w in Watchers(entries);
      assert timers[HEAP0 + 0] == entries[0];
    }

    /** One turn of the loop of `timers_reify`: reschedules or stops the timer at the root. */
    method ReifyRoot(ghost repeats: map<Watcher, real>) returns (w: Watcher)
      requires Valid() && RepeatsAre(repeats) && timercnt > 0 && timers[HEAP0].at < mnNow
      modifies this`timercnt, this`entries, this`rest, timers, pendings, Watchers(entries)`pending, Watchers(entries)`at, Watchers(entries)`active
      ensures Valid() && RepeatsAre(repeats)
      ensures old(entries) != [] && w == old(entries)[0].w && w in repeats && w in known && Fit(w)
      ensures entries == Reify.Turn(old(entries), mnNow, repeats) && Watchers(entries) <= old(Watchers(entries))
      ensures if repeats[w] != 0.0
              then mnNow <= w.at && old(entries)[0].at + repeats[w] <= w.at && (w.at == mnNow || w.at == old(entries)[0].at + repeats[w])
              else w.active == 0
      ensures forall p :: 0 <= p < NUMPRI ==>
                pendings[p] == if repeats[w] != 0.0 then old(pendings[p]) else Clear(old(pendings[p]), w, nobody)
    {
      hide HeapValid, PendValid, Clear, Removed, Holds, Ordered, Cached;
      RootFacts();
      GoodHeap(repeats);
      w := timers[HEAP0].w;
      RootAmong(entries);
      if w.repeat != 0.0 {
        var at := w.at + w.repeat;
        if at < mnNow {
          at := mnNow;
        }
        assert w.repeat > 0.0;            // the loop's assertion
        RequeueRoot(w, at);
      } else {
        RemovedWatchers(entries, 0);
        EvTimerStop(w);
      }
    }

    lemma RootAmong(s: seq<Anhe>)
      requires s != []
      ensures s[0].w in Watchers(s)
    {
    }

    lemma RemovedWatchers(s: seq<Anhe>, k: nat)
      requires k < |s| && Ordered(s)
      ensures Watchers(Removed(s, k)) <= Watchers(s)
    {
      hide Removed, Ordered, Without, Watchers;
      RemovedOk(s, k);
      WithoutWatchers(s, k);
      SameMembers(Without(s, k), Removed(s, k));
    }

    lemma WithoutWatchers(s: seq<Anhe>, k: nat)
      requires k < |s|
      ensures multiset(Without(s, k)) == multiset(s) - multiset{s[k]} && Watchers(Without(s, k)) <= Watchers(s)
    {
      var t := Without(s, k);
      assert s == s[..k] + [s[k]] + s[k + 1..];
      assert forall i :: 0 <= i < |t| ==> t[i] == s[if i < k then i else i + 1];
    }

    /** The root gets its next expiry and sinks to where it fits. */
    method RequeueRoot(w: Watcher, at: real)
      requires HeapValid() && entries != [] && w == entries[0].w && w in known && w.active != 0
      modifies timers, this`entries, w`at, Watchers(entries)`active
      ensures HeapValid() && w.at == at
      ensures entries == Down(old(entries)[0 := Anhe(at, w)], 0) && Watchers(entries) == old(Watchers(entries))
    {
      hide HeapValid, Holds, Down, Ordered, Cached, Watchers, Apart;
      HeapShape();
      ghost var s := entries;
      ghost var t := s[0 := Anhe(at, w)];
      w.at := at;
      Recached(s, 0, at);
      RecachedApart(s, 0, at);
      RequeuedOrder(s, at);
      Requeue(timers, timercnt, at, s, rest);
      entries := Down(t, 0);
      Settled(t);
    }

    lemma RequeuedOrder(s: seq<Anhe>, at: real)
      requires s != [] && Ordered(s)
      ensures var t := s[0 := Anhe(at, s[0].w)]; Ordered(Down(t, 0)) && multiset(Down(t, 0)) == multiset(t) && |Down(t, 0)| == |s|
    {
      DownOrders(s[0 := Anhe(at, s[0].w)], 0);
      DownKeeps(s[0 := Anhe(at, s[0].w)], 0);
    }

    ghost predicate PrioritiesAre(pris: map<Watcher, int>)
      reads this`known, known`priority
    {
      forall w :: w in known ==> w in pris && pris[w] == Pri(w)
    }

    /** `feed_reverse_done` */
    method FeedReverseDone(revents: bv32, ghost pris: map<Watcher, int>)
      requires PendValid() && PrioritiesAre(pris) && forall w <- rfeeds :: w in known && Fit(w)
      modifies this`rfeeds, pendings, known`pending
      ensures PendValid() && rfeeds == []
      ensures forall p :: 0 <= p < NUMPRI ==>
                pendings[p] == FeedReversed(old(pendings[p]), OfPri(old(rfeeds), pris, p), revents)
    {
      hide PendValid, Feed, OfPri, FeedReversed;
      PendShape();
      while rfeeds != []
        invariant PendValid() && pendings.Length == NUMPRI && forall w <- rfeeds :: w in known && Fit(w)
        invariant forall p :: 0 <= p < NUMPRI ==>
                    FeedReversed(pendings[p], OfPri(rfeeds, pris, p), revents)
                    == FeedReversed(old(pendings[p]), OfPri(old(rfeeds), pris, p), revents)
      {
        assert rfeeds[|rfeeds| - 1] in rfeeds;
        forall p | 0 <= p < NUMPRI
          ensures FeedReversed(pendings[p], OfPri(rfeeds, pris, p), revents)
               == FeedReversed(if pris[rfeeds[|rfeeds| - 1]] == p then Feed(pendings[p], rfeeds[|rfeeds| - 1], revents) else pendings[p],
                               OfPri(rfeeds[..|rfeeds| - 1], pris, p), revents) {
          FeedLast(pendings[p], rfeeds, pris, p, revents);
        }
        var w := rfeeds[|rfeeds| - 1];
        assert w in rfeeds;
        rfeeds := rfeeds[..|rfeeds| - 1];
        EvFeedEvent(w, revents);
      }
      forall p | 0 <= p < NUMPRI ensures FeedReversed(pendings[p], OfPri([], pris, p), revents) == pendings[p] {
        FeedNobody(pendings[p], pris, p, revents);
      }
    }

    predicate RootLate()
      requires HeapValid() && timercnt > 0
      reads this, timers, known`active, Watchers(entries)`active, Watchers(entries)`at, Watchers(entries)`repeat, Watchers(entries)`priority
    {
      RootFacts();
      timers[HEAP0].at < mnNow
    }

    ghost predicate FedOk(fed: seq<Anhe>)
      reads this`rfeeds, this`known, known`repeat, known`priority
    {
      rfeeds == Reify.Fed(fed) && forall w <- rfeeds :: w in known && Fit(w)
    }

    /** One turn of the loop of `timers_reify`, with its `feed_reverse`. */
    method ReifyAndFeed(ghost fed: seq<Anhe>, ghost repeats: map<Watcher, real>) returns (ghost e: Anhe)
      requires Valid() && RepeatsAre(repeats) && FedOk(fed) && timercnt > 0 && RootLate()
      modifies this`timercnt, this`entries, this`rest, this`rfeeds, timers, pendings, known`pending, known`at, known`active
      ensures Valid() && RepeatsAre(repeats) && FedOk(fed + [e]) && e.w in repeats
      ensures old(entries) != [] && e == old(entries)[0] && e.at < mnNow
      ensures entries == Reify.Turn(old(entries), mnNow, repeats) && Watchers(entries) <= known
      ensures forall p :: 0 <= p < NUMPRI ==>
                pendings[p] == if repeats[e.w] != 0.0 then old(pendings[p]) else Clear(old(pendings[p]), e.w, nobody)
    {
      hide HeapValid, PendValid, Clear, Reify.Turn;
      HeapShape();
      RootEnd();
      GoodHeap(repeats);
      e := entries[0];
      Reify.FedMore(fed, e, repeats);
      var w := ReifyRoot(repeats);
      rfeeds := rfeeds + [w];
    }

    /** The loop of `timers_reify`. */
    method ReifyLoop(ghost repeats: map<Watcher, real>) returns (ghost fed: seq<Anhe>)
      requires Valid() && rfeeds == [] && RepeatsAre(repeats)
      modifies this`timercnt, this`entries, this`rest, this`rfeeds, timers, pendings, known`pending, known`at, known`active
      ensures Valid() && FedOk(fed) && Reify.Good(old(entries), repeats)
      ensures (entries, fed) == Reify.Run(old(entries), mnNow, repeats)
      ensures forall p :: 0 <= p < NUMPRI ==> pendings[p] == ClearAll(old(pendings[p]), Reify.Stopped(fed, repeats), nobody)
    {
      hide HeapValid, PendValid, Clear, ClearAll, Reify.Run, Reify.Good, Reify.Turn;
      GoodHeap(repeats);
      HeapShape();
      PendShape();
      fed := [];
      ghost var s := entries;
      Reify.FedNone(repeats);
      forall p | 0 <= p < NUMPRI ensures ClearAll(pendings[p], [], nobody) == pendings[p] { ClearNobody(pendings[p], nobody); }
      assert [] + Reify.Run(s, mnNow, repeats).1 == Reify.Run(s, mnNow, repeats).1;
      while timercnt > 0 && RootLate()
        invariant Valid() && RepeatsAre(repeats) && FedOk(fed)
        invariant Reify.Good(entries, repeats) && Watchers(entries) <= known
        invariant Reify.Run(s, mnNow, repeats) == (Reify.Run(entries, mnNow, repeats).0, fed + Reify.Run(entries, mnNow, repeats).1)
        invariant forall p :: 0 <= p < NUMPRI ==> pendings[p] == ClearAll(old(pendings[p]), Reify.Stopped(fed, repeats), nobody)
        decreases Reify.Late(entries, mnNow)
      {
        Reify.RunOnce(entries, mnNow, repeats);
        ghost var e := ReifyAndFeed(fed, repeats);
        forall p | 0 <= p < NUMPRI ensures pendings[p] == ClearAll(old(pendings[p]), Reify.Stopped(fed + [e], repeats), nobody) {
          StopMore(old(pendings[p]), fed, e, repeats, nobody);
        }
        assert fed + ([e] + Reify.Run(entries, mnNow, repeats).1) == (fed + [e]) + Reify.Run(entries, mnNow, repeats).1;
        fed := fed + [e];
      }
      RootEnd();
      Reify.RunOnce(entries, mnNow, repeats);
      assert fed + [] == fed;
    }

    /** `timers_reify`: the expired timers are rescheduled or stopped, and then made pending in reverse. */
    method TimersReify(ghost repeats: map<Watcher, real>, ghost pris: map<Watcher, int>) returns (ghost fed: seq<Anhe>)
      requires Valid() && rfeeds == [] && RepeatsAre(repeats) && PrioritiesAre(pris)
      modifies this`timercnt, this`entries, this`rest, this`rfeeds, timers, pendings, known`pending, known`at, known`active
      ensures Valid() && rfeeds == [] && Reify.Good(old(entries), repeats)
      ensures (entries, fed) == Reify.Run(old(entries), mnNow, repeats)
      ensures forall i :: 0 <= i < |fed| ==> fed[i].w in known && fed[i].w in repeats && fed[i].at < mnNow
      ensures forall i :: 0 <= i < |fed| && repeats[fed[i].w] != 0.0 ==>
                var w := fed[i].w;
                && w.active != 0 && mnNow <= w.at && fed[i].at + w.repeat <= w.at
                && (w.at == mnNow || w.at == fed[i].at + w.repeat)
      ensures forall p :: 0 <= p < NUMPRI ==>
                pendings[p] == FeedReversed(ClearAll(old(pendings[p]), Reify.Stopped(fed, repeats), nobody),
                                            OfPri(Reify.Fed(fed), pris, p), EV_TIMER)
    {
      hide HeapValid, PendValid, ClearAll, FeedReversed, Reify.Run, Reify.Good, OfPri;
      PendShape();
      HeapShape();
      if timercnt > 0 && RootLate() {
        fed := ReifyLoop(repeats);
        HeapShape();
        FeedReverseDone(EV_TIMER, pris);
        assert HeapValid();
      } else {
        fed := [];
        NothingLate(repeats, pris);
      }
      Rearmed(old(entries), fed, repeats);
    }

    /** The repeating timers among those handed over are active again, an interval later or now. */
    lemma Rearmed(s: seq<Anhe>, fed: seq<Anhe>, repeats: map<Watcher, real>)
      requires HeapValid() && RepeatsAre(repeats) && Reify.Good(s, repeats) && Watchers(s) <= known
      requires (entries, fed) == Reify.Run(s, mnNow, repeats)
      ensures forall i :: 0 <= i < |fed| ==> fed[i].w in known && fed[i].w in repeats && fed[i].at < mnNow
      ensures forall i :: 0 <= i < |fed| && repeats[fed[i].w] != 0.0 ==>
                var w := fed[i].w;
                && w.active != 0 && mnNow <= w.at && fed[i].at + w.repeat <= w.at
                && (w.at == mnNow || w.at == fed[i].at + w.repeat)
    {
      hide HeapValid, Reify.Run, Reify.Good;
      Reify.RunIsExact(s, mnNow, repeats);
      HeapShape();
      forall i | 0 <= i < |fed|
        ensures fed[i].w in known && fed[i].w in repeats && fed[i].at < mnNow
        ensures var w := fed[i].w; repeats[w] != 0.0 ==>
                  && w.active != 0 && mnNow <= w.at && fed[i].at + w.repeat <= w.at
                  && (w.at == mnNow || w.at == fed[i].at + w.repeat)
      {
        AmongWatchers(s, fed[i]);
        var w := fed[i].w;
        var at := if fed[i].at + w.repeat < mnNow then mnNow else fed[i].at + w.repeat;
        Reify.RunLeaves(s, mnNow, repeats, Anhe(at, w));
        if repeats[w] != 0.0 {
          assert Reify.Resumes(fed[i], mnNow, repeats, Anhe(at, w));
          AmongWatchers(entries, Anhe(at, w));
        }
      }
    }

    lemma AmongWatchers(s: seq<Anhe>, e: Anhe)
      requires e in s
      ensures e.w in Watchers(s) && (Cached(s) ==> e.at == e.w.at)
    {
      var i :| 0 <= i < |s| && s[i] == e;
    }

    lemma NothingLate(repeats: map<Watcher, real>, pris: map<Watcher, int>)
      requires Valid() && RepeatsAre(repeats) && !(timercnt > 0 && RootLate())
      ensures Reify.Good(entries, repeats) && Reify.Run(entries, mnNow, repeats) == (entries, [])
      ensures forall p :: 0 <= p < NUMPRI ==>
                pendings[p] == FeedReversed(ClearAll(pendings[p], Reify.Stopped([], repeats), nobody),
                                            OfPri(Reify.Fed([]), pris, p), EV_TIMER)
    {
      hide HeapValid, PendValid, ClearAll, FeedReversed, Reify.Run, Reify.Good, OfPri;
      GoodHeap(repeats);
      RootEnd();
      PendShape();
      Reify.RunOnce(entries, mnNow, repeats);
      Reify.FedNone(repeats);
      forall p | 0 <= p < NUMPRI ensures FeedReversed(ClearAll(pendings[p], [], nobody), OfPri([], pris, p), EV_TIMER) == pendings[p] {
        ClearNobody(pendings[p], nobody);
        FeedNobody(pendings[p], pris, p, EV_TIMER);
      }
    }

    lemma RootEnd()
      requires HeapValid()
      ensures timercnt == |entries| && (timercnt > 0 ==> RootLate() == (entries[0].at < mnNow))
    {
      if timercnt > 0 { RootFacts(); }
    }

    // ----- running what is pending -----

    /** The top slot of a queue was taken and its watcher told so. */
    twostate lemma PoppedWait(new p: nat)
      requires old(PendValid()) && known == old(known) && p < NUMPRI && old(pendings[p]) != []
      requires pendings[p] == old(pendings[p])[..old(|pendings[p]|) - 1]
      requires forall q :: 0 <= q < NUMPRI && q != p ==> pendings[q] == old(pendings[q])
      requires var w := old(pendings[p][|pendings[p]| - 1].w); w.pending == 0 && w.priority == old(w.priority)
      requires forall v :: v in old(known) && v != old(pendings[p][|pendings[p]| - 1].w) ==> v.pending == old(v.pending) && v.priority == old(v.priority)
      requires nobody.pending == 0
      ensures PendValid()
    {
      var n := old(|pendings[p]|) - 1;
      var w := old(pendings[p][n].w);
      assert old(SlotOk(p, n));
      forall v | v in known ensures WaitsOk(v) {
        assert old(WaitsOk(v));
      }
      forall q: nat, i: nat | q < NUMPRI && i < |pendings[q]|
        ensures (pendings[q][i].w == nobody || pendings[q][i].w in known) && SlotOk(q, i) {
        assert old(SlotOk(q, i));
      }
    }

    /** Takes the top event of a queue. */
    method Pop(p: nat) returns (e: Pend)
      requires PendValid() && p < NUMPRI && pendings[p] != []
      modifies pendings, known`pending, nobody`pending
      ensures PendValid() && pendings[p] == old(pendings[p])[..old(|pendings[p]|) - 1] && e == old(pendings[p])[old(|pendings[p]|) - 1]
      ensures forall q :: 0 <= q < NUMPRI && q != p ==> pendings[q] == old(pendings[q])
    {
      hide PendValid;
      PendShape();
      TopKnown(p);
      var n := |pendings[p]| - 1;
      e := pendings[p][n];
      pendings[p] := pendings[p][..n];
      e.w.pending := 0;
      PoppedWait(p);
    }

    lemma TopKnown(p: nat)
      requires PendValid() && p < NUMPRI && pendings[p] != []
      ensures var w := pendings[p][|pendings[p]| - 1].w; w in known || w == nobody
    {
      SlotAt(p, |pendings[p]| - 1);
    }

    /** Running callbacks that leave the loop alone does not touch the heap. */
    twostate lemma HeapStays()
      requires old(HeapValid()) && timers == old(timers) && timercnt == old(timercnt) && entries == old(entries) && rest == old(rest)
      requires known == old(known) && unchanged(timers)
      requires forall w :: w in known ==> w.active == old(w.active) && w.at == old(w.at) && w.repeat == old(w.repeat) && w.priority == old(w.priority)
      ensures HeapValid()
    {
    }

    /** `ev_invoke_pending`, for callbacks that leave the loop alone: the events it runs, in order. */
    method EvInvokePending() returns (ran: seq<Pend>)
      requires PendValid()
      modifies pendings, known`pending, nobody`pending
      ensures PendValid() && ran == InvokeOrder(old(pendings[..]))
      ensures forall p :: 0 <= p < NUMPRI ==> pendings[p] == []
      ensures forall w :: w in known ==> w.pending == 0
    {
      hide PendValid, InvokeOrder, Reverse;
      PendShape();
      ran := [];
      var pendingpri := NUMPRI;
      ghost var q0 := pendings[..];
      assert q0[..NUMPRI] == q0 && ran + InvokeOrder(q0) == InvokeOrder(q0);
      while pendingpri > 0
        invariant pendingpri <= NUMPRI == pendings.Length && PendValid()
        invariant |q0| == NUMPRI && 0 <= pendingpri
        invariant forall p :: pendingpri <= p < NUMPRI ==> pendings[p] == []
        invariant forall p :: 0 <= p < pendingpri ==> pendings[p] == q0[p]
        invariant ran + InvokeOrder(q0[..pendingpri]) == InvokeOrder(q0)
      {
        pendingpri := pendingpri - 1;
        ghost var before := ran;
        while pendings[pendingpri] != []
          invariant pendings.Length == NUMPRI && PendValid() && pendingpri < NUMPRI
          invariant forall p :: pendingpri < p < NUMPRI ==> pendings[p] == []
          invariant forall p :: 0 <= p < pendingpri ==> pendings[p] == q0[p]
          invariant ran + Reverse(pendings[pendingpri]) == before + Reverse(q0[pendingpri])
          decreases |pendings[pendingpri]|
        {
          ReverseTop(pendings[pendingpri]);
          var e := Pop(pendingpri);
          ran := ran + [e];
        }
        ReverseNone<Pend>();
        InvokeStep(q0, pendingpri, before, ran);
      }
      InvokeNone();
      assert q0[..0] == [] && ran + [] == ran;
      NobodyWaits();
    }

    lemma NobodyWaits()
      requires PendValid() && forall p :: 0 <= p < NUMPRI ==> pendings[p] == []
      ensures forall w :: w in known ==> w.pending == 0
    {
      forall w | w in known ensures w.pending == 0 { WaitsAt(w); }
    }
  }

  lemma {:induction false} ReverseTop<T>(s: seq<T>)
    requires s != []
    ensures Reverse(s) == [s[|s| - 1]] + Reverse(s[..|s| - 1])
  {
    hide Reverse;
    var l, r := Reverse(s), [s[|s| - 1]] + Reverse(s[..|s| - 1]);
    forall i | 0 <= i < |l| ensures l[i] == r[i] { }
  }

  lemma ReverseNone<T>()
    ensures Reverse<T>([]) == []
  {
  }

  lemma InvokeNone()
    ensures InvokeOrder([]) == []
  {
  }

  lemma InvokeStep(qs: seq<seq<Pend>>, p: nat, before: seq<Pend>, ran: seq<Pend>)
    requires p < |qs| && ran + [] == before + Reverse(qs[p])
    ensures before + InvokeOrder(qs[..p + 1]) == ran + InvokeOrder(qs[..p])
  {
    assert qs[..p + 1][..p] == qs[..p];
    assert ran == before + Reverse(qs[p]);
    assert before + (Reverse(qs[p]) + InvokeOrder(qs[..p])) == (before + Reverse(qs[p])) + InvokeOrder(qs[..p]);
  }

  lemma StopMore(q: seq<Pend>, fed: seq<Anhe>, e: Anhe, repeats: map<Watcher, real>, nobody: Watcher)
    requires e.w in repeats
    ensures ClearAll(q, Reify.Stopped(fed + [e], repeats), nobody)
         == if repeats[e.w] != 0.0 then ClearAll(q, Reify.Stopped(fed, repeats), nobody)
            else Clear(ClearAll(q, Reify.Stopped(fed, repeats), nobody), e.w, nobody)
  {
    hide ClearAll, Clear;
    Reify.FedMore(fed, e, repeats);
    ClearLast(q, Reify.Stopped(fed, repeats), e.w, nobody);
  }

  lemma FeedNobody(q: seq<Pend>, pris: map<Watcher, int>, p: int, ev: bv32)
    ensures FeedReversed(q, OfPri([], pris, p), ev) == q
  {
  }

  lemma ClearNobody(q: seq<Pend>, nobody: Watcher)
    ensures ClearAll(q, [], nobody) == q
  {
  }
}
