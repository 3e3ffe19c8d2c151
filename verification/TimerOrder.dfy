/** In what order expired timers run: the reversal while feeding and the reversal while invoking cancel out. */
module TimerOrder {
  import opened TimerHeap
  import opened Pending
  import opened Timers
  import Reify

  /** The expiry a timer had when it was handed over. */
  ghost function Expiry(fed: seq<Anhe>, w: Watcher): real
    requires w in Watchers(fed)
  {
    var i :| 0 <= i < |fed| && fed[i].w == w;
    fed[i].at
  }

  /** `ws` lists some of the handed-over timers, in the order they were handed over. */
  ghost predicate InOrder(fed: seq<Anhe>, ws: seq<Watcher>) {
    && (forall w <- ws :: w in Watchers(fed))
    && (forall i, j :: 0 <= i < j < |ws| ==> ws[i] in Watchers(fed) && ws[j] in Watchers(fed) && Expiry(fed, ws[i]) <= Expiry(fed, ws[j]))
  }

  lemma ExpiryIs(fed: seq<Anhe>, i: nat)
    requires Apart(fed) && i < |fed|
    ensures fed[i].w in Watchers(fed) && Expiry(fed, fed[i].w) == fed[i].at
  {
  }

  lemma FrontFacts(fed: seq<Anhe>)
    requires fed != [] && Apart(fed) && Reify.Ascending(fed)
    ensures var front, e := fed[..|fed| - 1], fed[|fed| - 1];
            && Apart(front) && Reify.Ascending(front) && Reify.Fed(fed) == Reify.Fed(front) + [e.w]
            && Watchers(fed) == Watchers(front) + {e.w} && e.w !in Watchers(front)
            && forall w :: w in Watchers(front) ==> Expiry(fed, w) == Expiry(front, w) <= e.at == Expiry(fed, e.w)
  {
    var front, e := fed[..|fed| - 1], fed[|fed| - 1];
    forall w | w in Watchers(front) + {e.w} ensures w in Watchers(fed) {
      if w == e.w { assert fed[|fed| - 1].w == w; } else { var i :| 0 <= i < |front| && front[i].w == w; assert fed[i].w == w; }
    }
    forall w | w in Watchers(front) ensures Expiry(fed, w) == Expiry(front, w) <= e.at {
      var i :| 0 <= i < |front| && front[i].w == w;
      ExpiryIs(front, i);
      ExpiryIs(fed, i);
    }
    ExpiryIs(fed, |fed| - 1);
  }

  /** The timers of one queue that did not wait there yet, as `fed` lists them. */
  ghost function Newly(q: seq<Pend>, fed: seq<Anhe>, pris: map<Watcher, int>, p: int): seq<Watcher> {
    News(q, OfPri(Reify.Fed(fed), pris, p))
  }

  /** The handed-over timers of priority `p` that do not wait in the queue yet. */
  ghost function NewOnes(q: seq<Pend>, fed: seq<Anhe>, pris: map<Watcher, int>, p: int): set<Watcher> {
    set w | w in Watchers(fed) && w in pris && pris[w] == p && !Waits(q, w)
  }

  ghost function Elems(ws: seq<Watcher>): set<Watcher> {
    set w | w in ws
  }

  lemma NewlyMore(q: seq<Pend>, fed: seq<Anhe>, pris: map<Watcher, int>, p: int)
    requires fed != []
    ensures var front, w := fed[..|fed| - 1], fed[|fed| - 1].w;
            && Newly(q, fed, pris, p) == Newly(q, front, pris, p) + (if w in pris && pris[w] == p && !Waits(q, w) then [w] else [])
            && OfPri(Reify.Fed(fed), pris, p) == OfPri(Reify.Fed(front), pris, p) + if w in pris && pris[w] == p then [w] else []
  {
    var front, w := fed[..|fed| - 1], fed[|fed| - 1].w;
    assert Reify.Fed(fed) == Reify.Fed(front) + [w];
    var ws := Reify.Fed(fed);
    assert ws[..|ws| - 1] == Reify.Fed(front) && ws[|ws| - 1] == w;
    var a := OfPri(Reify.Fed(front), pris, p);
    if w in pris && pris[w] == p {
      assert (a + [w])[..|a + [w]| - 1] == a;
    } else {
      assert a + [] == a && News(q, a) + [] == News(q, a);
    }
  }

  lemma {:induction false} NewlyFacts(q: seq<Pend>, fed: seq<Anhe>, pris: map<Watcher, int>, p: int)
    requires Apart(fed) && Reify.Ascending(fed)
    ensures InOrder(fed, Newly(q, fed, pris, p))
    ensures Elems(Newly(q, fed, pris, p)) == NewOnes(q, fed, pris, p)
    ensures Different(Newly(q, fed, pris, p))
    ensures Different(OfPri(Reify.Fed(fed), pris, p)) && forall w <- OfPri(Reify.Fed(fed), pris, p) :: w in Watchers(fed)
    decreases |fed|
  {
    hide Newly, OfPri, News, Expiry, Apart, Reify.Ascending, Waits;
    if fed == [] {
      NewlyNone(q, pris, p);
    } else {
      var front, e := fed[..|fed| - 1], fed[|fed| - 1];
      FrontFacts(fed);
      NewlyFacts(q, front, pris, p);
      NewlyMore(q, fed, pris, p);
      NewOnesMore(q, fed, pris, p);
      ElemsMore(Newly(q, front, pris, p), e.w);
      hide Watchers, NewOnes, Elems;
    }
  }

  lemma NewOnesMore(q: seq<Pend>, fed: seq<Anhe>, pris: map<Watcher, int>, p: int)
    requires fed != [] && Watchers(fed) == Watchers(fed[..|fed| - 1]) + {fed[|fed| - 1].w}
    ensures var front, w := fed[..|fed| - 1], fed[|fed| - 1].w;
            NewOnes(q, fed, pris, p) == NewOnes(q, front, pris, p) + if w in pris && pris[w] == p && !Waits(q, w) then {w} else {}
  {
    hide Watchers, Waits;
  }

  lemma ElemsMore(ws: seq<Watcher>, w: Watcher)
    ensures Elems(ws + [w]) == Elems(ws) + {w} && Elems(ws + []) == Elems(ws)
  {
    assert ws + [] == ws;
    assert (ws + [w])[|ws|] == w;
  }

  lemma NewlyNone(q: seq<Pend>, pris: map<Watcher, int>, p: int)
    ensures Newly(q, [], pris, p) == [] && OfPri(Reify.Fed([]), pris, p) == [] && NewOnes(q, [], pris, p) == {}
  {
  }

  /** Of the events of one priority, those of the timers that were not pending yet run first, in ascending
      order of expiry, each exactly once. */
  lemma ExpiredRunInOrder(q: seq<Pend>, fed: seq<Anhe>, pris: map<Watcher, int>, p: int)
    requires Apart(fed) && Reify.Ascending(fed) && Single(q, OfPri(Reify.Fed(fed), pris, p))
    ensures var ran := Reverse(FeedReversed(q, OfPri(Reify.Fed(fed), pris, p), EV_TIMER));
            var news := Newly(q, fed, pris, p);
            && |news| <= |ran| && ran[..|news|] == Pends(news, EV_TIMER)
            && InOrder(fed, news) && Different(news) && Elems(news) == NewOnes(q, fed, pris, p)
  {
    hide Single, InOrder, Touched, OfPri, News, Pends, FeedReversed, Apart, Reify.Ascending;
    NewlyFacts(q, fed, pris, p);
    NewOnesRunFirst(q, OfPri(Reify.Fed(fed), pris, p), EV_TIMER);
  }

  // ----- the loop's own queues -----

  lemma ClearSingle(q: seq<Pend>, w: Watcher, nobody: Watcher, ws: seq<Watcher>)
    requires Single(q, ws) && !Among(ws, nobody)
    ensures Single(Clear(q, w, nobody), ws)
  {
  }

  lemma {:induction false} ClearAllSingle(q: seq<Pend>, xs: seq<Watcher>, nobody: Watcher, ws: seq<Watcher>)
    requires Single(q, ws) && !Among(ws, nobody)
    ensures Single(ClearAll(q, xs, nobody), ws)
    decreases |xs|
  {
    hide Clear, Single, Among;
    if xs != [] {
      ClearAllSingle(q, xs[..|xs| - 1], nobody, ws);
      ClearSingle(ClearAll(q, xs[..|xs| - 1], nobody), xs[|xs| - 1], nobody, ws);
    }
  }

  /** The queues as `timers_reify` finds them when it starts to feed. */
  ghost function Cleared(q: seq<Pend>, fed: seq<Anhe>, repeats: map<Watcher, real>, nobody: Watcher): seq<Pend> {
    ClearAll(q, Reify.Stopped(fed, repeats), nobody)
  }

  /** One round of the loop for timers: `timers_reify`, then `ev_invoke_pending`. */
  method RunTimers(l: EvLoop, ghost repeats: map<Watcher, real>, ghost pris: map<Watcher, int>)
    returns (ran: seq<Pend>, ghost fed: seq<Anhe>, ghost qs: seq<seq<Pend>>)
    requires l.Valid() && l.rfeeds == [] && l.RepeatsAre(repeats) && l.PrioritiesAre(pris)
    modifies l, l.timers, l.pendings, l.known`pending, l.known`at, l.known`active, l.nobody`pending
    ensures l.Valid() && l.rfeeds == [] && forall w :: w in l.known ==> w.pending == 0
    ensures Reify.Good(old(l.entries), repeats) && (l.entries, fed) == Reify.Run(old(l.entries), l.mnNow, repeats)
    ensures Reify.Late(l.entries, l.mnNow) == {} && Watchers(fed) == Reify.Late(old(l.entries), l.mnNow) && Apart(fed)
    ensures |qs| == NUMPRI && ran == InvokeOrder(qs)
    ensures forall p: nat :: p < NUMPRI ==>
              RunsFirst(qs[p], Cleared(old(l.pendings[p]), fed, repeats, l.nobody), fed, pris, p)
  {
    hide EvLoop.HeapValid, EvLoop.PendValid, Reify.Run, Reify.Good, Reify.Late, InvokeOrder, Apart, Watchers, RunsFirst;
    l.PendShape();
    l.HeapShape();
    Singles(l);
    ghost var was, s, nobody := l.pendings[..], l.entries, l.nobody;
    fed := l.TimersReify(repeats, pris);
    qs := l.pendings[..];
    forall p: nat | p < NUMPRI ensures RunsFirst(qs[p], Cleared(was[p], fed, repeats, nobody), fed, pris, p) {
      QueueRuns(was[p], s, l.mnNow, fed, repeats, pris, p, nobody);
    }
    Reify.RunIsExact(s, l.mnNow, repeats);
    label fed:
    ran := l.EvInvokePending();
    l.HeapStays@fed();
  }

  /** Of the events of queue `p`, the newly fed ones run first and in ascending order of expiry. */
  ghost predicate RunsFirst(r: seq<Pend>, q: seq<Pend>, fed: seq<Anhe>, pris: map<Watcher, int>, p: int) {
    var news := Newly(q, fed, pris, p);
    && |news| <= |r| && Reverse(r)[..|news|] == Pends(news, EV_TIMER)
    && InOrder(fed, news) && Different(news) && Elems(news) == NewOnes(q, fed, pris, p)
  }

  ghost predicate SingleFor(q: seq<Pend>, nobody: Watcher) {
    forall i, j :: 0 <= i < j < |q| && q[i].w == q[j].w ==> q[i].w == nobody
  }

  lemma Singles(l: EvLoop)
    requires l.PendValid()
    ensures l.pendings.Length == NUMPRI && forall p :: 0 <= p < NUMPRI ==> SingleFor(l.pendings[p], l.nobody)
  {
    forall p, i, j | 0 <= p < NUMPRI && 0 <= i < j < |l.pendings[p]| && l.pendings[p][i].w == l.pendings[p][j].w
      ensures l.pendings[p][i].w == l.nobody {
      l.SlotAt(p, i);
      l.SlotAt(p, j);
    }
  }

  lemma QueueRuns(q: seq<Pend>, s: seq<Anhe>, now: real, fed: seq<Anhe>, repeats: map<Watcher, real>, pris: map<Watcher, int>, p: nat, nobody: Watcher)
    requires SingleFor(q, nobody) && nobody !in Watchers(s)
    requires Reify.Good(s, repeats) && fed == Reify.Run(s, now, repeats).1
    ensures RunsFirst(FeedReversed(Cleared(q, fed, repeats, nobody), OfPri(Reify.Fed(fed), pris, p), EV_TIMER),
                      Cleared(q, fed, repeats, nobody), fed, pris, p)
  {
    hide Single, InOrder, Touched, OfPri, News, Pends, FeedReversed, Apart, Reify.Ascending, Reify.Run, ClearAll, Newly, NewOnes, Different;
    var ws := OfPri(Reify.Fed(fed), pris, p);
    Reify.RunIsExact(s, now, repeats);
    NewlyFacts(q, fed, pris, p);
    assert nobody !in ws by { LateAmong(s, now); }
    assert Single(q, ws) by { SingleMeans(q, nobody, ws); }
    ClearAllSingle(q, Reify.Stopped(fed, repeats), nobody, ws);
    ExpiredRunInOrder(Cleared(q, fed, repeats, nobody), fed, pris, p);
  }

  lemma SingleMeans(q: seq<Pend>, nobody: Watcher, ws: seq<Watcher>)
    requires SingleFor(q, nobody) && nobody !in ws
    ensures Single(q, ws)
  {
  }

  lemma LateAmong(s: seq<Anhe>, now: real)
    ensures Reify.Late(s, now) <= Watchers(s)
  {
  }
}
