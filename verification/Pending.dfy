/** libev's pending queues: one stack of events per priority, as sequences. */
module Pending {
  import opened TimerHeap

  const NUMPRI: nat := 5
  const EV_MINPRI: int := -2
  const EV_MAXPRI: int := 2
  const EV_TIMER: bv32 := 0x100

  function Or(a: bv32, b: bv32): bv32 {
    a | b
  }

  datatype Pend = Pend(w: Watcher, events: bv32)

  /** The slot of `w`, or the end. */
  function Find(q: seq<Pend>, w: Watcher): (i: nat)
    ensures i <= |q| && (i < |q| ==> q[i].w == w) && forall j :: 0 <= j < i ==> q[j].w != w
  {
    if q == [] || q[0].w == w then 0 else 1 + Find(q[1..], w)
  }

  predicate Waits(q: seq<Pend>, w: Watcher) {
    Find(q, w) < |q|
  }

  /** `ev_feed_event`: a pending watcher keeps its slot, another one gets a slot on top. */
  function Feed(q: seq<Pend>, w: Watcher, ev: bv32): seq<Pend> {
    var i := Find(q, w);
    if i < |q| then q[i := Pend(w, Or(q[i].events, ev))] else q + [Pend(w, ev)]
  }

  /** `clear_pending`: the slot stays, with a watcher that does nothing. */
  function Clear(q: seq<Pend>, w: Watcher, nobody: Watcher): (r: seq<Pend>)
    ensures |r| == |q|
  {
    var i := Find(q, w);
    if i < |q| then q[i := Pend(nobody, q[i].events)] else q
  }

  /** `feed_reverse_done`: feeds from the last to the first. */
  function FeedReversed(q: seq<Pend>, ws: seq<Watcher>, ev: bv32): seq<Pend>
    decreases |ws|
  {
    if ws == [] then q else FeedReversed(Feed(q, ws[|ws| - 1], ev), ws[..|ws| - 1], ev)
  }

  function ClearAll(q: seq<Pend>, ws: seq<Watcher>, nobody: Watcher): seq<Pend>
    decreases |ws|
  {
    if ws == [] then q else Clear(ClearAll(q, ws[..|ws| - 1], nobody), ws[|ws| - 1], nobody)
  }

  function Reverse<T>(s: seq<T>): (r: seq<T>)
    ensures |r| == |s| && forall i :: 0 <= i < |s| ==> r[i] == s[|s| - 1 - i]
  {
    if s == [] then [] else Reverse(s[1..]) + [s[0]]
  }

  predicate Among(ws: seq<Watcher>, w: Watcher) {
    w in ws
  }

  /** The queue with `ev` added to the slots of `ws`. */
  function Touched(q: seq<Pend>, ws: seq<Watcher>, ev: bv32): (r: seq<Pend>)
    ensures |r| == |q|
  {
    seq(|q|, i requires 0 <= i < |q| => if Among(ws, q[i].w) then Pend(q[i].w, Or(q[i].events, ev)) else q[i])
  }

  /** Those of `ws` that do not wait in the queue yet. */
  function News(q: seq<Pend>, ws: seq<Watcher>): seq<Watcher>
    decreases |ws|
  {
    if ws == [] then []
    else News(q, ws[..|ws| - 1]) + if Waits(q, ws[|ws| - 1]) then [] else [ws[|ws| - 1]]
  }

  function Pends(ws: seq<Watcher>, ev: bv32): (r: seq<Pend>)
    ensures |r| == |ws|
  {
    seq(|ws|, i requires 0 <= i < |ws| => Pend(ws[i], ev))
  }

  ghost predicate Different(ws: seq<Watcher>) {
    forall i, j :: 0 <= i < j < |ws| ==> ws[i] != ws[j]
  }

  /** No watcher of `ws` waits in two slots. */
  ghost predicate Single(q: seq<Pend>, ws: seq<Watcher>) {
    forall i, j :: 0 <= i < j < |q| && q[i].w == q[j].w ==> !Among(ws, q[i].w)
  }

  lemma FindUnique(q: seq<Pend>, w: Watcher, i: nat, ws: seq<Watcher>)
    requires i < |q| && q[i].w == w && Among(ws, w) && Single(q, ws)
    ensures Find(q, w) == i
  {
  }

  lemma {:induction false} NewsSame(q: seq<Pend>, r: seq<Pend>, ws: seq<Watcher>)
    requires forall w :: Among(ws, w) ==> (Waits(q, w) <==> Waits(r, w))
    ensures News(q, ws) == News(r, ws)
    decreases |ws|
  {
    if ws != [] {
      assert Among(ws, ws[|ws| - 1]);
      assert forall w :: Among(ws[..|ws| - 1], w) ==> Among(ws, w);
      NewsSame(q, r, ws[..|ws| - 1]);
    }
  }

  lemma WaitsIff(q: seq<Pend>, w: Watcher)
    ensures Waits(q, w) <==> exists i :: 0 <= i < |q| && q[i].w == w
  {
  }

  lemma ReversePlus<T>(s: seq<T>, x: T)
    ensures Reverse(s + [x]) == [x] + Reverse(s)
  {
  }

  lemma FrontLacks(front: seq<Watcher>, w: Watcher)
    requires Different(front + [w])
    ensures !Among(front, w) && forall v :: Among(front + [w], v) <==> Among(front, v) || v == w
  {
    var ws := front + [w];
    assert ws[|front|] == w;
    forall j | 0 <= j < |front| ensures front[j] != w { assert ws[j] == front[j]; }
  }

  /** Feeding one that waits. */
  lemma FeedWaiting(q: seq<Pend>, front: seq<Watcher>, w: Watcher, ev: bv32)
    requires Different(front + [w]) && Single(q, front + [w]) && Waits(q, w)
    ensures var r := Feed(q, w, ev);
            && Single(r, front) && News(r, front) == News(q, front)
            && Touched(r, front, ev) == Touched(q, front + [w], ev)
  {
    var r, i := Feed(q, w, ev), Find(q, w);
    FrontLacks(front, w);
    hide Different, Among, Or;
    assert |r| == |q| && forall j :: 0 <= j < |q| ==> r[j].w == q[j].w && (j != i ==> r[j] == q[j]);
    forall v | Among(front, v) ensures Waits(q, v) <==> Waits(r, v) { WaitsSame(q, r, v); }
    NewsSame(q, r, front);
    forall j | 0 <= j < |q| && q[j].w == w ensures j == i { FindUnique(q, w, j, front + [w]); }
    hide Single, Feed, Find;
    TouchedSame(q, r, front, w, i, ev);
  }

  lemma TouchedSame(q: seq<Pend>, r: seq<Pend>, front: seq<Watcher>, w: Watcher, i: nat, ev: bv32)
    requires |r| == |q| && i < |q| && (forall j :: 0 <= j < |q| && j != i ==> r[j] == q[j] && q[j].w != w)
    requires q[i].w == w && r[i] == Pend(w, Or(q[i].events, ev))
    requires !Among(front, w) && forall v :: Among(front + [w], v) <==> Among(front, v) || v == w
    ensures Touched(r, front, ev) == Touched(q, front + [w], ev)
  {
    hide Among, Or;
    var a, b := Touched(r, front, ev), Touched(q, front + [w], ev);
    forall j | 0 <= j < |q| ensures a[j] == b[j] { }
  }

  /** Feeding one that does not wait. */
  lemma FeedNew(q: seq<Pend>, front: seq<Watcher>, w: Watcher, ev: bv32)
    requires Different(front + [w]) && Single(q, front + [w]) && !Waits(q, w)
    ensures var r := Feed(q, w, ev);
            && Single(r, front) && News(r, front) == News(q, front)
            && Touched(r, front, ev) == Touched(q, front + [w], ev) + [Pend(w, ev)]
  {
    var ws, r := front + [w], Feed(q, w, ev);
    FrontLacks(front, w);
    hide Different, Among, Or;
    forall v | Among(front, v) ensures Waits(q, v) <==> Waits(r, v) {
      WaitsIff(q, v);
      WaitsIff(r, v);
      if Waits(q, v) { assert r[Find(q, v)].w == v; }
    }
    NewsSame(q, r, front);
    WaitsIff(q, w);
    forall i, j | 0 <= i < j < |r| && r[i].w == r[j].w ensures !Among(front, r[i].w) {
      if j < |q| { assert q[i].w == q[j].w; }
    }
    var a, b := Touched(r, front, ev), Touched(q, ws, ev) + [Pend(w, ev)];
    forall i | 0 <= i < |a| ensures a[i] == b[i] { }
  }

  /** Feeding from the last to the first puts the new ones on top, the first of them uppermost; those that
      waited already keep their places. */
  lemma {:induction false} FeedReversedShape(q: seq<Pend>, ws: seq<Watcher>, ev: bv32)
    requires Different(ws) && Single(q, ws)
    ensures FeedReversed(q, ws, ev) == Touched(q, ws, ev) + Pends(Reverse(News(q, ws)), ev)
    decreases |ws|
  {
    hide Different, Single, Touched, Feed, Pends, Waits, Reverse, Among;
    if ws == [] {
      TouchedNone(q, ev);
    } else {
      var w, front := ws[|ws| - 1], ws[..|ws| - 1];
      assert ws == front + [w];
      DifferentFront(ws);
      var r := Feed(q, w, ev);
      if Waits(q, w) {
        FeedWaiting(q, front, w, ev);
        FeedReversedShape(r, front, ev);
        assert News(q, ws) == News(q, front) + [] == News(q, front);
      } else {
        FeedNew(q, front, w, ev);
        FeedReversedShape(r, front, ev);
        ReversePlus(News(q, front), w);
        PendsCons(w, Reverse(News(q, front)), ev);
        assert (Touched(q, ws, ev) + [Pend(w, ev)]) + Pends(Reverse(News(q, front)), ev)
            == Touched(q, ws, ev) + ([Pend(w, ev)] + Pends(Reverse(News(q, front)), ev));
      }
    }
  }

  lemma TouchedNone(q: seq<Pend>, ev: bv32)
    ensures Touched(q, [], ev) + Pends(Reverse<Watcher>([]), ev) == q
  {
  }

  lemma DifferentFront(ws: seq<Watcher>)
    requires Different(ws) && ws != []
    ensures Different(ws[..|ws| - 1])
  {
  }

  lemma PendsCons(w: Watcher, ws: seq<Watcher>, ev: bv32)
    ensures Pends([w] + ws, ev) == [Pend(w, ev)] + Pends(ws, ev)
  {
  }

  lemma WaitsSame(q: seq<Pend>, r: seq<Pend>, v: Watcher)
    requires |q| == |r| && forall i :: 0 <= i < |q| ==> q[i].w == r[i].w
    ensures Waits(q, v) <==> Waits(r, v)
  {
    WaitsIff(q, v);
    WaitsIff(r, v);
    if Waits(q, v) { assert r[Find(q, v)].w == v; }
    if Waits(r, v) { assert q[Find(r, v)].w == v; }
  }

  /** Events run from the top of a queue: the newly fed ones first, in the order they were handed over, then
      what waited before. */
  lemma NewOnesRunFirst(q: seq<Pend>, ws: seq<Watcher>, ev: bv32)
    requires Different(ws) && Single(q, ws)
    ensures Reverse(FeedReversed(q, ws, ev)) == Pends(News(q, ws), ev) + Reverse(Touched(q, ws, ev))
  {
    hide Different, Single, Touched, Pends, FeedReversed, News;
    FeedReversedShape(q, ws, ev);
    ReverseConcat(Touched(q, ws, ev), Pends(Reverse(News(q, ws)), ev));
    PendsReverse(News(q, ws), ev);
  }

  lemma ReverseConcat<T>(a: seq<T>, b: seq<T>)
    ensures Reverse(a + b) == Reverse(b) + Reverse(a)
  {
    var l, r := Reverse(a + b), Reverse(b) + Reverse(a);
    assert forall i :: 0 <= i < |l| ==> l[i] == (a + b)[|a + b| - 1 - i];
    forall i | 0 <= i < |l| ensures l[i] == r[i] { }
  }

  lemma PendsReverse(ws: seq<Watcher>, ev: bv32)
    ensures Reverse(Pends(Reverse(ws), ev)) == Pends(ws, ev)
  {
    var l, r := Reverse(Pends(Reverse(ws), ev)), Pends(ws, ev);
    forall i | 0 <= i < |l| ensures l[i] == r[i] { assert l[i] == Pends(Reverse(ws), ev)[|ws| - 1 - i]; }
  }

  /** All queues from the highest priority down, each from its top: the order of `ev_invoke_pending`. */
  function InvokeOrder(qs: seq<seq<Pend>>): seq<Pend>
    decreases |qs|
  {
    if qs == [] then [] else Reverse(qs[|qs| - 1]) + InvokeOrder(qs[..|qs| - 1])
  }

  /** Whatever waits in a queue runs behind everything in the queues of higher priority and before everything in those of
  lower priority. */
  lemma {:induction false} HigherPriorityFirst(qs: seq<seq<Pend>>, p: nat)
    requires p < |qs|
    ensures InvokeOrder(qs) == InvokeOrder(qs[p + 1..]) + Reverse(qs[p]) + InvokeOrder(qs[..p])
    decreases |qs|
  {
    hide Reverse;
    var n := |qs| - 1;
    if p == n {
      assert qs[p + 1..] == [] && [] + Reverse(qs[p]) == Reverse(qs[p]);
    } else {
      HigherPriorityFirst(qs[..n], p);
      var high := qs[p + 1..];
      assert high[|high| - 1] == qs[n] && high[..|high| - 1] == qs[..n][p + 1..] && qs[..n][..p] == qs[..p];
      var a, b, c, d := Reverse(qs[n]), InvokeOrder(qs[..n][p + 1..]), Reverse(qs[p]), InvokeOrder(qs[..p]);
      assert a + (b + c + d) == a + b + c + d;
    }
  }

  /** Those of a list that belong to queue `p`, by their priorities. */
  function OfPri(ws: seq<Watcher>, pris: map<Watcher, int>, p: int): seq<Watcher>
    decreases |ws|
  {
    if ws == [] then []
    else
      var w := ws[|ws| - 1];
      OfPri(ws[..|ws| - 1], pris, p) + if w in pris && pris[w] == p then [w] else []
  }

  lemma FeedLast(q: seq<Pend>, ws: seq<Watcher>, pris: map<Watcher, int>, p: int, ev: bv32)
    requires ws != []
    ensures var w, front := ws[|ws| - 1], ws[..|ws| - 1];
            FeedReversed(q, OfPri(ws, pris, p), ev) ==
            FeedReversed(if w in pris && pris[w] == p then Feed(q, w, ev) else q, OfPri(front, pris, p), ev)
  {
    var w, front := ws[|ws| - 1], ws[..|ws| - 1];
    var a := OfPri(front, pris, p);
    if w in pris && pris[w] == p {
      assert (a + [w])[..|a + [w]| - 1] == a;
    } else {
      assert a + [] == a;
    }
  }

  lemma ClearLast(q: seq<Pend>, ws: seq<Watcher>, w: Watcher, nobody: Watcher)
    ensures ClearAll(q, ws + [w], nobody) == Clear(ClearAll(q, ws, nobody), w, nobody)
  {
    assert (ws + [w])[..|ws + [w]| - 1] == ws;
  }
}
