/** libev's timer heap: a 4-ary heap that starts at index 3 of its array, caches each timer's expiry next to
the pointer, and writes each timer's position into the timer itself. */
module TimerHeap {

  const DHEAP: nat := 4
  const HEAP0: nat := 3       // index of the first element

  /** The fields of a watcher that the timer code uses. */
  class Watcher {
    var active: nat           // position in the heap, 0 when inactive
    var pending: nat          // 1 + position in its pending queue, 0 when not pending
    var priority: int
    var at: real              // expiry while active, delay otherwise
    var repeat: real

    constructor (at: real, repeat: real, priority: int)
      ensures active == 0 && pending == 0 && this.at == at && this.repeat == repeat && this.priority == priority
    {
      this.active, this.pending, this.at, this.repeat, this.priority := 0, 0, at, repeat, priority;
    }
  }

  datatype Anhe = Anhe(at: real, w: Watcher)

  /** C's division truncates towards zero. */
  function CDiv(a: int, b: nat): int
    requires b > 0
  {
    if a >= 0 then a / b else -((-a) / b)
  }

  /** `HPARENT` */
  function HParent(k: int): int {
    CDiv(k - HEAP0 - 1, DHEAP) + HEAP0
  }

  // ----- the heap as a sequence, indexed from 0 -----

  function Parent(i: nat): (p: nat)
    ensures i > 0 ==> p < i
    ensures HParent(i + HEAP0) == p + HEAP0
  {
    if i == 0 then 0 else (i - 1) / DHEAP
  }

  function Swap(s: seq<Anhe>, i: nat, j: nat): (r: seq<Anhe>)
    requires i < |s| && j < |s|
    ensures |r| == |s|
  {
    s[i := s[j]][j := s[i]]
  }

  /** Moves element `k` towards the root. */
  function Up(s: seq<Anhe>, k: nat): (r: seq<Anhe>)
    requires k < |s|
    ensures |r| == |s|
    decreases k
  {
    if k == 0 || s[Parent(k)].at <= s[k].at then s else Up(Swap(s, k, Parent(k)), Parent(k))
  }

  function FirstChild(k: nat): nat {
    DHEAP * k + 1
  }

  /** The earlier of two positions, the first on a tie; a position past the end is not considered. */
  function Earlier(s: seq<Anhe>, i: nat, j: nat): nat
    requires i < |s|
  {
    if j < |s| && s[j].at < s[i].at then j else i
  }

  /** The minimal child of `k`, the first one on a tie. */
  function MinChild(s: seq<Anhe>, k: nat): (m: nat)
    requires FirstChild(k) < |s|
    ensures FirstChild(k) <= m < FirstChild(k) + DHEAP && m < |s|
    ensures forall j :: FirstChild(k) <= j < FirstChild(k) + DHEAP && j < |s| ==> s[m].at <= s[j].at
    ensures Parent(m) == k
  {
    var c := FirstChild(k);
    Earlier(s, Earlier(s, Earlier(s, c, c + 1), c + 2), c + 3)
  }

  /** Moves element `k` away from the root. */
  function Down(s: seq<Anhe>, k: nat): (r: seq<Anhe>)
    requires k < |s|
    ensures |r| == |s|
    decreases |s| - k
  {
    if FirstChild(k) >= |s| || s[k].at <= s[MinChild(s, k)].at then s
    else Down(Swap(s, k, MinChild(s, k)), MinChild(s, k))
  }

  function Adjust(s: seq<Anhe>, k: nat): (r: seq<Anhe>)
    requires k < |s|
    ensures |r| == |s|
  {
    if k > 0 && s[k].at <= s[Parent(k)].at then Up(s, k) else Down(s, k)
  }

  /** Rebuilds the heap front to back, `i` elements being in place. */
  function Reheap(s: seq<Anhe>, i: nat): (r: seq<Anhe>)
    requires i <= |s|
    ensures |r| == |s|
    decreases |s| - i
  {
    if i == |s| then s else Reheap(Up(s, i), i + 1)
  }

  // ----- order -----

  /** Of the first `n` elements none is earlier than its parent. */
  ghost predicate OrderedTo(s: seq<Anhe>, n: nat)
    requires n <= |s|
  {
    forall i :: 0 < i < n ==> s[Parent(i)].at <= s[i].at
  }

  ghost predicate Ordered(s: seq<Anhe>) {
    OrderedTo(s, |s|)
  }

  /** In order but for element `k`, over which its neighbours are in order. */
  ghost predicate OrderedBut(s: seq<Anhe>, k: nat, n: nat)
    requires n <= |s|
  {
    && (forall i :: 0 < i < n && i != k && Parent(i) != k ==> s[Parent(i)].at <= s[i].at)
    && (forall i :: 0 < i < n && Parent(i) == k && 0 < k < n ==> s[Parent(k)].at <= s[i].at)
  }

  lemma {:induction false} UpOrders(s: seq<Anhe>, k: nat, n: nat)
    requires k < n <= |s| && OrderedBut(s, k, n)
    requires forall i :: 0 < i < n && Parent(i) == k ==> s[k].at <= s[i].at
    ensures OrderedTo(Up(s, k), n)
    ensures forall i :: n <= i < |s| ==> Up(s, k)[i] == s[i]
    decreases k
  {
    if !(k == 0 || s[Parent(k)].at <= s[k].at) {
      var p := Parent(k);
      var t := Swap(s, k, p);
      assert forall i :: 0 <= i < |s| && i != k && i != p ==> t[i] == s[i];
      assert t[p] == s[k] && t[k] == s[p];
      UpOrders(t, p, n);
    }
  }

  /** The swap with the least child moves the disorder down by one level. */
  lemma SwapDown(s: seq<Anhe>, k: nat)
    requires k < |s| && OrderedBut(s, k, |s|) && (k > 0 ==> s[Parent(k)].at <= s[k].at) && FirstChild(k) < |s|
    requires s[k].at > s[MinChild(s, k)].at
    ensures var m := MinChild(s, k); var t := Swap(s, k, m);
      m > k && OrderedBut(t, m, |t|) && t[Parent(m)].at <= t[m].at
  {
    hide MinChild, Earlier;
    var m := MinChild(s, k);
    var t := Swap(s, k, m);
    assert forall i :: 0 < i < |s| && Parent(i) == k ==> FirstChild(k) <= i < FirstChild(k) + DHEAP;
    assert forall i :: 0 <= i < |s| && i != k && i != m ==> t[i] == s[i];
    assert t[m] == s[k] && t[k] == s[m];
  }

  lemma {:induction false} DownOrders(s: seq<Anhe>, k: nat)
    requires k < |s| && OrderedBut(s, k, |s|) && (k > 0 ==> s[Parent(k)].at <= s[k].at)
    ensures Ordered(Down(s, k))
    decreases |s| - k
  {
    hide MinChild, Earlier;
    if FirstChild(k) < |s| {
      assert forall i :: 0 < i < |s| && Parent(i) == k ==> FirstChild(k) <= i < FirstChild(k) + DHEAP;
      if !(s[k].at <= s[MinChild(s, k)].at) {
        SwapDown(s, k);
        DownOrders(Swap(s, k, MinChild(s, k)), MinChild(s, k));
      }
    } else {
      assert forall i :: 0 < i < |s| ==> Parent(i) != k;
    }
  }

  lemma AdjustOrders(s: seq<Anhe>, k: nat)
    requires k < |s| && OrderedBut(s, k, |s|)
    ensures Ordered(Adjust(s, k))
  {
    if k > 0 && s[k].at <= s[Parent(k)].at {
      UpOrders(s, k, |s|);
    } else {
      DownOrders(s, k);
    }
  }

  lemma {:induction false} ReheapOrders(s: seq<Anhe>, i: nat)
    requires i <= |s| && OrderedTo(s, i)
    ensures Ordered(Reheap(s, i))
    decreases |s| - i
  {
    hide Up;
    if i < |s| {
      UpOrders(s, i, i + 1);
      ReheapOrders(Up(s, i), i + 1);
    }
  }

  /** The root is the minimum. */
  lemma {:induction false} RootIsFirst(s: seq<Anhe>, i: nat)
    requires Ordered(s) && i < |s|
    ensures s[0].at <= s[i].at
    decreases i
  {
    if i > 0 { RootIsFirst(s, Parent(i)); }
  }

  // ----- nothing is lost -----

  lemma SwapKeeps(s: seq<Anhe>, i: nat, j: nat)
    requires i < |s| && j < |s|
    ensures multiset(Swap(s, i, j)) == multiset(s)
  {
  }

  lemma {:induction false} UpKeeps(s: seq<Anhe>, k: nat)
    requires k < |s|
    ensures multiset(Up(s, k)) == multiset(s)
    decreases k
  {
    if !(k == 0 || s[Parent(k)].at <= s[k].at) {
      SwapKeeps(s, k, Parent(k));
      UpKeeps(Swap(s, k, Parent(k)), Parent(k));
    }
  }

  lemma {:induction false} DownKeeps(s: seq<Anhe>, k: nat)
    requires k < |s|
    ensures multiset(Down(s, k)) == multiset(s)
    decreases |s| - k
  {
    if !(FirstChild(k) >= |s| || s[k].at <= s[MinChild(s, k)].at) {
      SwapKeeps(s, k, MinChild(s, k));
      DownKeeps(Swap(s, k, MinChild(s, k)), MinChild(s, k));
    }
  }

  lemma AdjustKeeps(s: seq<Anhe>, k: nat)
    requires k < |s|
    ensures multiset(Adjust(s, k)) == multiset(s)
  {
    UpKeeps(s, k);
    DownKeeps(s, k);
  }

  lemma {:induction false} ReheapKeeps(s: seq<Anhe>, i: nat)
    requires i <= |s|
    ensures multiset(Reheap(s, i)) == multiset(s)
    decreases |s| - i
  {
    if i < |s| {
      UpKeeps(s, i);
      ReheapKeeps(Up(s, i), i + 1);
    }
  }

  // ----- entering, leaving and changing a timer -----

  /** The heap after `e` was entered. */
  function Entered(s: seq<Anhe>, e: Anhe): seq<Anhe> {
    Up(s + [e], |s|)
  }

  /** The heap after element `k` was taken out: the last one takes its place and is moved to where it fits. */
  function Removed(s: seq<Anhe>, k: nat): seq<Anhe>
    requires k < |s|
  {
    var n := |s| - 1;
    if k < n then Adjust(s[k := s[n]][..n], k) else s[..n]
  }

  /** The heap after element `k` got a new expiry. */
  function Changed(s: seq<Anhe>, k: nat, at: real): seq<Anhe>
    requires k < |s|
  {
    Adjust(s[k := Anhe(at, s[k].w)], k)
  }

  lemma EnteredOk(s: seq<Anhe>, e: Anhe)
    requires Ordered(s)
    ensures Ordered(Entered(s, e)) && multiset(Entered(s, e)) == multiset(s) + multiset{e}
  {
    var t := s + [e];
    assert forall i :: 0 <= i < |s| ==> t[i] == s[i];
    UpOrders(t, |s|, |t|);
    UpKeeps(t, |s|);
  }

  lemma RemovedOk(s: seq<Anhe>, k: nat)
    requires Ordered(s) && k < |s|
    ensures Ordered(Removed(s, k)) && multiset(Removed(s, k)) == multiset(s) - multiset{s[k]}
  {
    var n := |s| - 1;
    assert s == s[..n] + [s[n]];
    if k < n {
      var t := s[k := s[n]][..n];
      assert forall i :: 0 <= i < n && i != k ==> t[i] == s[i];
      assert t == s[..n][k := s[n]];
      assert multiset(t) == multiset(s[..n]) - multiset{s[k]} + multiset{s[n]};
      AdjustOrders(t, k);
      AdjustKeeps(t, k);
    }
  }

  lemma ChangedOk(s: seq<Anhe>, k: nat, at: real)
    requires Ordered(s) && k < |s|
    ensures Ordered(Changed(s, k, at))
    ensures multiset(Changed(s, k, at)) == multiset(s) - multiset{s[k]} + multiset{Anhe(at, s[k].w)}
  {
    AdjustOrders(s[k := Anhe(at, s[k].w)], k);
    AdjustKeeps(s[k := Anhe(at, s[k].w)], k);
  }

  // ----- the same in place -----

  /** No timer is in the heap twice. */
  ghost predicate Apart(s: seq<Anhe>) {
    forall i, j :: 0 <= i < j < |s| ==> s[i].w != s[j].w
  }

  ghost function Watchers(s: seq<Anhe>): set<Watcher> {
    set i | 0 <= i < |s| :: s[i].w
  }

  /** Every timer but the one at `k` knows its position. */
  ghost predicate Placed(s: seq<Anhe>, k: int)
    reads Watchers(s)`active
  {
    forall i :: 0 <= i < |s| && i != k ==> s[i].w.active == i + HEAP0
  }

  lemma SwapWatchers(s: seq<Anhe>, i: nat, j: nat)
    requires i < |s| && j < |s|
    ensures Watchers(Swap(s, i, j)) == Watchers(s) && Swap(s, i, j)[j] == s[i]
  {
    var t := Swap(s, i, j);
    forall w | w in Watchers(s) ensures w in Watchers(t) {
      var x :| 0 <= x < |s| && s[x].w == w;
      assert t[if x == i then j else if x == j then i else x].w == w;
    }
  }

  lemma SwapApart(s: seq<Anhe>, i: nat, j: nat)
    requires i < |s| && j < |s| && Apart(s)
    ensures Apart(Swap(s, i, j)) && Watchers(Swap(s, i, j)) == Watchers(s)
  {
    hide Watchers;
    SwapWatchers(s, i, j);
  }

  /** The heap holds `t`, but for a hole at `k`, and then `rest`; timers elsewhere know their positions. */
  ghost predicate Holds(heap: array<Anhe>, t: seq<Anhe>, k: int, rest: seq<Anhe>)
    reads heap, Watchers(t)`active
  {
    && heap.Length == HEAP0 + |t| + |rest|
    && (forall i :: 0 <= i < |rest| ==> heap[HEAP0 + |t| + i] == rest[i])
    && (forall i :: 0 <= i < |t| && i != k ==> heap[HEAP0 + i] == t[i])
    && Apart(t) && Placed(t, k)
  }

  /** Moves the element at `j` into the hole at `k`; the hole is then at `j`. */
  method Shift(heap: array<Anhe>, k: nat, j: nat, ghost t: seq<Anhe>, ghost rest: seq<Anhe>)
    requires k < |t| && j < |t| && j != k && Holds(heap, t, k, rest)
    modifies heap, t[j].w`active
    ensures Holds(heap, Swap(t, k, j), j, rest)
  {
    heap[HEAP0 + k] := heap[HEAP0 + j];
    heap[HEAP0 + k].w.active := HEAP0 + k;
    ghost var u := Swap(t, k, j);
    SwapApart(t, k, j);
    forall i | 0 <= i < |u| && i != j ensures u[i].w.active == i + HEAP0 {
      if i != k { assert u[i] == t[i] && t[i].w != t[j].w; }
    }
  }

  /** Puts the element that was held out into the hole. */
  method Settle(heap: array<Anhe>, k: nat, he: Anhe, ghost t: seq<Anhe>, ghost rest: seq<Anhe>)
    requires k < |t| && Holds(heap, t, k, rest) && t[k] == he
    modifies heap, he.w`active
    ensures Holds(heap, t, -1, rest)
  {
    heap[HEAP0 + k] := he;
    he.w.active := HEAP0 + k;
    forall i | 0 <= i < |t| ensures t[i].w.active == i + HEAP0 {
      if i != k { assert t[i].w != t[k].w; }
    }
  }

  lemma UpStep(s: seq<Anhe>, k: nat)
    requires k < |s|
    ensures k == 0 || s[Parent(k)].at <= s[k].at ==> Up(s, k) == s
    ensures k > 0 && !(s[Parent(k)].at <= s[k].at) ==> Up(s, k) == Up(Swap(s, k, Parent(k)), Parent(k))
  {
  }

  /** One turn of the loop towards the root; stays at `k` when the element belongs there. */
  method UpOnce(heap: array<Anhe>, k: nat, he: Anhe, ghost t: seq<Anhe>, ghost rest: seq<Anhe>) returns (p: nat, ghost u: seq<Anhe>)
    requires HEAP0 <= k < HEAP0 + |t| && Holds(heap, t, k - HEAP0, rest) && t[k - HEAP0] == he
    modifies heap, Watchers(t)`active
    ensures HEAP0 <= p <= k && |u| == |t| && Watchers(u) == Watchers(t)
    ensures Holds(heap, u, p - HEAP0, rest) && u[p - HEAP0] == he
    ensures Up(u, p - HEAP0) == Up(t, k - HEAP0) && (p == k ==> Up(u, p - HEAP0) == u)
  {
    hide Apart, Placed, Up, Holds, Watchers;
    p, u := HParent(k), t;
    assert p == Parent(k - HEAP0) + HEAP0;
    HeldAt(heap, t, k - HEAP0, rest, p - HEAP0);
    UpStep(t, k - HEAP0);
    if p == k || heap[p].at <= he.at {
      p := k;
    } else {
      SwapWatchers(t, k - HEAP0, p - HEAP0);
      Shift(heap, k - HEAP0, p - HEAP0, t, rest);
      u := Swap(t, k - HEAP0, p - HEAP0);
    }
  }

  method Upheap(heap: array<Anhe>, k0: nat, ghost s: seq<Anhe>, ghost rest: seq<Anhe>)
    requires HEAP0 <= k0 < HEAP0 + |s| && Holds(heap, s, k0 - HEAP0, rest) && heap[k0] == s[k0 - HEAP0]
    modifies heap, Watchers(s)`active
    ensures Holds(heap, Up(s, k0 - HEAP0), -1, rest)
  {
    hide Apart, Placed, Up, Holds, Watchers;
    HeldAt(heap, s, k0 - HEAP0, rest, k0 - HEAP0);
    var he, k := heap[k0], k0;
    ghost var t := s;          // the heap with `he` in the hole
    while true
      invariant HEAP0 <= k < HEAP0 + |s| && |t| == |s| && Watchers(t) == Watchers(s)
      invariant Holds(heap, t, k - HEAP0, rest) && t[k - HEAP0] == he
      invariant Up(t, k - HEAP0) == Up(s, k0 - HEAP0)
      decreases k
    {
      var p;
      p, t := UpOnce(heap, k, he, t, rest);
      if p == k { break; }
      k := p;
    }
    HeldAt(heap, t, k - HEAP0, rest, k - HEAP0);
    Settle(heap, k - HEAP0, he, t, rest);
  }

  lemma HeldAt(heap: array<Anhe>, t: seq<Anhe>, k: int, rest: seq<Anhe>, j: nat)
    requires Holds(heap, t, k, rest) && j < |t|
    ensures heap.Length == HEAP0 + |t| + |rest| && (j != k ==> heap[HEAP0 + j] == t[j])
    ensures t[j].w in Watchers(t)
  {
  }

  lemma DownStep(s: seq<Anhe>, k: nat)
    requires k < |s|
    ensures FirstChild(k) >= |s| || s[k].at <= s[MinChild(s, k)].at ==> Down(s, k) == s
    ensures FirstChild(k) < |s| && !(s[k].at <= s[MinChild(s, k)].at) ==>
              Down(s, k) == Down(Swap(s, k, MinChild(s, k)), MinChild(s, k))
  {
  }

  /** The code's search for the minimal child of the hole: unrolled when all four are there. */
  method FindMinChild(heap: array<Anhe>, n: nat, k: nat, ghost t: seq<Anhe>, ghost rest: seq<Anhe>) returns (minpos: nat, minat: real)
    requires k < |t| == n && Holds(heap, t, k, rest) && FirstChild(k) < n
    ensures minpos == HEAP0 + MinChild(t, k) && minat == t[MinChild(t, k)].at
    ensures Holds(heap, t, k, rest)
  {
    var pos := DHEAP * k + HEAP0 + 1;
    var e := n + HEAP0;
    minpos, minat := pos, heap[pos].at;
    if pos + DHEAP - 1 < e {
      if heap[pos + 1].at < minat { minpos, minat := pos + 1, heap[pos + 1].at; }
      if heap[pos + 2].at < minat { minpos, minat := pos + 2, heap[pos + 2].at; }
      if heap[pos + 3].at < minat { minpos, minat := pos + 3, heap[pos + 3].at; }
    } else {
      if pos + 1 < e && heap[pos + 1].at < minat { minpos, minat := pos + 1, heap[pos + 1].at; }
      if pos + 2 < e && heap[pos + 2].at < minat { minpos, minat := pos + 2, heap[pos + 2].at; }
      assert pos + 3 >= e;       // the code's fourth test here never succeeds
    }
  }

  /** One turn of the loop away from the root; stays at `k` when the element belongs there. */
  method DownOnce(heap: array<Anhe>, n: nat, k: nat, he: Anhe, ghost t: seq<Anhe>, ghost rest: seq<Anhe>) returns (c: nat, ghost u: seq<Anhe>)
    requires HEAP0 <= k < HEAP0 + |t| && n == |t| && Holds(heap, t, k - HEAP0, rest) && t[k - HEAP0] == he
    modifies heap, Watchers(t)`active
    ensures k <= c < HEAP0 + n && |u| == |t| && Watchers(u) == Watchers(t)
    ensures Holds(heap, u, c - HEAP0, rest) && u[c - HEAP0] == he
    ensures Down(u, c - HEAP0) == Down(t, k - HEAP0) && (c == k ==> Down(u, c - HEAP0) == u)
  {
    hide Apart, Placed, Down, Holds, Watchers, MinChild;
    c, u := k, t;
    DownStep(t, k - HEAP0);
    if FirstChild(k - HEAP0) < n {
      var minpos, minat := FindMinChild(heap, n, k - HEAP0, t, rest);
      if !(he.at <= minat) {
        HeldAt(heap, t, k - HEAP0, rest, minpos - HEAP0);
        SwapWatchers(t, k - HEAP0, minpos - HEAP0);
        Shift(heap, k - HEAP0, minpos - HEAP0, t, rest);
        u := Swap(t, k - HEAP0, minpos - HEAP0);
        c := minpos;
      }
    }
  }

  method Downheap(heap: array<Anhe>, n: nat, k0: nat, ghost s: seq<Anhe>, ghost rest: seq<Anhe>)
    requires HEAP0 <= k0 < HEAP0 + |s| && n == |s| && Holds(heap, s, k0 - HEAP0, rest) && heap[k0] == s[k0 - HEAP0]
    modifies heap, Watchers(s)`active
    ensures Holds(heap, Down(s, k0 - HEAP0), -1, rest)
  {
    hide Apart, Placed, Down, Holds, Watchers;
    HeldAt(heap, s, k0 - HEAP0, rest, k0 - HEAP0);
    var he, k := heap[k0], k0;
    ghost var t := s;
    while true
      invariant HEAP0 <= k < HEAP0 + n && |t| == n && Watchers(t) == Watchers(s)
      invariant Holds(heap, t, k - HEAP0, rest) && t[k - HEAP0] == he
      invariant Down(t, k - HEAP0) == Down(s, k0 - HEAP0)
      decreases HEAP0 + n - k
    {
      var c;
      c, t := DownOnce(heap, n, k, he, t, rest);
      if c == k { break; }
      k := c;
    }
    HeldAt(heap, t, k - HEAP0, rest, k - HEAP0);
    Settle(heap, k - HEAP0, he, t, rest);
  }

  /** Moves a changed element to where it belongs. */
  method Adjustheap(heap: array<Anhe>, n: nat, k: nat, ghost s: seq<Anhe>, ghost rest: seq<Anhe>)
    requires HEAP0 <= k < HEAP0 + |s| && n == |s| && Holds(heap, s, k - HEAP0, rest) && heap[k] == s[k - HEAP0]
    modifies heap, Watchers(s)`active
    ensures Holds(heap, Adjust(s, k - HEAP0), -1, rest)
  {
    if k > HEAP0 { HeldAt(heap, s, k - HEAP0, rest, Parent(k - HEAP0)); }
    hide Apart, Placed, Down, Up, Holds;
    assert HParent(k) == Parent(k - HEAP0) + HEAP0;
    if k > HEAP0 && heap[k].at <= heap[HParent(k)].at {
      Upheap(heap, k, s, rest);
    } else {
      Downheap(heap, n, k, s, rest);
    }
  }

  lemma {:induction false} UpApart(s: seq<Anhe>, k: nat)
    requires k < |s| && Apart(s)
    ensures Apart(Up(s, k)) && Watchers(Up(s, k)) == Watchers(s)
    decreases k
  {
    hide Apart, Watchers;
    if !(k == 0 || s[Parent(k)].at <= s[k].at) {
      SwapApart(s, k, Parent(k));
      UpApart(Swap(s, k, Parent(k)), Parent(k));
    }
  }

  lemma {:induction false} DownApart(s: seq<Anhe>, k: nat)
    requires k < |s| && Apart(s)
    ensures Apart(Down(s, k)) && Watchers(Down(s, k)) == Watchers(s)
    decreases |s| - k
  {
    hide Apart, Watchers;
    if !(FirstChild(k) >= |s| || s[k].at <= s[MinChild(s, k)].at) {
      SwapApart(s, k, MinChild(s, k));
      DownApart(Swap(s, k, MinChild(s, k)), MinChild(s, k));
    }
  }

  /** Rebuilds a heap whose cached expiries were all recomputed. */
  method ReheapAll(heap: array<Anhe>, n: nat, ghost s: seq<Anhe>, ghost rest: seq<Anhe>)
    requires n == |s| && Holds(heap, s, -1, rest)
    modifies heap, Watchers(s)`active
    ensures Holds(heap, Reheap(s, 0), -1, rest)
  {
    hide Apart, Up, Watchers, Holds, Placed, Reheap;
    ghost var t := s;
    HeldApart(heap, s, rest);
    var i := 0;
    while i < n
      invariant i <= n == |t|
      invariant Holds(heap, t, -1, rest) && Reheap(t, i) == Reheap(s, 0) && Watchers(t) == Watchers(s) && Apart(t)
    {
      HeldAt(heap, t, -1, rest, i);
      HeldBut(heap, t, i, rest);
      UpApart(t, i);
      ReheapStep(t, i);
      Upheap(heap, i + HEAP0, t, rest);
      t := Up(t, i);
      i := i + 1;
    }
    ReheapStep(t, n);
  }

  lemma ReheapStep(s: seq<Anhe>, i: nat)
    requires i <= |s|
    ensures Reheap(s, i) == if i == |s| then s else Reheap(Up(s, i), i + 1)
  {
  }

  lemma HeldApart(heap: array<Anhe>, t: seq<Anhe>, rest: seq<Anhe>)
    requires Holds(heap, t, -1, rest)
    ensures Apart(t)
  {
  }

  lemma HeldBut(heap: array<Anhe>, t: seq<Anhe>, k: int, rest: seq<Anhe>)
    requires Holds(heap, t, -1, rest)
    ensures Holds(heap, t, k, rest)
  {
  }

  // ----- entering, leaving and changing in place -----

  /** Enters `e` behind the last element; the array has room. */
  method Insert(heap: array<Anhe>, n: nat, e: Anhe, ghost s: seq<Anhe>, ghost rest: seq<Anhe>)
    requires n == |s| && Holds(heap, s, -1, rest) && rest != [] && forall i :: 0 <= i < |s| ==> s[i].w != e.w
    modifies heap, Watchers(s)`active, e.w`active
    ensures Holds(heap, Entered(s, e), -1, rest[1..])
  {
    ghost var t := s + [e];
    heap[HEAP0 + n] := e;
    forall i, j | 0 <= i < j < |t| ensures t[i].w != t[j].w { }
    assert Watchers(t) == Watchers(s) + {e.w} by {
      forall w | w in Watchers(s) + {e.w} ensures w in Watchers(t) {
        if w == e.w { assert t[n].w == w; } else { var i :| 0 <= i < |s| && s[i].w == w; assert t[i].w == w; }
      }
    }
    assert Holds(heap, t, n, rest[1..]);
    Upheap(heap, HEAP0 + n, t, rest[1..]);
  }

  lemma ShortApart(s: seq<Anhe>, k: nat)
    requires Apart(s) && k < |s| - 1
    ensures var n := |s| - 1; Apart(s[k := s[n]][..n]) && Watchers(s[k := s[n]][..n]) <= Watchers(s) - {s[k].w}
    ensures Watchers(s[..|s| - 1]) <= Watchers(s)
  {
    var n := |s| - 1;
    var t := s[k := s[n]][..n];
    assert forall i :: 0 <= i < n ==> t[i] == if i == k then s[n] else s[i];
  }

  /** Takes out element `k`; its slot at the end of the heap is free again. */
  method Remove(heap: array<Anhe>, n: nat, k: nat, ghost s: seq<Anhe>, ghost rest: seq<Anhe>)
    requires n == |s| - 1 && Holds(heap, s, -1, rest) && k < |s|
    modifies heap, Watchers(s)`active
    ensures Holds(heap, Removed(s, k), -1, [s[n]] + rest)
  {
    hide Adjust, Watchers;
    if k < n {
      ShortApart(s, k);
      ghost var t := s[k := s[n]][..n];
      heap[HEAP0 + k] := heap[HEAP0 + n];
      assert Holds(heap, t, k, [s[n]] + rest);
      Adjustheap(heap, n, HEAP0 + k, t, [s[n]] + rest);
    } else {
      assert Apart(s[..n]);
    }
  }

  /** Gives element `k` another expiry and moves it to where it fits. */
  method Change(heap: array<Anhe>, n: nat, k: nat, at: real, ghost s: seq<Anhe>, ghost rest: seq<Anhe>)
    requires n == |s| && Holds(heap, s, -1, rest) && k < |s|
    modifies heap, Watchers(s)`active
    ensures Holds(heap, Changed(s, k, at), -1, rest)
  {
    ghost var t := s[k := Anhe(at, s[k].w)];
    heap[HEAP0 + k] := Anhe(at, heap[HEAP0 + k].w);
    RecachedApart(s, k, at);
    assert Holds(heap, t, k, rest);
    Adjustheap(heap, n, HEAP0 + k, t, rest);
  }

  lemma RecachedApart(s: seq<Anhe>, k: nat, at: real)
    requires Apart(s) && k < |s|
    ensures var t := s[k := Anhe(at, s[k].w)]; Apart(t) && Watchers(t) == Watchers(s)
  {
    var t := s[k := Anhe(at, s[k].w)];
    assert forall i :: 0 <= i < |s| ==> t[i].w == s[i].w;
    forall w | w in Watchers(s) ensures w in Watchers(t) {
      var i :| 0 <= i < |s| && s[i].w == w;
      assert t[i].w == w;
    }
    forall w | w in Watchers(t) ensures w in Watchers(s) {
      var i :| 0 <= i < |t| && t[i].w == w;
      assert s[i].w == w;
    }
  }

  /** The root of a repeating timer that ran. */
  method Requeue(heap: array<Anhe>, n: nat, at: real, ghost s: seq<Anhe>, ghost rest: seq<Anhe>)
    requires n == |s| && s != [] && Holds(heap, s, -1, rest)
    modifies heap, Watchers(s)`active
    ensures Holds(heap, Down(s[0 := Anhe(at, s[0].w)], 0), -1, rest)
  {
    ghost var t := s[0 := Anhe(at, s[0].w)];
    heap[HEAP0] := Anhe(at, heap[HEAP0].w);
    RecachedApart(s, 0, at);
    assert Holds(heap, t, 0, rest);
    Downheap(heap, n, HEAP0, t, rest);
  }
}
