/** What `timers_reify` does to the heap, as a function: it takes the root while it has expired, hands it over,
and reschedules or stops it. */
module Reify {
  import opened TimerHeap

  /** The timers that expired by `now`. */
  ghost function Late(s: seq<Anhe>, now: real): set<Watcher> {
    set i | 0 <= i < |s| && s[i].at < now :: s[i].w
  }

  /** A repeating timer runs again after its interval, but not before now. */
  function Next(at: real, repeat: real, now: real): real {
    if at + repeat < now then now else at + repeat
  }

  /** One turn of the loop. */
  function Turn(s: seq<Anhe>, now: real, repeats: map<Watcher, real>): seq<Anhe>
    requires s != [] && s[0].w in repeats
  {
    var e := s[0];
    if repeats[e.w] != 0.0 then Down(s[0 := Anhe(Next(e.at, repeats[e.w], now), e.w)], 0) else Removed(s, 0)
  }

  ghost predicate Repeats(s: seq<Anhe>, repeats: map<Watcher, real>) {
    forall i :: 0 <= i < |s| ==> s[i].w in repeats
  }

  /** A heap whose timers are all different. */
  ghost predicate Good(s: seq<Anhe>, repeats: map<Watcher, real>) {
    Ordered(s) && Apart(s) && Repeats(s, repeats)
  }

  lemma MembersOfMultiset(s: seq<Anhe>, t: seq<Anhe>, e: Anhe)
    requires multiset(s) == multiset(t)
    ensures e in s <==> e in t
  {
    assert e in s <==> e in multiset(s);
    assert e in t <==> e in multiset(t);
  }

  /** A permutation has the same late timers. */
  lemma SameLate(s: seq<Anhe>, t: seq<Anhe>, now: real)
    requires multiset(s) == multiset(t)
    ensures Late(s, now) == Late(t, now)
  {
    forall w | w in Late(s, now) ensures w in Late(t, now) {
      var i :| 0 <= i < |s| && s[i].at < now && s[i].w == w;
      MembersOfMultiset(s, t, s[i]);
      var j :| 0 <= j < |t| && t[j] == s[i];
    }
    forall w | w in Late(t, now) ensures w in Late(s, now) {
      var i :| 0 <= i < |t| && t[i].at < now && t[i].w == w;
      MembersOfMultiset(s, t, t[i]);
      var j :| 0 <= j < |s| && s[j] == t[i];
    }
  }

  /** What the turn makes of the elements, before they are moved into order. */
  function Rescheduled(s: seq<Anhe>, now: real, repeats: map<Watcher, real>): seq<Anhe>
    requires s != [] && s[0].w in repeats
  {
    var e := s[0];
    if repeats[e.w] != 0.0 then s[0 := Anhe(Next(e.at, repeats[e.w], now), e.w)] else s[1..]
  }

  lemma TurnKeeps(s: seq<Anhe>, now: real, repeats: map<Watcher, real>)
    requires Good(s, repeats) && s != []
    ensures Ordered(Turn(s, now, repeats)) && multiset(Turn(s, now, repeats)) == multiset(Rescheduled(s, now, repeats))
  {
    var e := s[0];
    if repeats[e.w] != 0.0 {
      var t := s[0 := Anhe(Next(e.at, repeats[e.w], now), e.w)];
      DownOrders(t, 0);
      DownKeeps(t, 0);
    } else {
      RemovedOk(s, 0);
      assert s == [s[0]] + s[1..];
    }
  }

  lemma {:induction false} ApartPermutes(s: seq<Anhe>, t: seq<Anhe>)
    requires Apart(s) && multiset(s) == multiset(t)
    ensures Apart(t)
  {
    forall i, j | 0 <= i < j < |t| ensures t[i].w != t[j].w {
      if t[i].w == t[j].w {
        MembersOfMultiset(s, t, t[i]);
        MembersOfMultiset(s, t, t[j]);
        var x :| 0 <= x < |s| && s[x] == t[i];
        var y :| 0 <= y < |s| && s[y] == t[j];
        assert x == y;
        TwoInMultiset(t, i, j);
        OneInMultiset(s, x);
      }
    }
  }

  lemma TwoInMultiset(t: seq<Anhe>, i: nat, j: nat)
    requires i < j < |t| && t[i] == t[j]
    ensures multiset(t)[t[i]] >= 2
  {
    assert t == t[..i] + [t[i]] + t[i + 1..j] + [t[j]] + t[j + 1..];
  }

  lemma OneInMultiset(s: seq<Anhe>, x: nat)
    requires Apart(s) && x < |s|
    ensures multiset(s)[s[x]] == 1
  {
    assert s == s[..x] + [s[x]] + s[x + 1..];
    assert s[x] !in s[..x] && s[x] !in s[x + 1..];
  }

  /** A turn takes the root out of the late ones and nobody else. */
  lemma TurnFacts(s: seq<Anhe>, now: real, repeats: map<Watcher, real>)
    requires Good(s, repeats) && s != [] && s[0].at < now
    ensures Good(Turn(s, now, repeats), repeats)
    ensures Late(Turn(s, now, repeats), now) == Late(s, now) - {s[0].w} && s[0].w in Late(s, now)
  {
    var t, r := Turn(s, now, repeats), Rescheduled(s, now, repeats);
    TurnKeeps(s, now, repeats);
    RescheduledFacts(s, now, repeats);
    ApartPermutes(r, t);
    SameLate(r, t, now);
    forall i | 0 <= i < |t| ensures t[i].w in repeats {
      MembersOfMultiset(r, t, t[i]);
    }
  }

  lemma RescheduledFacts(s: seq<Anhe>, now: real, repeats: map<Watcher, real>)
    requires Apart(s) && Repeats(s, repeats) && s != [] && s[0].at < now
    ensures Apart(Rescheduled(s, now, repeats)) && Repeats(Rescheduled(s, now, repeats), repeats)
    ensures Late(Rescheduled(s, now, repeats), now) == Late(s, now) - {s[0].w} && s[0].w in Late(s, now)
  {
    var r := Rescheduled(s, now, repeats);
    if repeats[s[0].w] != 0.0 {
      assert forall i :: 0 < i < |s| ==> r[i] == s[i];
    } else {
      assert forall i :: 0 < i < |s| ==> r[i - 1] == s[i];
      forall w | w in Late(s, now) - {s[0].w} ensures w in Late(r, now) {
        var i :| 0 <= i < |s| && s[i].at < now && s[i].w == w;
        assert r[i - 1] == s[i];
      }
    }
  }

  // ----- the whole loop -----

  /** The heap at the end of the loop, and the timers handed over, in order, with the expiry they had. */
  ghost function Run(s: seq<Anhe>, now: real, repeats: map<Watcher, real>): (seq<Anhe>, seq<Anhe>)
    requires Good(s, repeats)
    decreases Late(s, now)
  {
    if s == [] || s[0].at >= now then (s, []) else
    TurnFacts(s, now, repeats);
    var (t, fed) := Run(Turn(s, now, repeats), now, repeats);
    (t, [s[0]] + fed)
  }

  ghost function Fed(fed: seq<Anhe>): seq<Watcher> {
    seq(|fed|, i requires 0 <= i < |fed| => fed[i].w)
  }

  ghost predicate Ascending(fed: seq<Anhe>) {
    forall i, j :: 0 <= i < j < |fed| ==> fed[i].at <= fed[j].at
  }

  /** The loop ends with no timer late.  It hands over exactly the timers that were late, each once, in
      ascending order of expiry. */
  lemma {:induction false} RunIsExact(s: seq<Anhe>, now: real, repeats: map<Watcher, real>)
    requires Good(s, repeats)
    ensures var (t, fed) := Run(s, now, repeats);
            && Good(t, repeats) && Late(t, now) == {}
            && (forall i :: 0 <= i < |fed| ==> fed[i] in s && fed[i].at < now)
            && Watchers(fed) == Late(s, now) && Apart(fed) && Ascending(fed)
    decreases Late(s, now)
  {
    if s == [] {
    } else if s[0].at >= now {
      forall i | 0 <= i < |s| ensures s[i].at >= now { RootIsFirst(s, i); }
    } else {
      TurnFacts(s, now, repeats);
      var u := Turn(s, now, repeats);
      RunIsExact(u, now, repeats);
      var (t, fed) := Run(u, now, repeats);
      RunCons(s, u, now, repeats, fed);
    }
  }

  lemma RunCons(s: seq<Anhe>, u: seq<Anhe>, now: real, repeats: map<Watcher, real>, fed: seq<Anhe>)
    requires Good(s, repeats) && s != [] && s[0].at < now && u == Turn(s, now, repeats)
    requires (forall i :: 0 <= i < |fed| ==> fed[i] in u && fed[i].at < now)
    requires Watchers(fed) == Late(u, now) == Late(s, now) - {s[0].w} && s[0].w in Late(s, now) && Apart(fed) && Ascending(fed)
    ensures var all := [s[0]] + fed;
            && (forall i :: 0 <= i < |all| ==> all[i] in s && all[i].at < now)
            && Watchers(all) == Late(s, now) && Apart(all) && Ascending(all)
  {
    var all := [s[0]] + fed;
    TurnKeeps(s, now, repeats);
    forall i | 0 <= i < |fed| ensures fed[i] in s && s[0].at <= fed[i].at && fed[i].w != s[0].w {
      assert fed[i].w in Watchers(fed);
      MembersOfMultiset(u, Rescheduled(s, now, repeats), fed[i]);
      assert fed[i] in s;
      var j :| 0 <= j < |s| && s[j] == fed[i];
      RootIsFirst(s, j);
    }
    hide Good, Turn, Rescheduled, Late, Watchers;
    assert forall i :: 0 < i < |all| ==> all[i] == fed[i - 1];
    WatchersCons(s[0], fed);
  }

  lemma WatchersCons(e: Anhe, fed: seq<Anhe>)
    ensures Watchers([e] + fed) == Watchers(fed) + {e.w}
  {
    var all := [e] + fed;
    forall w | w in Watchers(fed) + {e.w} ensures w in Watchers(all) {
      if w == e.w {
        assert all[0].w == w;
      } else {
        var i :| 0 <= i < |fed| && fed[i].w == w;
        assert all[i + 1].w == w;
      }
    }
    forall w | w in Watchers(all) ensures w in Watchers(fed) + {e.w} {
      var i :| 0 <= i < |all| && all[i].w == w;
      if i > 0 { assert fed[i - 1].w == w; }
    }
  }

  /** A timer that expired at `x.at` is set to run again after its interval, or now if that is over already. */
  ghost predicate Resumes(x: Anhe, now: real, repeats: map<Watcher, real>, e: Anhe) {
    && x.w == e.w && x.w in repeats && repeats[x.w] != 0.0
    && now <= e.at && x.at + repeats[x.w] <= e.at && (e.at == now || e.at == x.at + repeats[x.w])
  }

  /** What becomes of a timer that was handed over. */
  ghost predicate Again(fed: seq<Anhe>, now: real, repeats: map<Watcher, real>, e: Anhe) {
    exists i :: 0 <= i < |fed| && Resumes(fed[i], now, repeats, e)
  }

  /** The heap then holds the timers that were not late, as they were, and the repeating ones among those
      handed over, an interval after their expiry or now, whichever is later; the others are gone. */
  lemma {:induction false} RunLeaves(s: seq<Anhe>, now: real, repeats: map<Watcher, real>, e: Anhe)
    requires Good(s, repeats)
    ensures var (t, fed) := Run(s, now, repeats);
            e in t <==> (e in s && e.at >= now) || Again(fed, now, repeats, e)
    decreases Late(s, now)
  {
    if s == [] {
    } else if s[0].at >= now {
      if e in s {
        var i :| 0 <= i < |s| && s[i] == e;
        RootIsFirst(s, i);
      }
    } else {
      TurnFacts(s, now, repeats);
      TurnKeeps(s, now, repeats);
      var u := Turn(s, now, repeats);
      RunLeaves(u, now, repeats, e);
      var (t, fed) := Run(u, now, repeats);
      MembersOfMultiset(u, Rescheduled(s, now, repeats), e);
      AgainCons(s[0], fed, now, repeats, e);
      RescheduledMembers(s, now, repeats, e);
    }
  }

  lemma RescheduledMembers(s: seq<Anhe>, now: real, repeats: map<Watcher, real>, e: Anhe)
    requires s != [] && s[0].w in repeats && s[0].at < now
    ensures (e in Rescheduled(s, now, repeats) && e.at >= now) <==>
            (e in s && e.at >= now) || Again([s[0]], now, repeats, e)
  {
    var r := Rescheduled(s, now, repeats);
    assert s == [s[0]] + s[1..];
    if repeats[s[0].w] != 0.0 {
      var x := Anhe(Next(s[0].at, repeats[s[0].w], now), s[0].w);
      assert r == [x] + s[1..];
      assert [s[0]][0] == s[0] && Resumes(s[0], now, repeats, x);
    }
  }

  lemma AgainCons(x: Anhe, fed: seq<Anhe>, now: real, repeats: map<Watcher, real>, e: Anhe)
    ensures Again([x] + fed, now, repeats, e) <==> Again([x], now, repeats, e) || Again(fed, now, repeats, e)
  {
    var all := [x] + fed;
    if Again(fed, now, repeats, e) {
      var i :| 0 <= i < |fed| && Resumes(fed[i], now, repeats, e);
      assert all[i + 1] == fed[i];
    }
    if Again([x], now, repeats, e) { assert all[0] == x; }
  }

  // ----- the beat of a repeating timer -----

  /** One round, seen by one repeating timer: it is handed over exactly when it is late, and unless the round comes more
  than an interval late its next expiry is one interval on. */
  lemma OneRound(s: seq<Anhe>, now: real, repeats: map<Watcher, real>, e: Anhe)
    requires Good(s, repeats) && e in s && e.w in repeats && repeats[e.w] != 0.0 && now <= e.at + repeats[e.w]
    ensures var (t, fed) := Run(s, now, repeats);
            && (e.w in Watchers(fed) <==> e.at < now)
            && Anhe(if e.at < now then e.at + repeats[e.w] else e.at, e.w) in t
  {
    var next := Anhe(if e.at < now then e.at + repeats[e.w] else e.at, e.w);
    var k :| 0 <= k < |s| && s[k] == e;
    RunIsExact(s, now, repeats);
    RunLeaves(s, now, repeats, next);
    hide Run;
    var fed := Run(s, now, repeats).1;
    if e.at < now {
      assert e.w in Late(s, now);
      var i :| 0 <= i < |fed| && fed[i].w == e.w;
      SameEntry(s, fed[i], e);
      assert Resumes(fed[i], now, repeats, next);
    } else {
      forall i | 0 <= i < |s| && s[i].w == e.w ensures s[i].at >= now { SameEntry(s, s[i], e); }
    }
  }

  lemma SameEntry(s: seq<Anhe>, x: Anhe, y: Anhe)
    requires Apart(s) && x in s && y in s && x.w == y.w
    ensures x == y
  {
    var i :| 0 <= i < |s| && s[i] == x;
    var j :| 0 <= j < |s| && s[j] == y;
  }

  /** Rounds at the times `nows`, on the heaps `heaps`: between two rounds anything may happen to the other timers, but
  not to `w`. */
  ghost predicate Rounds(heaps: seq<seq<Anhe>>, nows: seq<real>, repeats: map<Watcher, real>, w: Watcher) {
    && |heaps| == |nows| + 1 && (forall j :: 0 <= j < |heaps| ==> Good(heaps[j], repeats))
    && forall j, at :: 0 <= j < |nows| && Anhe(at, w) in Run(heaps[j], nows[j], repeats).0 ==> Anhe(at, w) in heaps[j + 1]
  }

  /** In how many of the first `n` rounds the timer was handed over. */
  ghost function TimesRun(heaps: seq<seq<Anhe>>, nows: seq<real>, repeats: map<Watcher, real>, w: Watcher, n: nat): nat
    requires Rounds(heaps, nows, repeats, w) && n <= |nows|
  {
    if n == 0 then 0
    else TimesRun(heaps, nows, repeats, w, n - 1) + if w in Watchers(Run(heaps[n - 1], nows[n - 1], repeats).1) then 1 else 0
  }

  /** The expiry `k` intervals after `at`. */
  function Due(at: real, interval: real, k: nat): real {
    at + k as real * interval
  }

  lemma DueNext(at: real, interval: real, k: nat)
    ensures Due(at, interval, 0) == at && Due(at, interval, k + 1) == Due(at, interval, k) + interval
  {
  }

  /** None of the first `n` rounds is late by more than an interval for the timer of `e`. */
  ghost predicate InTime(heaps: seq<seq<Anhe>>, nows: seq<real>, repeats: map<Watcher, real>, e: Anhe, n: nat)
    requires Rounds(heaps, nows, repeats, e.w) && n <= |nows| && e.w in repeats
  {
    n == 0 || (&& InTime(heaps, nows, repeats, e, n - 1)
               && nows[n - 1] <= Due(e.at, repeats[e.w], TimesRun(heaps, nows, repeats, e.w, n - 1) + 1))
  }

  /** A repeating timer keeps its beat: over such rounds, after `k` runs it expires exactly `k` intervals after its first
  expiry, so that no delay adds up. */
  lemma {:induction false} KeepsItsBeat(heaps: seq<seq<Anhe>>, nows: seq<real>, repeats: map<Watcher, real>, e: Anhe, n: nat)
    requires Rounds(heaps, nows, repeats, e.w) && n <= |nows| && e in heaps[0] && e.w in repeats && repeats[e.w] != 0.0
    requires InTime(heaps, nows, repeats, e, n)
    ensures Anhe(Due(e.at, repeats[e.w], TimesRun(heaps, nows, repeats, e.w, n)), e.w) in heaps[n]
    decreases n
  {
    hide *;
    var r := repeats[e.w];
    DueNext(e.at, r, 0);
    BeatStart(heaps, nows, repeats, e, n);
    if n > 0 {
      var k := TimesRun(heaps, nows, repeats, e.w, n - 1);
      KeepsItsBeat(heaps, nows, repeats, e, n - 1);
      DueNext(e.at, r, k);
      BeatStep(heaps, nows, repeats, Anhe(Due(e.at, r, k), e.w), n - 1);
    }
  }

  lemma BeatStart(heaps: seq<seq<Anhe>>, nows: seq<real>, repeats: map<Watcher, real>, e: Anhe, n: nat)
    requires Rounds(heaps, nows, repeats, e.w) && n <= |nows| && e.w in repeats && InTime(heaps, nows, repeats, e, n)
    ensures TimesRun(heaps, nows, repeats, e.w, 0) == 0 && e == Anhe(e.at, e.w)
    ensures n > 0 ==> InTime(heaps, nows, repeats, e, n - 1)
                      && nows[n - 1] <= Due(e.at, repeats[e.w], TimesRun(heaps, nows, repeats, e.w, n - 1) + 1)
    ensures |heaps| == |nows| + 1
  {
  }

  lemma BeatStep(heaps: seq<seq<Anhe>>, nows: seq<real>, repeats: map<Watcher, real>, e: Anhe, n: nat)
    requires Rounds(heaps, nows, repeats, e.w) && n < |nows| && e in heaps[n] && e.w in repeats && repeats[e.w] != 0.0
    requires nows[n] <= e.at + repeats[e.w]
    ensures var k, m := TimesRun(heaps, nows, repeats, e.w, n), TimesRun(heaps, nows, repeats, e.w, n + 1);
            && (m == k || m == k + 1)
            && Anhe(if m == k then e.at else e.at + repeats[e.w], e.w) in heaps[n + 1]
  {
    hide Good, Run;
    OneRound(heaps[n], nows[n], repeats, e);
  }

  /** The timers that do not repeat among those handed over. */
  ghost function Stopped(fed: seq<Anhe>, repeats: map<Watcher, real>): seq<Watcher>
    decreases |fed|
  {
    if fed == [] then []
    else
      var e := fed[|fed| - 1];
      Stopped(fed[..|fed| - 1], repeats) + if e.w in repeats && repeats[e.w] == 0.0 then [e.w] else []
  }

  lemma FedNone(repeats: map<Watcher, real>)
    ensures Fed([]) == [] && Stopped([], repeats) == []
  {
  }

  lemma FedMore(fed: seq<Anhe>, e: Anhe, repeats: map<Watcher, real>)
    ensures Fed(fed + [e]) == Fed(fed) + [e.w]
    ensures Stopped(fed + [e], repeats) == if e.w in repeats && repeats[e.w] == 0.0 then Stopped(fed, repeats) + [e.w] else Stopped(fed, repeats)
  {
    assert (fed + [e])[..|fed + [e]| - 1] == fed;
  }

  /** One step of the recursion, and of its measure. */
  lemma RunOnce(s: seq<Anhe>, now: real, repeats: map<Watcher, real>)
    requires Good(s, repeats)
    ensures s == [] || s[0].at >= now ==> Run(s, now, repeats) == (s, [])
    ensures s != [] && s[0].at < now ==>
              var u := Turn(s, now, repeats);
              Good(u, repeats) && Late(u, now) < Late(s, now)
              && Run(s, now, repeats) == (Run(u, now, repeats).0, [s[0]] + Run(u, now, repeats).1)
  {
    if s != [] && s[0].at < now { TurnFacts(s, now, repeats); }
  }
}
