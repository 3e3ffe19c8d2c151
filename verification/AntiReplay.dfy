/** The anti-replay window of a raw connection (`anti_replay_t`).

The window is a 4000-slot ring indexed by sequence number modulo its size.  `re_init` resets only the
largest sequence number, so the ring may hold stale marks.  The abstract view is a plain filter: the
largest number accepted and the set of numbers that may no longer be accepted.
*/
module AntiReplay {

  const WINDOW_SIZE: nat := 4000

  /** What the window means: `highest` is the largest number accepted since the last reset (0 before the
      first), `spent` the numbers that were accepted, and 0 if its slot was stale at the reset. */
  datatype Filter = Filter(highest: nat, spent: set<nat>)

  /** The filter right after a reset whose slot 0 held the stale mark `slot0`. */
  function Fresh(slot0: bool): Filter {
    Filter(0, if slot0 then {0} else {})
  }

  /** A number passes when it is new, no staler than the window, and not equal to the largest one. */
  predicate Accepts(f: Filter, s: nat) {
    s != f.highest && s !in f.spent && f.highest < s + WINDOW_SIZE
  }

  function Spend(f: Filter, s: nat): Filter {
    if Accepts(f, s) then Filter(if s > f.highest then s else f.highest, f.spent + {s}) else f
  }

  /** A filter as the window keeps it. */
  ghost predicate Sound(f: Filter) {
    && (forall s <- f.spent :: s <= f.highest)
    && (f.highest > 0 ==> f.highest in f.spent)
  }

  /** The verdicts on a run of sequence numbers, in order. */
  function Verdicts(f: Filter, run: seq<nat>): (r: seq<bool>)
    ensures |r| == |run|
    decreases |run|
  {
    if run == [] then [] else [Accepts(f, run[0])] + Verdicts(Spend(f, run[0]), run[1..])
  }

  /** The filter after a run. */
  function After(f: Filter, run: seq<nat>): Filter
    decreases |run|
  {
    if run == [] then f else After(Spend(f, run[0]), run[1..])
  }

  /** `s` was accepted somewhere before position `i` of the run. */
  ghost predicate AcceptedBefore(f: Filter, run: seq<nat>, i: nat, s: nat)
    requires i <= |run|
  {
    exists j :: 0 <= j < i && run[j] == s && Verdicts(f, run)[j]
  }

  /** `m` is the largest number accepted before position `i`, or 0 when none was. */
  ghost predicate LargestBefore(f: Filter, run: seq<nat>, i: nat, m: nat)
    requires i <= |run|
  {
    && (m == 0 || AcceptedBefore(f, run, i, m))
    && forall s: nat :: AcceptedBefore(f, run, i, s) ==> s <= m
  }

  lemma {:induction false} PrefixVerdict(f: Filter, run: seq<nat>, i: nat)
    requires i < |run|
    ensures Verdicts(f, run)[i] == Accepts(After(f, run[..i]), run[i])
    ensures After(f, run[..i + 1]) == Spend(After(f, run[..i]), run[i])
    decreases i
  {
    if i == 0 {
      assert run[..1] == [run[0]];
      assert After(f, run[..1]) == After(Spend(f, run[0]), run[..1][1..]);
    } else {
      PrefixVerdict(Spend(f, run[0]), run[1..], i - 1);
      assert run[..i][1..] == run[1..][..i - 1];
      assert run[..i + 1][1..] == run[1..][..i];
    }
  }

  /** After a prefix the filter holds exactly the numbers accepted in it, their maximum, and the stale 0. */
  lemma {:induction false} FilterRemembers(slot0: bool, run: seq<nat>, i: nat)
    requires i <= |run|
    ensures var g := After(Fresh(slot0), run[..i]);
            && Sound(g)
            && LargestBefore(Fresh(slot0), run, i, g.highest)
            && forall s :: s in g.spent <==> AcceptedBefore(Fresh(slot0), run, i, s) || (slot0 && s == 0)
  {
    var f := Fresh(slot0);
    if i == 0 {
      assert run[..0] == [];
    } else {
      FilterRemembers(slot0, run, i - 1);
      PrefixVerdict(f, run, i - 1);
      var g, h := After(f, run[..i - 1]), After(f, run[..i]);
      forall s
        ensures AcceptedBefore(f, run, i, s) <==> AcceptedBefore(f, run, i - 1, s) || (s == run[i - 1] && Verdicts(f, run)[i - 1])
      {
      }
    }
  }

  /** The law of the window, over every run and whatever stale marks the ring started with: a number
      above 0 is accepted exactly when it was not accepted before and lies within the window of the
      largest number accepted so far. */
  lemma {:induction false} AcceptedIffNewAndRecent(slot0: bool, run: seq<nat>, i: nat, m: nat)
    requires i < |run| && run[i] >= 1
    requires LargestBefore(Fresh(slot0), run, i, m)
    ensures Verdicts(Fresh(slot0), run)[i] <==>
            !AcceptedBefore(Fresh(slot0), run, i, run[i]) && run[i] + WINDOW_SIZE > m
  {
    FilterRemembers(slot0, run, i);
    PrefixVerdict(Fresh(slot0), run, i);
    assert m == After(Fresh(slot0), run[..i]).highest;
  }

  /** Number 0 is accepted exactly when slot 0 was not stale, 0 was not accepted before, and the largest
      accepted number is between 1 and 3999. */
  lemma {:induction false} ZeroAcceptedIff(slot0: bool, run: seq<nat>, i: nat, m: nat)
    requires i < |run| && run[i] == 0
    requires LargestBefore(Fresh(slot0), run, i, m)
    ensures Verdicts(Fresh(slot0), run)[i] <==>
            !slot0 && !AcceptedBefore(Fresh(slot0), run, i, 0) && 1 <= m < WINDOW_SIZE
  {
    FilterRemembers(slot0, run, i);
    PrefixVerdict(Fresh(slot0), run, i);
    assert m == After(Fresh(slot0), run[..i]).highest;
  }

  /** No number is accepted twice in one era of the window. */
  lemma {:induction false} AcceptedAtMostOnce(slot0: bool, run: seq<nat>, i: nat, j: nat)
    requires i < j < |run| && run[i] == run[j] && Verdicts(Fresh(slot0), run)[i]
    ensures !Verdicts(Fresh(slot0), run)[j]
  {
    FilterRemembers(slot0, run, j);
    PrefixVerdict(Fresh(slot0), run, j);
    assert AcceptedBefore(Fresh(slot0), run, j, run[j]);
  }

  /** Two numbers less than a window apart that share a slot are equal. */
  lemma SameSlot(s: nat, t: nat)
    requires s % WINDOW_SIZE == t % WINDOW_SIZE && s <= t < s + WINDOW_SIZE
    ensures s == t
  {
    var q, r := s / WINDOW_SIZE, t / WINDOW_SIZE;
    assert s == WINDOW_SIZE * q + s % WINDOW_SIZE && t == WINDOW_SIZE * r + t % WINDOW_SIZE;
    assert 0 <= WINDOW_SIZE * (r - q) < WINDOW_SIZE;
  }

  class Window {
    var maxPacketReceived: nat
    const window: array<int>        // char window[4000]; a slot is marked when it holds 1
    var antiReplaySeq: nat
    ghost var filter: Filter

    ghost predicate Valid()
      reads this, window
    {
      && window.Length == WINDOW_SIZE
      && filter.highest == maxPacketReceived
      && Sound(filter)
      && forall s: nat :: s <= maxPacketReceived < s + WINDOW_SIZE ==>
           (window[s % WINDOW_SIZE] == 1 <==> s in filter.spent)
    }

    /** The ring is left uninitialised and the first send number is random. */
    constructor (firstSeq: nat)
      ensures Valid() && fresh(window)
      ensures antiReplaySeq == firstSeq
      ensures filter == Fresh(window[0] == 1)
    {
      maxPacketReceived := 0;
      antiReplaySeq := firstSeq;
      window := new int[WINDOW_SIZE];
      new;
      filter := Fresh(window[0] == 1);
    }

    method GetNewSeqForSend() returns (s: nat)
      requires Valid()
      modifies this`antiReplaySeq
      ensures Valid()
      ensures s == old(antiReplaySeq) && antiReplaySeq == s + 1
    {
      s := antiReplaySeq;
      antiReplaySeq := antiReplaySeq + 1;
    }

    /** Starts a new era; the ring keeps whatever marks it has. */
    method ReInit()
      requires Valid()
      modifies this`maxPacketReceived, this`filter
      ensures Valid()
      ensures filter == Fresh(window[0] == 1)
    {
      maxPacketReceived := 0;
      filter := Fresh(window[0] == 1);
    }

    /** The verdict and the new state are those of the filter, whatever the ring held. */
    method IsValid(s: nat, disableAntiReplay: bool) returns (ok: bool)
      requires Valid()
      modifies this`maxPacketReceived, this`filter, window
      ensures Valid() && antiReplaySeq == old(antiReplaySeq)
      ensures disableAntiReplay ==> ok && filter == old(filter)
      ensures !disableAntiReplay ==> ok == Accepts(old(filter), s) && filter == Spend(old(filter), s)
    {
      if disableAntiReplay { return true; }
      if s == maxPacketReceived {
        return false;
      } else if s > maxPacketReceived {
        if s - maxPacketReceived >= WINDOW_SIZE {
          forall i | 0 <= i < WINDOW_SIZE { window[i] := 0; }
          window[s % WINDOW_SIZE] := 1;
        } else {
          ClearBetween(maxPacketReceived, s);
          window[s % WINDOW_SIZE] := 1;
        }
        forall t: nat | t <= s < t + WINDOW_SIZE && t % WINDOW_SIZE == s % WINDOW_SIZE ensures t == s { SameSlot(t, s); }
        maxPacketReceived := s;
        filter := Spend(filter, s);
        return true;
      } else {
        if maxPacketReceived - s >= WINDOW_SIZE {
          return false;
        } else if window[s % WINDOW_SIZE] == 1 {
          return false;
        } else {
          forall t: nat | t <= maxPacketReceived < t + WINDOW_SIZE && t % WINDOW_SIZE == s % WINDOW_SIZE ensures t == s {
            if t <= s { SameSlot(t, s); } else { SameSlot(s, t); }
          }
          window[s % WINDOW_SIZE] := 1;
          filter := Spend(filter, s);
          return true;
        }
      }
    }

    /** Clears the slots of the numbers skipped between the old and the new maximum. */
    method ClearBetween(low: nat, high: nat)
      requires window.Length == WINDOW_SIZE
      requires low < high < low + WINDOW_SIZE
      modifies window
      ensures forall t: nat :: low < t < high ==> window[t % WINDOW_SIZE] == 0
      ensures forall t: nat :: t <= low && high < t + WINDOW_SIZE ==>
                window[t % WINDOW_SIZE] == old(window[t % WINDOW_SIZE])
    {
      var i := low + 1;
      while i < high
        invariant low < i <= high
        invariant forall t: nat :: low < t < i ==> window[t % WINDOW_SIZE] == 0
        invariant forall t: nat :: t <= low && high < t + WINDOW_SIZE ==>
                    window[t % WINDOW_SIZE] == old(window[t % WINDOW_SIZE])
      {
        forall t: nat | t <= low && high < t + WINDOW_SIZE && t % WINDOW_SIZE == i % WINDOW_SIZE ensures false { SameSlot(t, i); }
        window[i % WINDOW_SIZE] := 0;
        i := i + 1;
      }
    }
  }
}
