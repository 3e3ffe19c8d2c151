/** The process clock (`get_current_time_us`): the raw wall clock, repaired so that it never runs backwards. */
module Clock {

  /** The correction added to the raw clock, and the largest reading so far. */
  datatype Time = Time(fix: nat, top: nat)

  /** One reading of the raw clock. */
  function Read(t: Time, raw: nat): Time {
    var us := if raw + t.fix > t.top then raw + t.fix else t.top;
    Time(us - raw, us)
  }

  class Clock {
    var valueFix: nat
    var largestValue: nat

    constructor ()
      ensures valueFix == 0 && largestValue == 0
    {
      valueFix, largestValue := 0, 0;
    }

    function At(): Time
      reads this
    {
      Time(valueFix, largestValue)
    }

    /** Milliseconds of the latest reading handed out. */
    function Reading(): nat
      reads this
    {
      largestValue / 1000
    }

    /** `raw` is the wall clock in microseconds; it may jump either way. */
    method CurrentTimeUs(raw: nat) returns (us: nat)
      modifies this
      ensures us == largestValue == raw + valueFix
      ensures us == if raw + old(valueFix) > old(largestValue) then raw + old(valueFix) else old(largestValue)
      ensures At() == Read(old(At()), raw)
    {
      var fixedValue := raw + valueFix;
      if fixedValue < largestValue {
        valueFix := valueFix + (largestValue - fixedValue);
      } else {
        largestValue := fixedValue;
      }
      us := raw + valueFix;
    }

    method CurrentTime(raw: nat) returns (ms: nat)
      modifies this
      ensures ms == Reading() && old(Reading()) <= ms && At() == Read(old(At()), raw)
      ensures ms == (if raw + old(valueFix) > old(largestValue) then raw + old(valueFix) else old(largestValue)) / 1000
    {
      var us := CurrentTimeUs(raw);
      ms := us / 1000;
    }

    /** Reads the clock once per element of `raws`. */
    method ReadMany(raws: seq<nat>) returns (out: seq<nat>)
      modifies this
      ensures out == Readings(old(valueFix), old(largestValue), raws)
    {
      out := [];
      ghost var fix, top := valueFix, largestValue;
      for i := 0 to |raws|
        invariant out + Readings(valueFix, largestValue, raws[i..]) == Readings(fix, top, raws)
      {
        assert raws[i..][1..] == raws[i + 1..];
        var us := CurrentTimeUs(raws[i]);
        out := out + [us];
      }
      assert raws[|raws|..] == [];
    }
  }

  /** The readings of a run of raw clock values, starting from a given correction and largest reading. */
  function Readings(fix: nat, top: nat, raws: seq<nat>): (r: seq<nat>)
    ensures |r| == |raws|
    decreases |raws|
  {
    if raws == [] then [] else
    var t := Read(Time(fix, top), raws[0]);
    [t.top] + Readings(t.fix, t.top, raws[1..])
  }

  /** For any raw clock, readings never decrease, and they advance exactly by the raw clock's forward steps. */
  lemma {:induction false} ReadingsFollowForwardSteps(fix: nat, top: nat, raws: seq<nat>, i: nat)
    requires i + 1 < |raws|
    ensures var r := Readings(fix, top, raws);
            && r[i] <= r[i + 1]
            && r[i + 1] - r[i] == if raws[i + 1] > raws[i] then raws[i + 1] - raws[i] else 0
    decreases i
  {
    if i > 0 {
      var us := if raws[0] + fix > top then raws[0] + fix else top;
      ReadingsFollowForwardSteps(us - raws[0], us, raws[1..], i - 1);
    }
  }

  lemma {:induction false} ReadingsNeverDecrease(fix: nat, top: nat, raws: seq<nat>, i: nat, j: nat)
    requires i <= j < |raws|
    ensures top <= Readings(fix, top, raws)[i] <= Readings(fix, top, raws)[j]
    decreases j
  {
    if j > i {
      ReadingsNeverDecrease(fix, top, raws, i, j - 1);
      ReadingsFollowForwardSteps(fix, top, raws, j - 1);
    } else if i > 0 {
      ReadingsNeverDecrease(fix, top, raws, i - 1, i - 1);
      ReadingsFollowForwardSteps(fix, top, raws, i - 1);
    }
  }
}
