/**
 * The speaking effect of the visualiser (frontend.py): a pulse starts on
 * every rising edge of the microphone amplitude over a threshold, and each
 * HUD pass keeps only the pulses still within their lifetime.
 */
module Pulses {

  /** VOICE_THRESHOLD: the amplitude a pulse is triggered above. */
  const THRESHOLD: real := 0.15

  /** VOICE_PULSE_LIFE: how long a pulse lives, in milliseconds. */
  const LIFE: int := 1200

  /** A pulse started at s is drawn at time t when its age is between 0 and LIFE. */
  predicate Live(s: int, t: int) {
    0 <= t - s <= LIFE
  }

  /** The pulses alive at t, in their original order. */
  function Alive(pulses: seq<int>, t: int): seq<int> {
    if pulses == [] then []
    else
      var init := Alive(pulses[..|pulses| - 1], t);
      var last := pulses[|pulses| - 1];
      if Live(last, t) then init + [last] else init
  }

  /** A start time survives exactly when it was there and is alive. */
  lemma {:induction false} AliveMembers(pulses: seq<int>, t: int)
    ensures forall s :: s in Alive(pulses, t) <==> s in pulses && Live(s, t)
    decreases |pulses|
  {
    if pulses != [] {
      var init := pulses[..|pulses| - 1];
      AliveMembers(init, t);
      assert pulses == init + [pulses[|pulses| - 1]];
    }
  }

  /** Every surviving pulse is alive and no pulse is added. */
  lemma {:induction false} AliveBounds(pulses: seq<int>, t: int)
    ensures |Alive(pulses, t)| <= |pulses|
    ensures forall k :: 0 <= k < |Alive(pulses, t)| ==> Live(Alive(pulses, t)[k], t)
    decreases |pulses|
  {
    if pulses != [] {
      AliveBounds(pulses[..|pulses| - 1], t);
    }
  }

  /** Filtering twice at the same time is filtering once. */
  lemma {:induction false} AliveTwice(pulses: seq<int>, t: int)
    ensures Alive(Alive(pulses, t), t) == Alive(pulses, t)
    decreases |pulses|
  {
    if pulses != [] {
      var init := pulses[..|pulses| - 1];
      var last := pulses[|pulses| - 1];
      AliveTwice(init, t);
      var a := Alive(init, t);
      if Live(last, t) {
        assert (a + [last])[..|a + [last]| - 1] == a;
      }
    }
  }

  predicate Sorted(s: seq<int>) {
    forall i, j :: 0 <= i < j < |s| ==> s[i] <= s[j]
  }

  /** Filtering keeps start times in increasing order. */
  lemma {:induction false} AliveSorted(pulses: seq<int>, t: int)
    requires Sorted(pulses)
    ensures Sorted(Alive(pulses, t))
    decreases |pulses|
  {
    if pulses != [] {
      var init := pulses[..|pulses| - 1];
      var last := pulses[|pulses| - 1];
      AliveSorted(init, t);
      AliveMembers(init, t);
      var a := Alive(init, t);
      if Live(last, t) {
        forall i | 0 <= i < |a| ensures a[i] <= last {
          assert a[i] in a;
          assert a[i] in init;
          var j :| 0 <= j < |init| && init[j] == a[i];
          assert pulses[j] == init[j];
        }
      }
    }
  }

  /** `age / VOICE_PULSE_LIFE`, the progress of a pulse's ring from core to frame. */
  function Progress(s: int, t: int): (p: real)
    requires Live(s, t)
    ensures 0.0 <= p <= 1.0
  {
    (t - s) as real / LIFE as real
  }

  /** VOICE_PULSES together with last_amplitude. */
  class Tracker {
    var pulses: seq<int>
    var lastAmp: real

    constructor ()
      ensures pulses == [] && lastAmp == 0.0
    {
      pulses := [];
      lastAmp := 0.0;
    }

    /** One frame's trigger: a pulse starts at t on a rising edge over the threshold. */
    method Trigger(amp: real, t: int)
      modifies this
      ensures amp > THRESHOLD && old(lastAmp) <= THRESHOLD ==> pulses == old(pulses) + [t]
      ensures !(amp > THRESHOLD && old(lastAmp) <= THRESHOLD) ==> pulses == old(pulses)
      ensures lastAmp == amp
    {
      if amp > THRESHOLD && lastAmp <= THRESHOLD {
        pulses := pulses + [t];
      }
      lastAmp := amp;
    }

    /**
     * The HUD pass at time t: keeps the live pulses and returns the progress
     * of each pulse it draws, in order.
     */
    method Expire(t: int) returns (progress: seq<real>)
      modifies this
      ensures pulses == Alive(old(pulses), t)
      ensures |progress| == |pulses|
      ensures forall k :: 0 <= k < |pulses| ==>
        Live(pulses[k], t) && progress[k] == Progress(pulses[k], t)
      ensures lastAmp == old(lastAmp)
    {
      var alive: seq<int> := [];
      progress := [];
      var i := 0;
      while i < |pulses|
        invariant 0 <= i <= |pulses|
        invariant alive == Alive(pulses[..i], t)
        invariant |progress| == |alive|
        invariant forall k :: 0 <= k < |alive| ==> Live(alive[k], t) && progress[k] == Progress(alive[k], t)
      {
        var start := pulses[i];
        assert pulses[..i + 1][..i] == pulses[..i];
        var age := t - start;
        if age < 0 || age > LIFE {
          i := i + 1;
          continue;
        }
        alive := alive + [start];
        progress := progress + [age as real / LIFE as real];
        i := i + 1;
      }
      assert pulses[..i] == pulses;
      pulses := alive;
    }
  }
}
