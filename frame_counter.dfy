/**
 * The FPS counter's sliding window of frame times (`FrameCounter._Process`):
 * every frame, drop the entries that are one second old or older from the
 * front of the list, append the current tick count, and report the list
 * length as the frame rate. The clock is a parameter (milliseconds).
 */
module FrameCounters {

  /** The window length in milliseconds. */
  const WindowMs: int := 1000

  /** Godot's tick counter is an unsigned 64-bit integer. */
  const TickModulus: int := 0x1_0000_0000_0000_0000

  /** Nondecreasing. */
  predicate Sorted(s: seq<int>) {
    forall i, j :: 0 <= i < j < |s| ==> s[i] <= s[j]
  }

  /**
   * The eviction loop: remove the front entry while it is at or below
   * `threshold`. The result is the suffix of `frames` that starts at the
   * first entry above the threshold; everything removed was at or below it.
   */
  function Evict(frames: seq<int>, threshold: int): (r: seq<int>)
    ensures |r| <= |frames| && r == frames[|frames| - |r|..]
    ensures r != [] ==> r[0] > threshold
    ensures forall i :: 0 <= i < |frames| - |r| ==> frames[i] <= threshold
    decreases |frames|
  {
    if frames != [] && frames[0] <= threshold then Evict(frames[1..], threshold) else frames
  }

  /** One `_Process` call at time `time`: evict entries at or below `time - 1000`, then append. */
  function Step(frames: seq<int>, time: int): (r: seq<int>)
    ensures |r| >= 1 && r[|r| - 1] == time
    ensures r[..|r| - 1] == Evict(frames, time - WindowMs)
  {
    Evict(frames, time - WindowMs) + [time]
  }

  /** `time - 1000` computed as the source computes it, on an unsigned 64-bit tick count. */
  function WrappedThreshold(time: nat): (r: nat)
    requires time < TickModulus
    ensures r < TickModulus
    ensures time >= WindowMs ==> r == time - WindowMs
    ensures time < WindowMs ==> r == time - WindowMs + TickModulus
  {
    (time - WindowMs) % TickModulus
  }

  /** `_Process` as written: the threshold wraps around during the first second. */
  function StepAsWritten(frames: seq<int>, time: nat): (r: seq<int>)
    requires time < TickModulus
    ensures |r| >= 1 && r[|r| - 1] == time
    ensures r[..|r| - 1] == Evict(frames, WrappedThreshold(time))
  {
    Evict(frames, WrappedThreshold(time)) + [time]
  }

  /**
   * During the first second every earlier frame is evicted by the wrapped
   * threshold: at 600 ms, a frame recorded at 500 ms is dropped and the
   * counter reports 1 instead of 2.
   */
  lemma FirstSecondUndercount()
    ensures |StepAsWritten([500], 600)| == 1
    ensures |Step([500], 600)| == 2
  {
    assert Evict([500], WrappedThreshold(600)) == [];
    assert Evict([500], 600 - WindowMs) == [500];
  }

  /** Before the clock reaches one second every earlier frame is dropped, whatever its time. */
  lemma {:induction false} AsWrittenFirstSecond(frames: seq<int>, time: nat)
    requires time < WindowMs
    requires forall i :: 0 <= i < |frames| ==> frames[i] < TickModulus - WindowMs
    ensures StepAsWritten(frames, time) == [time]
  {
  }

  /** From one second on, the written and the intended steps agree. */
  lemma AsWrittenAgreesAfterFirstSecond(frames: seq<int>, time: nat)
    requires WindowMs <= time < TickModulus
    ensures StepAsWritten(frames, time) == Step(frames, time)
  {
  }

  /** Entries leave only from the front: the survivors are a suffix, in their old order. */
  lemma StepKeepsSuffix(frames: seq<int>, time: int)
    ensures var r := Step(frames, time);
      r[..|r| - 1] == frames[|frames| - (|r| - 1)..]
  {
  }

  /** Every survivor of the eviction is above the threshold when the input is sorted. */
  lemma {:induction false} EvictSortedAbove(frames: seq<int>, threshold: int)
    requires Sorted(frames)
    ensures forall i :: 0 <= i < |Evict(frames, threshold)| ==> Evict(frames, threshold)[i] > threshold
  {
    var r := Evict(frames, threshold);
    var start := |frames| - |r|;
    forall i | 0 <= i < |r|
      ensures r[i] > threshold
    {
      assert r[0] == frames[start] && r[i] == frames[start + i];
      assert frames[start] <= frames[start + i] by {
        if i > 0 {
          assert start < start + i < |frames|;
        }
      }
    }
  }

  /** A suffix of a sorted sequence is sorted. */
  lemma SortedSuffix(s: seq<int>, k: nat)
    requires Sorted(s) && k <= |s|
    ensures Sorted(s[k..])
  {
    forall i, j | 0 <= i < j < |s| - k
      ensures s[k..][i] <= s[k..][j]
    {
      assert s[k..][i] == s[k + i] && s[k..][j] == s[k + j];
    }
  }

  /** Appending an element no smaller than the last keeps a sequence sorted. */
  lemma SortedAppend(s: seq<int>, x: int)
    requires Sorted(s)
    requires s != [] ==> s[|s| - 1] <= x
    ensures Sorted(s + [x])
  {
    var r := s + [x];
    forall i, j | 0 <= i < j < |r|
      ensures r[i] <= r[j]
    {
      assert r[i] == s[i];
      if j < |s| {
        assert r[j] == s[j];
      } else {
        assert s[i] <= s[|s| - 1];
      }
    }
  }

  /** With a nondecreasing clock the window stays sorted. */
  lemma StepKeepsSorted(frames: seq<int>, time: int)
    requires Sorted(frames)
    requires frames != [] ==> frames[|frames| - 1] <= time
    ensures Sorted(Step(frames, time))
  {
    var e := Evict(frames, time - WindowMs);
    assert Sorted(e) by {
      SortedSuffix(frames, |frames| - |e|);
    }
    assert e != [] ==> e[|e| - 1] <= time by {
      if e != [] {
        assert e[|e| - 1] == frames[|frames| - 1];
      }
    }
    SortedAppend(e, time);
    assert Step(frames, time) == e + [time];
  }

  /** After a step at time `t` on a sorted window, every entry is newer than `t - 1000`. */
  lemma StepWindowBound(frames: seq<int>, time: int)
    requires Sorted(frames)
    ensures forall i :: 0 <= i < |Step(frames, time)| ==> Step(frames, time)[i] > time - WindowMs
  {
    var e := Evict(frames, time - WindowMs);
    EvictSortedAbove(frames, time - WindowMs);
    assert Step(frames, time) == e + [time];
  }

  /** The counter node: the recent frame times and the rate shown on the label. */
  class FrameCounter {
    var frameTimes: seq<int>
    var fps: int

    constructor ()
      ensures frameTimes == [] && fps == 0
    {
      frameTimes := [];
      fps := 0;
    }

    /**
     * `_Process` with the clock reading `time`: the front-eviction loop,
     * then the append, then the count.
     */
    method Process(time: int)
      modifies this
      ensures frameTimes == Step(old(frameTimes), time)
      ensures fps == |frameTimes| && fps >= 1
    {
      ghost var start := frameTimes;
      while |frameTimes| > 0 && frameTimes[0] <= time - WindowMs
        invariant Evict(frameTimes, time - WindowMs) == Evict(start, time - WindowMs)
        decreases |frameTimes|
      {
        frameTimes := frameTimes[1..];
      }
      frameTimes := frameTimes + [time];
      fps := |frameTimes|;
    }
  }
}
