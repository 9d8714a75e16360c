/**
 * The `requestAnimationFrame` fallback used when the platform has none: it schedules
 * the callback with a timer so that frames are at least 16 ms apart. The module-level
 * `then` (the time the last scheduled frame fires) is the field of `Shim`. The timer
 * itself is a platform call; a request is modelled by the delay it asks the timer for
 * and the time it passes to the callback.
 */
module FrameTimer {

  /** The minimum spacing of frames, in milliseconds. */
  const FrameSpacing := 16

  function Max(a: int, b: int): int {
    if a >= b then a else b
  }

  /** `M.max(0, 16 - (now - then))`: the delay a request made at `now` asks for. */
  function Delay(last: int, now: int): (d: int)
    ensures d >= 0
    ensures d <= FrameSpacing <==> now >= last
  {
    Max(0, FrameSpacing - (now - last))
  }

  /** The time the callback is given, and `then` becomes: `now + dt`. */
  function FireTime(last: int, now: int): int {
    now + Delay(last, now)
  }

  /** The next frame fires at the clock reading, or 16 ms after the previous frame,
      whichever is later. */
  lemma FireTimeIsLaterOf(last: int, now: int)
    ensures FireTime(last, now) == Max(now, last + FrameSpacing)
    ensures FireTime(last, now) >= now && FireTime(last, now) >= last + FrameSpacing
  {
  }

  /** The fire times of requests made at the clock readings `nows`, in order, starting
      from `then` = `last`. */
  function FireTimes(last: int, nows: seq<int>): (r: seq<int>)
    ensures |r| == |nows|
    decreases |nows|
  {
    if |nows| == 0 then []
    else
      var first := FireTime(last, nows[0]);
      [first] + FireTimes(first, nows[1..])
  }

  /** Every frame fires no earlier than its request, and each frame fires at least
      16 ms after the one before it, whatever the clock readings. */
  lemma {:induction false} FramesAreSpaced(last: int, nows: seq<int>)
    ensures var r := FireTimes(last, nows);
            (forall i :: 0 <= i < |r| ==> r[i] >= nows[i])
            && (|r| > 0 ==> r[0] >= last + FrameSpacing)
            && (forall i :: 0 <= i < |r| - 1 ==> r[i + 1] >= r[i] + FrameSpacing)
    decreases |nows|
  {
    if |nows| > 0 {
      var first := FireTime(last, nows[0]);
      var rest := FireTimes(first, nows[1..]);
      FireTimeIsLaterOf(last, nows[0]);
      FramesAreSpaced(first, nows[1..]);
      var r := FireTimes(last, nows);
      assert r == [first] + rest;
      forall i | 0 <= i < |r| - 1
        ensures r[i + 1] >= r[i] + FrameSpacing
      {
        if i > 0 {
          assert r[i] == rest[i - 1] && r[i + 1] == rest[i];
        }
      }
    }
  }

  /** Over k requests the last frame fires at least 16 * k ms after `then`: the shim
      never runs faster than 62.5 frames per second. */
  lemma {:induction false} FrameRateIsBounded(last: int, nows: seq<int>)
    requires |nows| > 0
    ensures FireTimes(last, nows)[|nows| - 1] >= last + FrameSpacing * |nows|
    decreases |nows|
  {
    var first := FireTime(last, nows[0]);
    FireTimeIsLaterOf(last, nows[0]);
    if |nows| > 1 {
      FrameRateIsBounded(first, nows[1..]);
      assert FireTimes(last, nows)[|nows| - 1] == FireTimes(first, nows[1..])[|nows| - 2];
    }
  }

  /** The fallback's one piece of state, `then`. */
  class Shim {
    var last: int

    /** `var then = 0` */
    constructor()
      ensures last == 0
    {
      last := 0;
    }

    /** A request at clock reading `now`: the delay handed to the timer, the time
        handed to the callback, and the new `then`. */
    method Request(now: int) returns (delay: int, fireAt: int)
      modifies this
      ensures delay == Delay(old(last), now) && fireAt == now + delay
      ensures last == fireAt
    {
      var dt := Max(0, FrameSpacing - (now - last));
      delay := dt;
      fireAt := now + dt;
      last := now + dt;
    }
  }
}
