/** `xr::Timer` (src/xiao-lights/src/timer.hpp): a countdown clock sampled with
    absolute millisecond timestamps. `tick` is a consuming update that returns the
    timer and a "fired" flag. */
module XiaoTimer {
  import opened Shared

  datatype Timer = Timer(interval: u32, remaining: u32, lastTime: u32)

  /** `Timer(amount)`: armed with `amount` and not yet started (`lastTime == 0`). */
  function New(amount: u32): Timer
  {
    Timer(amount, amount, 0)
  }

  /** Saturating subtraction `diff > remaining ? 0 : remaining - diff`. */
  function SaturatingSub(remaining: u32, diff: u32): (r: u32)
    ensures r <= remaining
    ensures r == 0 <==> diff >= remaining
    ensures r > 0 ==> r == remaining - diff
  {
    if diff > remaining then 0 else remaining - diff
  }

  /** `tick(time)`. */
  function Tick(t: Timer, time: u32): (r: (Timer, bool))
    // the interval is never touched and the remaining time never grows
    ensures r.0.interval == t.interval
    ensures r.0.remaining <= t.remaining
    // a timestamp from the past is ignored
    ensures time < t.lastTime ==> r == (t, false)
    // an unstarted timer only records the timestamp as its baseline
    ensures t.lastTime == 0 ==> r == (t.(lastTime := time), false)
    // a started timer subtracts the elapsed time, saturating at zero
    ensures 0 < t.lastTime <= time ==>
              r.0.lastTime == time &&
              r.0.remaining == SaturatingSub(t.remaining, time - t.lastTime)
    // it fires exactly when a started timer is used up by a current timestamp
    ensures r.1 <==> 0 < t.lastTime <= time && r.0.remaining == 0
  {
    if time < t.lastTime then
      (t, false)
    else if t.lastTime == 0 then
      (t.(lastTime := time), false)
    else
      var remaining := SaturatingSub(t.remaining, time - t.lastTime);
      (Timer(t.interval, remaining, time), remaining == 0)
  }

  /** `is_done()`. */
  predicate IsDone(t: Timer)
  {
    t.remaining == 0
  }

  /** Whenever a tick is not ignored and not a baseline tick, the flag it returns is
      exactly `is_done()` of the timer it returns. */
  lemma FlagIsDone(t: Timer, time: u32)
    requires 0 < t.lastTime <= time
    ensures Tick(t, time).1 == IsDone(Tick(t, time).0)
  {
  }

  /** A used-up, started timer keeps firing on every later timestamp and never re-arms. */
  lemma DoneStaysDone(t: Timer, time: u32)
    requires IsDone(t) && 0 < t.lastTime <= time
    ensures Tick(t, time).1
    ensures IsDone(Tick(t, time).0)
  {
  }

  /** A fresh `Timer(n)` first ticked at `t0 > 0` fires on any tick at least `n` later. */
  lemma FreshTimerFires(n: u32, t0: u32, t1: u32)
    requires 0 < t0 && t0 + n <= t1
    ensures var (started, fired0) := Tick(New(n), t0);
            !fired0 && Tick(started, t1).1
  {
  }

  /** A tick at time 0 leaves a fresh timer unstarted. */
  lemma TickAtZeroKeepsUnstarted(n: u32)
    ensures Tick(New(n), 0) == (New(n), false)
  {
  }

  /** Ticks a timer with each timestamp of `times` in turn. */
  function TickAll(t: Timer, times: seq<u32>): Timer
    decreases |times|
  {
    if times == [] then t else TickAll(Tick(t, times[0]).0, times[1..])
  }

  /** Timestamps that never go back and never precede `start`. */
  ghost predicate Monotone(start: u32, times: seq<u32>)
  {
    (forall i :: 0 <= i < |times| ==> start <= times[i]) &&
    (forall i, j :: 0 <= i < j < |times| ==> times[i] <= times[j])
  }

  /** Timestamp-delta semantics: for a started timer and non-decreasing timestamps,
      the remaining time after any number of ticks is the initial remaining time minus
      the total elapsed time, saturated at zero, and the baseline is the last timestamp. */
  lemma {:induction false} TicksTelescope(t: Timer, times: seq<u32>)
    requires t.lastTime != 0 && |times| > 0 && Monotone(t.lastTime, times)
    ensures TickAll(t, times) ==
            Timer(t.interval, SaturatingSub(t.remaining, times[|times| - 1] - t.lastTime), times[|times| - 1])
    decreases |times|
  {
    var next := Tick(t, times[0]).0;
    if |times| > 1 {
      assert Monotone(next.lastTime, times[1..]);
      TicksTelescope(next, times[1..]);
      assert times[1..][|times[1..]| - 1] == times[|times| - 1];
    }
  }

  /** Consequently a started timer fires on a tick exactly when the total time elapsed
      since its baseline has reached the time that was remaining. */
  lemma FiresIffElapsed(t: Timer, times: seq<u32>, time: u32)
    requires t.lastTime != 0 && Monotone(t.lastTime, times + [time])
    ensures Tick(TickAll(t, times), time).1 <==> time - t.lastTime >= t.remaining
  {
    if times != [] {
      assert Monotone(t.lastTime, times) by {
        assert forall i :: 0 <= i < |times| ==> times[i] == (times + [time])[i];
      }
      TicksTelescope(t, times);
      assert (times + [time])[|times| - 1] <= (times + [time])[|times|];
    }
    assert (times + [time])[|times|] == time;
  }
}
