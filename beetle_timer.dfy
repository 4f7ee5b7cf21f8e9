/** `beetle_lights::Timer` (src/beetle-lights/src/timer.hpp). Unlike `xr::Timer`, one
    guard covers the unstarted, the past-timestamp and the used-up cases, and every
    tick returns `remaining == 0`. */
module BeetleTimer {
  import opened Shared
  import XiaoTimer

  datatype Timer = Timer(interval: u32, remaining: u32, lastTime: u32)

  /** `Timer(amount)`. The C++ constructor leaves `_last_time` uninitialised; the model
      takes it to be 0 (unstarted). */
  function New(amount: u32): Timer
  {
    Timer(amount, amount, 0)
  }

  /** `tick(time)`. */
  function Tick(t: Timer, time: u32): (r: (Timer, bool))
    // every tick reports whether the returned timer is used up
    ensures r.1 <==> r.0.remaining == 0
    ensures r.0.interval == t.interval
    ensures r.0.remaining <= t.remaining
    // an unstarted timer only records its baseline
    ensures t.lastTime == 0 ==> r.0 == t.(lastTime := time)
    // a past timestamp changes nothing, but still reports a used-up timer
    ensures 0 < t.lastTime && time < t.lastTime ==> r == (t, t.remaining == 0)
    // a used-up timer never changes again once started, and keeps firing
    ensures t.remaining == 0 && t.lastTime != 0 ==> r == (t, true)
    // otherwise the elapsed time is subtracted, saturating at zero
    ensures 0 < t.lastTime <= time && t.remaining != 0 ==>
              r.0.lastTime == time &&
              r.0.remaining == XiaoTimer.SaturatingSub(t.remaining, time - t.lastTime)
  {
    if t.lastTime == 0 || time < t.lastTime || t.remaining == 0 then
      var t' := t.(lastTime := if t.lastTime == 0 then time else t.lastTime);
      (t', t'.remaining == 0)
    else
      var remaining := XiaoTimer.SaturatingSub(t.remaining, time - t.lastTime);
      (Timer(t.interval, remaining, time), remaining == 0)
  }

  function ToXiao(t: Timer): XiaoTimer.Timer
  {
    XiaoTimer.Timer(t.interval, t.remaining, t.lastTime)
  }

  /** The two generations' timers agree on every tick of a timer that still has time
      left; they differ only once a timer is used up (or is a fresh `Timer(0)`). */
  lemma AgreesWithXiaoWhileRunning(t: Timer, time: u32)
    requires t.remaining > 0
    ensures ToXiao(Tick(t, time).0) == XiaoTimer.Tick(ToXiao(t), time).0
    ensures Tick(t, time).1 == XiaoTimer.Tick(ToXiao(t), time).1
  {
  }

  /** Where they differ: a started, used-up beetle timer fires even for a timestamp from
      the past, for which the xiao timer reports `false`. */
  lemma DiffersOnceUsedUp()
    ensures Tick(Timer(10, 0, 5), 3).1
    ensures !XiaoTimer.Tick(XiaoTimer.Timer(10, 0, 5), 3).1
  {
  }

  /** Ticks a timer with each timestamp of `times` in turn. */
  function TickAll(t: Timer, times: seq<u32>): Timer
    decreases |times|
  {
    if times == [] then t else TickAll(Tick(t, times[0]).0, times[1..])
  }

  /** Over non-decreasing timestamps the remaining time of a started timer is its
      initial remaining time minus the total elapsed time, saturated at zero, and the
      interval never changes. */
  lemma {:induction false} TicksTelescope(t: Timer, times: seq<u32>)
    requires t.lastTime != 0 && |times| > 0 && XiaoTimer.Monotone(t.lastTime, times)
    ensures TickAll(t, times).interval == t.interval
    ensures TickAll(t, times).remaining ==
            XiaoTimer.SaturatingSub(t.remaining, times[|times| - 1] - t.lastTime)
    decreases |times|
  {
    var next := Tick(t, times[0]).0;
    if |times| > 1 {
      if t.remaining == 0 {
        assert next == t;
        assert XiaoTimer.Monotone(next.lastTime, times[1..]);
      } else {
        assert XiaoTimer.Monotone(next.lastTime, times[1..]);
      }
      TicksTelescope(next, times[1..]);
      assert times[1..][|times[1..]| - 1] == times[|times| - 1];
    }
  }
}
