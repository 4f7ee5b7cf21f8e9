/** The win/lose `Animation` (src/xiao-lights/src/animation.hpp, in the
    `beetle_lights` namespace, so it runs on the beetle `Timer`). A stepper timer
    advances a step counter; on each step a counter loop writes mirrored pairs
    `origin + p` / `origin - p` into a 50-slot buffer; a total timer ends it. */
module XiaoAnimation {
  import opened Shared
  import opened BeetleTypes
  import BeetleTimer

  const STEPPER_MS: u32 := 10
  const TOTAL_MS: u32 := 3000
  const ORIGIN: u8 := 50
  const BUFFER_SIZE: nat := 50
  /** One pair is written per this many loop iterations ... */
  const WRITE_EVERY: nat := 10
  /** ... and at most this many pairs fit the buffer. */
  const MAX_WRITES: nat := 25

  const GOOD_COLOUR := Colour(0, 255, 0)
  const BAD_COLOUR := Colour(255, 0, 0)

  datatype Animation = Animation(
    stepper: BeetleTimer.Timer,
    total: BeetleTimer.Timer,
    isDone: bool,
    origin: u8,
    step: u32,
    buffer: seq<Option<Renderable>>,
    good: bool)

  /** `Animation(good)`: an empty buffer, step 0, not done. */
  function New(good: bool): (a: Animation)
    ensures |a.buffer| == BUFFER_SIZE && !a.isDone && a.step == 0 && a.origin == ORIGIN
    ensures Shown(a.buffer) == []
  {
    ShownCleared(Cleared(BUFFER_SIZE));
    Animation(BeetleTimer.New(STEPPER_MS), BeetleTimer.New(TOTAL_MS), false, ORIGIN, 0,
              Cleared(BUFFER_SIZE), good)
  }

  /** `Animation()`: the losing animation. */
  function Default(): Animation
  {
    New(false)
  }

  function ColourOf(good: bool): Colour
  {
    if good then GOOD_COLOUR else BAD_COLOUR
  }

  /** How many pairs the loop writes in `n` iterations: one at each of the iterations
      10, 20, ... below `n`, while the buffer has room. */
  function NumWrites(n: nat): (w: nat)
    ensures w <= MAX_WRITES
  {
    if n == 0 then 0
    else if (n - 1) / WRITE_EVERY < MAX_WRITES then (n - 1) / WRITE_EVERY
    else MAX_WRITES
  }

  /** What slot `k` of the buffer holds once pair `k / 2` has been written: slot `2m`
      is `origin + m` and slot `2m + 1` is `origin - m` (as `uint32_t`). */
  function Slot(origin: u8, k: nat, colour: Colour): Renderable
    requires k < 2 * MAX_WRITES
  {
    var m := k / 2;
    if k % 2 == 0 then Renderable(origin + m, colour)
    else Renderable(Sub32(origin, m), colour)
  }

  /** `buffer` with the first `writes` pairs written. */
  function Painted(buffer: seq<Option<Renderable>>, writes: nat, origin: u8, colour: Colour): (r: seq<Option<Renderable>>)
    requires writes <= MAX_WRITES
    ensures |r| == |buffer|
  {
    seq(|buffer|, k requires 0 <= k < |buffer| =>
      if k < 2 * writes then Some(Slot(origin, k, colour)) else buffer[k])
  }

  /** The animation `tick(now)` returns. */
  function Ticked(a: Animation, now: u32): (r: Animation)
    // a finished animation never changes again
    ensures a.isDone ==> r == a
    ensures r.origin == a.origin && r.good == a.good && |r.buffer| == |a.buffer|
    // it finishes exactly on the tick where its total timer fires, whatever the steps,
    // and the total timer is ticked in place, also on the tick that finishes it
    ensures !a.isDone ==>
              var (total, finished) := BeetleTimer.Tick(a.total, now);
              r.total == total && (r.isDone <==> finished)
    // a step happens exactly when the stepper fires, and restarts the stepper;
    // otherwise the stepper is the ticked one
    ensures !a.isDone ==>
              var (ticked, stepped) := BeetleTimer.Tick(a.stepper, now);
              && r.step == (if stepped then Add32(a.step, 1) else a.step)
              && r.stepper == (if stepped then BeetleTimer.New(STEPPER_MS) else ticked)
              && (!stepped ==> r.buffer == a.buffer)
    // on a step, the first `NumWrites(step)` pairs are (re)written: slot `2m` with
    // `origin + m` and slot `2m + 1` with `origin - m`; the other slots are kept
    ensures !a.isDone && BeetleTimer.Tick(a.stepper, now).1 ==>
              forall k :: 0 <= k < |a.buffer| ==>
                r.buffer[k] == (if k < 2 * NumWrites(r.step) then Some(Slot(a.origin, k, ColourOf(a.good)))
                                else a.buffer[k])
    // the buffer is never cleared, and nothing past the first 50 slots is written
    ensures forall k :: 0 <= k < |a.buffer| && a.buffer[k].Some? ==> r.buffer[k].Some?
    ensures forall k :: 2 * MAX_WRITES <= k < |a.buffer| ==> r.buffer[k] == a.buffer[k]
  {
    if a.isDone then a
    else
      var (stepper, stepped) := BeetleTimer.Tick(a.stepper, now);
      var step := if stepped then Add32(a.step, 1) else a.step;
      var buffer := if stepped then Painted(a.buffer, NumWrites(step), a.origin, ColourOf(a.good)) else a.buffer;
      var (total, finished) := BeetleTimer.Tick(a.total, now);
      Animation(if stepped then BeetleTimer.New(STEPPER_MS) else stepper, total, finished,
                a.origin, step, buffer, a.good)
  }

  /** `tick(now)`. The C++ ticks `_total` in place, so the total timer is updated even
      on the tick that finishes the animation. */
  method Tick(a: Animation, now: u32) returns (r: Animation)
    requires |a.buffer| == BUFFER_SIZE
    ensures r == Ticked(a, now)
  {
    if a.isDone {
      return a;
    }
    var (stepper, stepped) := BeetleTimer.Tick(a.stepper, now);
    var step := a.step;
    var buffer := a.buffer;
    if stepped {
      step := Add32(step, 1);
      stepper := BeetleTimer.New(STEPPER_MS);
      var colour := ColourOf(a.good);
      var c: u8, j: u8, p: u8 := 0, 0, 0;
      var i: u32 := 0;
      while i < step
        invariant i <= step
        invariant p as nat == NumWrites(i as nat) && j == 2 * p
        invariant p as nat < MAX_WRITES ==> c as int == i as int - WRITE_EVERY * p as int
        invariant buffer == Painted(a.buffer, p as nat, a.origin, colour)
      {
        if c == 10 && j < 50 {
          c := 0;
          buffer := buffer[j := Some(Renderable(a.origin + p, colour))];
          buffer := buffer[j + 1 := Some(Renderable(Sub32(a.origin, p), colour))];
          assert buffer == Painted(a.buffer, p as nat + 1, a.origin, colour);
          p := p + 1;
          j := j + 2;
        }
        c := (c + 1) % 256;
        i := i + 1;
      }
    }
    var (total, finished) := BeetleTimer.Tick(a.total, now);
    r := Animation(stepper, total, finished, a.origin, step, buffer, a.good);
  }

  /** `is_done()`. */
  predicate IsDone(a: Animation)
  {
    a.isDone
  }

  /** Every filled slot holds the light its index dictates, in the animation's colour. */
  ghost predicate WellPainted(a: Animation)
  {
    && |a.buffer| == BUFFER_SIZE
    && forall k :: 0 <= k < BUFFER_SIZE && a.buffer[k].Some? ==>
         a.buffer[k].value == Slot(a.origin, k, ColourOf(a.good))
  }

  /** The buffer's shape is kept by every tick. */
  lemma TickKeepsWellPainted(a: Animation, now: u32)
    requires WellPainted(a)
    ensures WellPainted(Ticked(a, now))
  {
  }

  /** Consequently every light the animation ever shows is `origin + m` or
      `origin - m` for some `m < 25`, in its colour: for the animation's origin 50,
      positions 26 to 74. */
  lemma {:induction false} LightsAroundOrigin(a: Animation, k: nat)
    requires WellPainted(a) && a.origin == ORIGIN
    requires k < BUFFER_SIZE && a.buffer[k].Some?
    ensures 26 <= a.buffer[k].value.position <= 74
    ensures a.buffer[k].value.colour == ColourOf(a.good)
  {
    assert a.buffer[k].value == Slot(a.origin, k, ColourOf(a.good));
  }

  /** Every slot of the pairs written so far is lit. */
  ghost predicate LitUpTo(a: Animation, n: nat)
  {
    forall k :: 0 <= k < 2 * NumWrites(n) && k < |a.buffer| ==> a.buffer[k].Some?
  }

  /** The pairs written so far stay lit, and a step that does not wrap the step counter
      lights no fewer pairs: the lit part of the buffer grows from the origin outwards
      as the steps go by. */
  lemma TickKeepsLit(a: Animation, now: u32)
    requires LitUpTo(a, a.step as nat)
    ensures var r := Ticked(a, now);
            && LitUpTo(r, r.step as nat)
            && (r.step != 0 ==> NumWrites(a.step as nat) <= NumWrites(r.step as nat))
  {
    var r := Ticked(a, now);
    if !a.isDone && BeetleTimer.Tick(a.stepper, now).1 {
      forall k | 0 <= k < 2 * NumWrites(r.step as nat) && k < |r.buffer|
        ensures r.buffer[k].Some?
      {
        assert r.buffer[k] == Some(Slot(a.origin, k, ColourOf(a.good)));
      }
    }
  }

  lemma NewIsWellPainted(good: bool)
    ensures WellPainted(New(good))
  {
  }

  /** Pair `m` is first written on the step that runs `10 (m + 1) + 1` loop iterations. */
  lemma WriteSchedule(m: nat)
    requires m < MAX_WRITES
    ensures NumWrites(WRITE_EVERY * (m + 1)) == m
    ensures NumWrites(WRITE_EVERY * (m + 1) + 1) == m + 1
  {
  }

  /** An animation started at `t0 > 0` is not done after its first tick and is done
      after a tick at least 3000 ms later. */
  lemma FinishesAfterTotal(good: bool, t0: u32, t1: u32)
    requires 0 < t0 && t0 + TOTAL_MS <= t1
    ensures !Ticked(New(good), t0).isDone
    ensures Ticked(Ticked(New(good), t0), t1).isDone
  {
    var a1 := Ticked(New(good), t0);
    assert a1.total == BeetleTimer.Timer(TOTAL_MS, TOTAL_MS, t0);
  }
}
