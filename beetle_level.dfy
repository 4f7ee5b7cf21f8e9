/** The beetle `Level` (src/beetle-lights/src/level.hpp): ten obstacle slots, a
    100-slot light buffer refilled on every update, the player, and a completion
    animation that takes over once `_result` is set (1 lost, 2 won).

    The level builds obstacles with `Obstacle(char, position)`, updates them with
    `update(time, message)` returning the obstacle and a message, and reads their
    lights through `first_light` / `last_light`: an interface the beetle obstacle in
    this repository does not offer. The level is therefore modelled over obstacles
    given by `ObstacleOps`. */
module BeetleLevel {
  import opened Shared
  import opened BeetleTypes
  import BeetlePlayer
  import XiaoAnimation

  const OBSTACLE_SLOTS: nat := 10
  const LIGHT_SLOTS: nat := 100

  /** The obstacle interface the level relies on: the default-constructed obstacle of
      an empty slot, `Obstacle(token, position)`, `update(time, message)` and the
      obstacle's light buffer. */
  datatype ObstacleOps<!O> = ObstacleOps(
    empty: O,
    make: (char, u32) -> O,
    update: (O, u32, Message) -> (O, Message),
    lights: O -> seq<Option<Renderable>>)

  /** `animation` is `_completion_timer`; `result` is 0 while playing, 1 once lost
      and 2 once won. */
  datatype Level<O> = Level(
    player: BeetlePlayer.PlayerState,
    obstacles: seq<O>,
    lights: seq<Option<Renderable>>,
    animation: XiaoAnimation.Animation,
    result: u8)

  /** What every level keeps: its buffer sizes, the meaning of `result`, an untouched
      losing animation while playing, and a winning animation exactly after a win. */
  predicate Valid<O>(l: Level<O>)
  {
    && |l.obstacles| == OBSTACLE_SLOTS
    && |l.animation.buffer| == XiaoAnimation.BUFFER_SIZE
    && l.result <= 2
    && (l.result == 0 ==> l.animation == XiaoAnimation.Default())
    && (l.result != 0 ==> l.animation.good == (l.result == 2))
  }

  /** `is_complete()`: the completion animation has finished. */
  predicate IsComplete<O>(l: Level<O>)
  {
    l.animation.isDone
  }

  /** A light buffer of `n` slots holding `xs` in its first slots and nothing after. */
  function Packed(xs: seq<Renderable>, n: nat): (r: seq<Option<Renderable>>)
    ensures |r| == n
  {
    seq(n, k requires 0 <= k < n => if k < |xs| then Some(xs[k]) else None)
  }

  /** `Level()`: ten empty obstacle slots, the idle player, no lights, result 0. */
  function Default<O>(ops: ObstacleOps<O>): (l: Level<O>)
    ensures Valid(l)
    ensures l.result == 0 && l.player == BeetlePlayer.New()
    ensures forall k :: 0 <= k < |l.obstacles| ==> l.obstacles[k] == ops.empty
    ensures |l.lights| == LIGHT_SLOTS && Shown(l.lights) == []
    // the losing animation, not yet started, so the level is not complete
    ensures l.animation == XiaoAnimation.Default() && !l.animation.isDone
  {
    ShownCleared(Cleared(LIGHT_SLOTS));
    Level(BeetlePlayer.New(), seq(OBSTACLE_SLOTS, _ => ops.empty), Cleared(LIGHT_SLOTS),
          XiaoAnimation.Default(), 0)
  }

  /** The obstacles the layout constructor places, reading `text` from `index`: every
      character other than a space, until a line break or until `size` characters are
      read, at its index plus one (the position is advanced before the obstacle is
      built). The constructor does not stop at the end of the text; past it the
      buffer reads as `'\0'`, which is placed like any other token. */
  function Placements(text: seq<char>, index: u32, size: u32): seq<(char, u32)>
    decreases size - index
  {
    if At(text, index) == '\n' || index >= size then []
    else
      var rest := Placements(text, index + 1, size);
      if At(text, index) != ' ' then [(At(text, index), index + 1)] + rest else rest
  }

  /** The ten obstacle slots after placing `placed` into the first of them. */
  function Filled<O>(ops: ObstacleOps<O>, placed: seq<(char, u32)>): (r: seq<O>)
    requires |placed| <= OBSTACLE_SLOTS
    ensures |r| == OBSTACLE_SLOTS
  {
    seq(OBSTACLE_SLOTS, k requires 0 <= k < OBSTACLE_SLOTS =>
      if k < |placed| then ops.make(placed[k].0, placed[k].1) else ops.empty)
  }

  /** The level `Level(layout, size)` builds. */
  function Initial<O>(ops: ObstacleOps<O>, text: seq<char>, size: u32): (l: Level<O>)
    requires |Placements(text, 0, size)| <= OBSTACLE_SLOTS
    ensures Valid(l)
  {
    Default(ops).(obstacles := Filled(ops, Placements(text, 0, size)))
  }

  /** `Level(layout, size)`. The obstacle buffer has ten slots, so at most ten tokens
      may be placed. */
  method New<O>(ops: ObstacleOps<O>, text: seq<char>, size: u32) returns (l: Level<O>)
    requires |Placements(text, 0, size)| <= OBSTACLE_SLOTS
    ensures l == Initial(ops, text, size)
  {
    var obstacles := seq(OBSTACLE_SLOTS, _ => ops.empty);
    ghost var placed: seq<(char, u32)> := [];
    var cursor: u32 := 0;
    var position: u32 := 0;
    var obstacleIndex: nat := 0;
    while At(text, cursor) != '\n' && position < size
      invariant position == cursor <= size
      invariant placed + Placements(text, cursor, size) == Placements(text, 0, size)
      invariant obstacleIndex == |placed| <= OBSTACLE_SLOTS
      invariant obstacles == Filled(ops, placed)
      decreases size - cursor
    {
      position := position + 1;
      if At(text, cursor) != ' ' {
        assert Placements(text, cursor, size) == [(At(text, cursor), position)] + Placements(text, cursor + 1, size);
        obstacles := obstacles[obstacleIndex := ops.make(At(text, cursor), position)];
        placed := placed + [(At(text, cursor), position)];
        obstacleIndex := obstacleIndex + 1;
      }
      cursor := cursor + 1;
    }
    l := Level(BeetlePlayer.New(), obstacles, Cleared(LIGHT_SLOTS), XiaoAnimation.Default(), 0);
  }

  /** Every placed token is a non-space, non-line-break character of the layout, at
      its one-based column within the first `size` columns. */
  lemma {:induction false} PlacementsOneBased(text: seq<char>, index: u32, size: u32)
    ensures forall p :: p in Placements(text, index, size) ==>
              index < p.1 <= size && p.0 == At(text, p.1 - 1) && p.0 != ' ' && p.0 != '\n'
    decreases size - index
  {
    if !(At(text, index) == '\n' || index >= size) {
      PlacementsOneBased(text, index + 1, size);
    }
  }

  /** The outcome of threading the player's message through the obstacle slots. */
  datatype FoldResult<O> = FoldResult(obstacles: seq<O>, message: Message, shown: seq<Renderable>)

  /** Updates each obstacle in slot order, each receiving the message the one before
      it returned, and collects their lights in order. */
  function Fold<O>(ops: ObstacleOps<O>, obstacles: seq<O>, time: u32, message: Message): (r: FoldResult<O>)
    ensures |r.obstacles| == |obstacles|
    decreases |obstacles|
  {
    if obstacles == [] then FoldResult([], message, [])
    else
      var prefix := Fold(ops, obstacles[..|obstacles| - 1], time, message);
      var (o, m) := ops.update(obstacles[|obstacles| - 1], time, prefix.message);
      FoldResult(prefix.obstacles + [o], m, prefix.shown + Shown(ops.lights(o)))
  }

  /** The player after its own update and the obstacles' verdict, the fold, and every
      light of a playing frame in the order the level writes them. */
  datatype Running<O> = Running(player: BeetlePlayer.PlayerState, fold: FoldResult<O>, shown: seq<Renderable>)

  function Run<O>(l: Level<O>, ops: ObstacleOps<O>, input: Option<Input>, time: u32): Running<O>
  {
    var (player, message) := BeetlePlayer.Update(l.player, input, time);
    var f := Fold(ops, l.obstacles, time, message);
    var player' := BeetlePlayer.Apply(player, f.message);
    Running(player', f, f.shown + Shown(player'.lights))
  }

  /** The lights of the frame fit the 100-slot buffer (writing past it is undefined). */
  predicate Fits<O>(l: Level<O>, ops: ObstacleOps<O>, input: Option<Input>, time: u32)
  {
    l.result != 0 || |Run(l, ops, input, time).shown| <= LIGHT_SLOTS
  }

  /** The level `update(input, time)` returns. */
  function Updated<O>(l: Level<O>, ops: ObstacleOps<O>, input: Option<Input>, time: u32): (r: Level<O>)
    requires Valid(l)
    ensures Valid(r)
    // once decided, the level only plays its animation and shows its lights
    ensures l.result != 0 ==>
              var a := XiaoAnimation.Ticked(l.animation, time);
              r == l.(animation := a, lights := Packed(Shown(a.buffer), LIGHT_SLOTS))
    // while playing, the frame shows the obstacles' lights, then the player's
    ensures l.result == 0 ==>
              var run := Run(l, ops, input, time);
              && r.player == run.player && r.obstacles == run.fold.obstacles
              && r.lights == Packed(run.shown, LIGHT_SLOTS)
              // the player dying ends the level lost; a goal message ends it won
              && (BeetlePlayer.IsDead(run.player) ==> r.result == 1 && r.animation == XiaoAnimation.New(false))
              && (!BeetlePlayer.IsDead(run.player) && run.fold.message.GoalReached? ==>
                    r.result == 2 && r.animation == XiaoAnimation.New(true))
              && (!BeetlePlayer.IsDead(run.player) && !run.fold.message.GoalReached? ==> r.result == 0)
  {
    if l.result != 0 then
      var a := XiaoAnimation.Ticked(l.animation, time);
      l.(animation := a, lights := Packed(Shown(a.buffer), LIGHT_SLOTS))
    else
      var run := Run(l, ops, input, time);
      var lights := Packed(run.shown, LIGHT_SLOTS);
      var dead := BeetlePlayer.IsDead(run.player);
      if dead || run.fold.message.GoalReached? then
        Level(run.player, run.fold.obstacles, lights, XiaoAnimation.New(!dead), if dead then 1 else 2)
      else
        Level(run.player, run.fold.obstacles, lights, l.animation, 0)
  }

  /** Writes the renderables of `buffer`, skipping empty slots, into `lights` from
      slot `index` on: the copy loops of `update`. */
  method AppendShown(lights: seq<Option<Renderable>>, index: u16, ghost shown: seq<Renderable>, buffer: seq<Option<Renderable>>)
    returns (lights': seq<Option<Renderable>>, index': u16)
    requires lights == Packed(shown, LIGHT_SLOTS) && index as nat == |shown|
    requires |shown| + |Shown(buffer)| <= LIGHT_SLOTS
    ensures lights' == Packed(shown + Shown(buffer), LIGHT_SLOTS)
    ensures index' as nat == |shown + Shown(buffer)|
  {
    lights', index' := lights, index;
    var j := 0;
    while j < |buffer|
      invariant 0 <= j <= |buffer|
      invariant lights' == Packed(shown + Shown(buffer[..j]), LIGHT_SLOTS)
      invariant index' as nat == |shown + Shown(buffer[..j])|
    {
      assert buffer[..j + 1][..j] == buffer[..j];
      ShownPrefixBounded(buffer, j + 1);
      if buffer[j].Some? {
        lights' := lights'[index' := Some(buffer[j].value)];
        index' := index' + 1;
      }
      j := j + 1;
    }
    assert buffer[..j] == buffer;
  }

  /** A prefix of a buffer shows no more than the whole buffer. */
  lemma {:induction false} ShownPrefixBounded(buffer: seq<Option<Renderable>>, j: nat)
    requires j <= |buffer|
    ensures |Shown(buffer[..j])| <= |Shown(buffer)|
    decreases |buffer| - j
  {
    if j < |buffer| {
      ShownPrefixBounded(buffer, j + 1);
      assert buffer[..j + 1][..j] == buffer[..j];
    } else {
      assert buffer[..j] == buffer;
    }
  }

  /** `update(input, time)`. */
  method Update<O>(l: Level<O>, ops: ObstacleOps<O>, input: Option<Input>, time: u32) returns (r: Level<O>)
    requires Valid(l) && Fits(l, ops, input, time)
    ensures r == Updated(l, ops, input, time)
  {
    var lights := Cleared(LIGHT_SLOTS);
    assert lights == Packed([], LIGHT_SLOTS);
    if l.result != 0 {
      var a := XiaoAnimation.Tick(l.animation, time);
      var i: u16;
      lights, i := AppendShown(lights, 0, [], a.buffer);
      return l.(animation := a, lights := lights);
    }
    var (player, message0) := BeetlePlayer.Update(l.player, input, time);
    var obstacles := l.obstacles;
    var message := message0;
    var index: u16 := 0;
    ghost var shown: seq<Renderable> := [];
    ghost var run := Run(l, ops, input, time);
    var i := 0;
    while i < |obstacles|
      invariant 0 <= i <= |l.obstacles| == |obstacles|
      invariant obstacles[..i] == Fold(ops, l.obstacles[..i], time, message0).obstacles
      invariant obstacles[i..] == l.obstacles[i..]
      invariant message == Fold(ops, l.obstacles[..i], time, message0).message
      invariant shown == Fold(ops, l.obstacles[..i], time, message0).shown
      invariant lights == Packed(shown, LIGHT_SLOTS) && index as nat == |shown|
    {
      assert l.obstacles[..i + 1][..i] == l.obstacles[..i];
      assert obstacles[i] == l.obstacles[i];
      FoldShownPrefix(ops, l.obstacles, time, message0, i + 1);
      var (o, m) := ops.update(obstacles[i], time, message);
      lights, index := AppendShown(lights, index, shown, ops.lights(o));
      shown := shown + Shown(ops.lights(o));
      message := m;
      obstacles := obstacles[i := o];
      i := i + 1;
    }
    assert l.obstacles[..i] == l.obstacles;
    assert obstacles[..i] == obstacles;
    player := BeetlePlayer.Apply(player, message);
    lights, index := AppendShown(lights, index, shown, player.lights);
    var isDead := BeetlePlayer.IsDead(player);
    if isDead || message.GoalReached? {
      r := Level(player, obstacles, lights, XiaoAnimation.New(!isDead), if isDead then 1 else 2);
    } else {
      r := Level(player, obstacles, lights, l.animation, 0);
    }
  }

  /** The lights collected by a fold grow with the obstacles folded. */
  lemma {:induction false} FoldShownPrefix<O>(ops: ObstacleOps<O>, obstacles: seq<O>, time: u32, message: Message, j: nat)
    requires j <= |obstacles|
    ensures |Fold(ops, obstacles[..j], time, message).shown| <= |Fold(ops, obstacles, time, message).shown|
    decreases |obstacles| - j
  {
    if j < |obstacles| {
      FoldShownPrefix(ops, obstacles, time, message, j + 1);
      assert obstacles[..j + 1][..j] == obstacles[..j];
    } else {
      assert obstacles[..j] == obstacles;
    }
  }

  /** The light buffer shows exactly the frame's lights, in order, when they fit. */
  lemma {:induction false} ShownPacked(xs: seq<Renderable>, n: nat)
    requires |xs| <= n
    ensures Shown(Packed(xs, n)) == xs
    decreases n
  {
    if n > 0 {
      var p := Packed(xs, n);
      if |xs| == n {
        assert p[..n - 1] == Packed(xs[..n - 1], n - 1);
        ShownPacked(xs[..n - 1], n - 1);
        assert xs[..n - 1] + [xs[n - 1]] == xs;
      } else {
        assert p[..n - 1] == Packed(xs, n - 1);
        assert p[n - 1] == None;
        ShownPacked(xs, n - 1);
      }
    }
  }

  /** A decided level keeps its result, player and obstacles on every later update. */
  lemma ResultIsFinal<O>(l: Level<O>, ops: ObstacleOps<O>, input: Option<Input>, time: u32)
    requires Valid(l) && l.result != 0
    ensures var r := Updated(l, ops, input, time);
            r.result == l.result && r.player == l.player && r.obstacles == l.obstacles
  {
  }

  /** A level can only be complete once it has been decided: the animation of a
      playing level is never started. */
  lemma CompleteOnlyWhenDecided<O>(l: Level<O>)
    requires Valid(l) && IsComplete(l)
    ensures l.result != 0
  {
  }

  /** A collision reported by any obstacle ends a playing level lost, with the red
      animation: the player is killed before the outcome is decided. */
  lemma CollisionLoses<O>(l: Level<O>, ops: ObstacleOps<O>, input: Option<Input>, time: u32)
    requires Valid(l) && l.result == 0
    requires Run(l, ops, input, time).fold.message == ObstacleCollision
    ensures var r := Updated(l, ops, input, time);
            r.result == 1 && r.animation == XiaoAnimation.New(false) && !r.animation.good
  {
  }

  /** End to end: a level decided on a frame at `t0` becomes complete on the first
      update at least 3000 ms after the next one, and not before that next one. */
  lemma CompletesAfterAnimation<O>(l: Level<O>, ops: ObstacleOps<O>, input: Option<Input>, t0: u32, t1: u32, t2: u32)
    requires Valid(l) && l.result == 0
    requires var run := Run(l, ops, input, t0);
             BeetlePlayer.IsDead(run.player) || run.fold.message.GoalReached?
    requires 0 < t1 && t1 + XiaoAnimation.TOTAL_MS <= t2
    ensures var l1 := Updated(l, ops, input, t0);
            var l2 := Updated(l1, ops, None, t1);
            var l3 := Updated(l2, ops, None, t2);
            l1.result != 0 && !IsComplete(l1) && !IsComplete(l2) && IsComplete(l3)
  {
    var l1 := Updated(l, ops, input, t0);
    XiaoAnimation.FinishesAfterTotal(l1.animation.good, t1, t2);
  }

  /** A playing frame that leaves the player alive shows every obstacle light in slot
      order and then the player's single light, at its new position. */
  lemma PlayerLightLast<O>(l: Level<O>, ops: ObstacleOps<O>, input: Option<Input>, time: u32)
    requires Valid(l) && l.result == 0 && Fits(l, ops, input, time)
    ensures var run := Run(l, ops, input, time);
            !BeetlePlayer.IsDead(run.player) ==>
              Shown(Updated(l, ops, input, time).lights) ==
                run.fold.shown + [Renderable(run.player.position, BeetlePlayer.KindColour(run.player.kind))]
  {
    var run := Run(l, ops, input, time);
    ShownPacked(run.shown, LIGHT_SLOTS);
    if !BeetlePlayer.IsDead(run.player) {
      BeetlePlayer.ShowsOneLight(l.player, input, time);
    }
  }
}
