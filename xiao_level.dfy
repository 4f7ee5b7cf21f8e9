/** The xiao `Level` (src/xiao-lights/src/level.hpp): built from one layout line, it
    runs the player and then folds the player's message through the obstacles in
    layout order, and switches for good to a completion animation once the message
    that comes out is `GoalReached` or `ObstacleCollision`.

    The level drives an animation through `Animation::MiddleOut`, `tick` returning a
    pair, and `light_begin` / `light_end`, an interface that the animation in this
    repository does not offer; the level is therefore modelled over an animation
    given by `AnimationOps`. */
module XiaoLevel {
  import opened Shared
  import opened XiaoTypes
  import XiaoPlayer
  import XiaoObstacle

  datatype StateKind = InProgress | Failed | Complete

  /** The completion animation the level relies on: `MiddleOut { middle, boundary,
      colour }`, a `tick` returning the animation and a done flag, its lights, and
      `is_done`. */
  datatype AnimationOps<!A> = AnimationOps(
    middleOut: (u32, u32, Colour) -> A,
    tick: (A, u32) -> (A, bool),
    lights: A -> seq<Light>,
    isDone: A -> bool)

  const WIN_COLOUR := Colour(0, 255, 0)
  const LOSE_COLOUR := Colour(255, 0, 0)

  /** `lights` is `_data`; `animation` is `_completion_timer`, absent until the level ends. */
  datatype Level<A> = Level(
    lights: seq<Light>,
    player: XiaoPlayer.Player,
    obstacles: seq<XiaoObstacle.Obstacle>,
    animation: Option<A>,
    state: StateKind,
    boundary: u32)

  /** The obstacles read from `text` starting at `index`: one per character accepted
      by `try_from`, placed at that character's index, stopping at `bound`, at the
      end of the text or at a line break. */
  function Layout(text: seq<char>, index: u32, bound: u32): seq<XiaoObstacle.Obstacle>
    decreases bound - index
  {
    if index >= bound || At(text, index) == '\0' || At(text, index) == '\n' then []
    else
      var rest := Layout(text, index + 1, bound);
      match XiaoObstacle.TryFrom(At(text, index), index)
      case Some(o) => [o] + rest
      case None => rest
  }

  /** The level `Level(layout, bound)` builds; a `nullptr` layout is `None`. The
      length half of the layout pair is never read. */
  function Initial<A>(layout: Option<seq<char>>, bound: u32): Level<A>
  {
    var obstacles := if layout.None? then [] else Layout(layout.value, 0, bound);
    Level([], XiaoPlayer.New(), obstacles, None, InProgress, bound)
  }

  /** `Level(layout, bound)`. */
  method New<A>(layout: Option<seq<char>>, bound: u32) returns (l: Level<A>)
    ensures l == Initial(layout, bound)
  {
    var obstacles: seq<XiaoObstacle.Obstacle> := [];
    var index: u32 := 0;
    while index < bound
      invariant layout.Some? ==> obstacles + Layout(layout.value, index, bound) == Layout(layout.value, 0, bound)
      invariant layout.None? ==> obstacles == []
      decreases bound - index
    {
      if layout.None? || At(layout.value, index) == '\0' || At(layout.value, index) == '\n' {
        break;
      }
      var attempt := XiaoObstacle.TryFrom(At(layout.value, index), index);
      if attempt.Some? {
        assert Layout(layout.value, index, bound) == [attempt.value] + Layout(layout.value, index + 1, bound);
        obstacles := obstacles + [attempt.value];
      }
      index := index + 1;
    }
    l := Level([], XiaoPlayer.New(), obstacles, None, InProgress, bound);
  }

  /** `Level()`: an empty layout and boundary 0. */
  function Default<A>(): (l: Level<A>)
    ensures l.obstacles == [] && l.boundary == 0 && l.state == InProgress && l.animation == None
  {
    Initial(Some(""), 0)
  }

  /** `state()`: the stored state only once the animation exists and is done. */
  function State<A>(l: Level<A>, ops: AnimationOps<A>): StateKind
  {
    if l.animation.None? || !ops.isDone(l.animation.value) then InProgress else l.state
  }

  /** The outcome of threading a message through a list of obstacles. */
  datatype FoldResult = FoldResult(
    obstacles: seq<XiaoObstacle.Obstacle>,
    message: FrameMessage,
    lights: seq<Light>)

  /** Frames each obstacle in order, each one receiving the message the one before it
      returned, and concatenates their lights. */
  function Fold(obstacles: seq<XiaoObstacle.Obstacle>, now: u32, message: FrameMessage): (r: FoldResult)
    ensures |r.obstacles| == |obstacles|
    decreases |obstacles|
  {
    if obstacles == [] then FoldResult([], message, [])
    else
      var prefix := Fold(obstacles[..|obstacles| - 1], now, message);
      var (o, m) := XiaoObstacle.Frame(obstacles[|obstacles| - 1], now, prefix.message);
      FoldResult(prefix.obstacles + [o], m, prefix.lights + o.lights)
  }

  /** The level `frame(current_time, input)` returns. */
  function Framed<A>(l: Level<A>, ops: AnimationOps<A>, now: u32, input: Option<ControllerInput>): (r: Level<A>)
    // a finished level never touches its player, obstacles or state again; it only
    // ticks its animation and shows the ticked animation's lights, or shows nothing if
    // it has none
    ensures l.state != InProgress ==>
              r.player == l.player && r.obstacles == l.obstacles && r.state == l.state &&
              r.boundary == l.boundary &&
              (l.animation.None? ==> r.lights == [] && r.animation == None) &&
              (l.animation.Some? ==>
                 r.animation == Some(ops.tick(l.animation.value, now).0) &&
                 r.lights == ops.lights(r.animation.value))
    // a running level frames the player first, then every obstacle once in order
    ensures l.state == InProgress ==>
              var (player, message) := XiaoPlayer.Frame(l.player, now, input);
              var f := Fold(l.obstacles, now, message);
              r.player == player && r.obstacles == f.obstacles && r.boundary == l.boundary &&
              // the message that comes out of the last obstacle decides the outcome
              (f.message.PlayerMovement? ==>
                 r.state == InProgress && r.animation == l.animation &&
                 r.lights == f.lights + player.lights) &&
              (f.message.GoalReached? ==>
                 r.state == Complete && r.lights == [] &&
                 r.animation == Some(ops.middleOut(l.boundary / 2, l.boundary, WIN_COLOUR))) &&
              (f.message.ObstacleCollision? ==>
                 r.state == Failed && r.lights == [] &&
                 r.animation == Some(ops.middleOut(l.boundary / 2, l.boundary, LOSE_COLOUR)))
  {
    if l.state != InProgress then
      if l.animation.None? then l.(lights := [])
      else
        var (a, _) := ops.tick(l.animation.value, now);
        l.(lights := ops.lights(a), animation := Some(a))
    else
      var (player, message) := XiaoPlayer.Frame(l.player, now, input);
      var f := Fold(l.obstacles, now, message);
      match f.message
      case GoalReached =>
        Level([], player, f.obstacles, Some(ops.middleOut(l.boundary / 2, l.boundary, WIN_COLOUR)), Complete, l.boundary)
      case ObstacleCollision(_) =>
        Level([], player, f.obstacles, Some(ops.middleOut(l.boundary / 2, l.boundary, LOSE_COLOUR)), Failed, l.boundary)
      case PlayerMovement(_, _) =>
        Level(f.lights + player.lights, player, f.obstacles, l.animation, InProgress, l.boundary)
  }

  /** `frame(current_time, input)`. */
  method Frame<A(==)>(l: Level<A>, ops: AnimationOps<A>, now: u32, input: Option<ControllerInput>) returns (r: Level<A>)
    ensures r == Framed(l, ops, now, input)
  {
    if l.state == Complete || l.state == Failed {
      if l.animation.None? {
        return l.(lights := []);
      }
      var (a, _) := ops.tick(l.animation.value, now);
      return l.(lights := ops.lights(a), animation := Some(a));
    }
    var (player, message0) := XiaoPlayer.Frame(l.player, now, input);
    var obstacles := l.obstacles;
    var message := message0;
    var lights: seq<Light> := [];
    var i := 0;
    while i < |obstacles|
      invariant 0 <= i <= |l.obstacles| == |obstacles|
      invariant obstacles[..i] == Fold(l.obstacles[..i], now, message0).obstacles
      invariant forall j :: i <= j < |obstacles| ==> obstacles[j] == l.obstacles[j]
      invariant message == Fold(l.obstacles[..i], now, message0).message
      invariant lights == Fold(l.obstacles[..i], now, message0).lights
    {
      assert l.obstacles[..i + 1][..i] == l.obstacles[..i];
      assert obstacles[i] == l.obstacles[i];
      var (o, m) := XiaoObstacle.Frame(obstacles[i], now, message);
      message := m;
      lights := lights + o.lights;
      ghost var before := obstacles;
      obstacles := obstacles[i := o];
      assert obstacles[..i + 1] == before[..i] + [o];
      i := i + 1;
    }
    assert l.obstacles[..i] == l.obstacles;
    assert obstacles[..i] == obstacles;
    lights := lights + player.lights;
    match message
    case GoalReached =>
      r := Level([], player, obstacles, Some(ops.middleOut(l.boundary / 2, l.boundary, WIN_COLOUR)), Complete, l.boundary);
    case ObstacleCollision(_) =>
      r := Level([], player, obstacles, Some(ops.middleOut(l.boundary / 2, l.boundary, LOSE_COLOUR)), Failed, l.boundary);
    case PlayerMovement(_, _) =>
      r := Level(lights, player, obstacles, l.animation, InProgress, l.boundary);
  }

  /** Obstacle `k` is framed exactly once, with the message the obstacles before it
      produced, and keeps its place. */
  lemma {:induction false} FoldFramesEachOnce(obstacles: seq<XiaoObstacle.Obstacle>, now: u32, message: FrameMessage, k: nat)
    requires k < |obstacles|
    ensures Fold(obstacles, now, message).obstacles[k] ==
            XiaoObstacle.Frame(obstacles[k], now, Fold(obstacles[..k], now, message).message).0
    decreases |obstacles|
  {
    var n := |obstacles| - 1;
    if k < n {
      FoldFramesEachOnce(obstacles[..n], now, message, k);
      assert obstacles[..n][..k] == obstacles[..k];
    } else {
      assert obstacles[..k] == obstacles[..n];
    }
  }

  /** A message that is not a player movement passes through every obstacle. */
  lemma {:induction false} FoldPassesThrough(obstacles: seq<XiaoObstacle.Obstacle>, now: u32, message: FrameMessage)
    requires !message.PlayerMovement?
    ensures Fold(obstacles, now, message).message == message
    decreases |obstacles|
  {
    if obstacles != [] {
      FoldPassesThrough(obstacles[..|obstacles| - 1], now, message);
    }
  }

  /** The first obstacle (in layout order) that replaces the player's movement decides
      the level's message: every later obstacle passes its replacement through. */
  lemma {:induction false} FirstTransformerWins(obstacles: seq<XiaoObstacle.Obstacle>, now: u32, message: FrameMessage, k: nat)
    requires k < |obstacles|
    requires Fold(obstacles[..k], now, message).message == message
    requires XiaoObstacle.Frame(obstacles[k], now, message).1 != message
    ensures Fold(obstacles, now, message).message == XiaoObstacle.Frame(obstacles[k], now, message).1
    decreases |obstacles|
  {
    var n := |obstacles| - 1;
    if k < n {
      assert obstacles[..n][..k] == obstacles[..k];
      FirstTransformerWins(obstacles[..n], now, message, k);
      var m := Fold(obstacles[..n], now, message).message;
      assert !m.PlayerMovement?;
    } else {
      assert obstacles[..n] == obstacles[..k];
    }
  }

  /** Every light shown while the level runs is an obstacle's or the player's: at most
      one per obstacle, plus the player's, which comes last. */
  lemma {:induction false} FoldLightsBounded(obstacles: seq<XiaoObstacle.Obstacle>, now: u32, message: FrameMessage)
    ensures |Fold(obstacles, now, message).lights| <= |obstacles|
    decreases |obstacles|
  {
    if obstacles != [] {
      FoldLightsBounded(obstacles[..|obstacles| - 1], now, message);
    }
  }

  /** A running frame that ends in a player movement shows the obstacles' lights and
      then the player's single light, at the player's new position. */
  lemma RunningFrameLights<A>(l: Level<A>, ops: AnimationOps<A>, now: u32, input: Option<ControllerInput>)
    requires l.state == InProgress
    ensures var r := Framed(l, ops, now, input);
            r.state == InProgress ==>
              1 <= |r.lights| <= |l.obstacles| + 1 &&
              r.lights[|r.lights| - 1].position == r.player.position
  {
    var (player, message) := XiaoPlayer.Frame(l.player, now, input);
    FoldLightsBounded(l.obstacles, now, message);
  }

  /** Only characters before the first line break count: anything after it is ignored. */
  lemma {:induction false} LayoutStopsAtLineBreak(line: seq<char>, rest: seq<char>, index: u32, bound: u32)
    requires forall i :: 0 <= i < |line| ==> line[i] != '\n' && line[i] != '\0'
    requires index <= |line|
    ensures Layout(line + "\n" + rest, index, bound) == Layout(line, index, bound)
    decreases bound - index
  {
    if index < bound && index < |line| {
      assert At(line + "\n" + rest, index) == At(line, index);
      LayoutStopsAtLineBreak(line, rest, index + 1, bound);
    } else if index < bound {
      assert At(line + "\n" + rest, index) == '\n';
    }
  }

  /** Every pawn and snake a layout places stands inside the level's boundary. */
  lemma {:induction false} LayoutWithinBound(text: seq<char>, index: u32, bound: u32)
    ensures forall o :: o in Layout(text, index, bound) && (o.kind.Pawn? || o.kind.Snake?) ==>
              index <= o.kind.position < bound && o.kind.origin == o.kind.position
    decreases bound - index
  {
    if !(index >= bound || At(text, index) == '\0' || At(text, index) == '\n') {
      LayoutWithinBound(text, index + 1, bound);
    }
  }

  /** End to end: on a level whose layout is a goal on square 0, the player (who starts
      on square 0 and cannot move on the first frame) reaches it on the first frame,
      and the level completes with a green animation. */
  lemma GoalAtStartCompletes<A>(ops: AnimationOps<A>, bound: u32, now: u32, input: Option<ControllerInput>)
    requires bound > 0
    ensures var r := Framed(Initial(Some("g"), bound), ops, now, input);
            r.state == Complete && r.lights == [] &&
            r.animation == Some(ops.middleOut(bound / 2, bound, WIN_COLOUR))
  {
    var l: Level<A> := Initial(Some("g"), bound);
    assert Layout("g", 1, bound) == [];
    assert l.obstacles == [XiaoObstacle.Obstacle([], XiaoObstacle.Goal(0))];
    var (player, message) := XiaoPlayer.Frame(l.player, now, input);
    assert player.position == 0;
    assert Fold(l.obstacles, now, message).message == GoalReached by {
      assert l.obstacles[..0] == [];
    }
  }

  /** A new level reports `IN_PROGRESS`, and so does any level until its animation is done. */
  lemma StateInProgressUntilAnimationDone<A>(l: Level<A>, ops: AnimationOps<A>)
    requires l.animation.None? || !ops.isDone(l.animation.value)
    ensures State(l, ops) == InProgress
  {
  }
}
