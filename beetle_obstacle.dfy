/** The beetle `Obstacle` (src/beetle-lights/src/obstacle.hpp): an `Enemy` that
    patrols around its origin, or a `Corpse`, rendering into a 20-slot buffer. */
module BeetleObstacle {
  import opened Shared
  import opened BeetleTypes
  import BeetleTimer
  import BeetlePlayer
  import XiaoObstacle

  const ENEMY_MS_PER_MOVE: u32 := 100
  const LIGHT_SLOTS: nat := 20
  const ENEMY_COLOUR := Colour(255, 0, 0)

  datatype Kind =
    | Enemy(direction: Direction, position: u32, origin: u32, movementTimer: BeetleTimer.Timer)
    | Corpse

  /** `Interaction`, of which `update` only ever returns `NONE` (interaction.hpp is
      not part of this model). */
  datatype Interaction = NoInteraction

  datatype Obstacle = Obstacle(kind: Kind, lights: seq<Option<Renderable>>)

  /** `Obstacle()`: a corpse. */
  function Default(): Obstacle
  {
    Obstacle(Corpse, Cleared(LIGHT_SLOTS))
  }

  /** `Obstacle(pos)`: an enemy facing `LEFT` on its origin with an unstarted timer. */
  function FromPosition(position: u32): Obstacle
  {
    Obstacle(Enemy(Left, position, position, BeetleTimer.New(ENEMY_MS_PER_MOVE)), Cleared(LIGHT_SLOTS))
  }

  /** The obstacle `update(time, player_state)` returns. The enemy steps with the same
      rule as the xiao pawn (`XiaoObstacle.Patrol`). */
  function Updated(o: Obstacle, time: u32): (r: Obstacle)
    requires |o.lights| == LIGHT_SLOTS
    ensures |r.lights| == LIGHT_SLOTS
    // a corpse stays a corpse and shows nothing
    ensures o.kind.Corpse? ==> r == Obstacle(Corpse, Cleared(LIGHT_SLOTS))
    // an enemy shows exactly one light, in slot 0, where it stood before stepping
    ensures o.kind.Enemy? ==>
              r.lights == [Some(Renderable(o.kind.position, ENEMY_COLOUR))] + Cleared(LIGHT_SLOTS - 1)
    // it stays an enemy around the same origin, and steps only when its timer fires
    ensures o.kind.Enemy? ==>
              var (ticked, moved) := BeetleTimer.Tick(o.kind.movementTimer, time);
              && r.kind.Enemy? && r.kind.origin == o.kind.origin
              && (!moved ==> r.kind == o.kind.(movementTimer := ticked))
              && (moved ==>
                    (r.kind.direction, r.kind.position) ==
                      XiaoObstacle.Patrol(o.kind.direction, o.kind.position, o.kind.origin) &&
                    r.kind.movementTimer == BeetleTimer.New(ENEMY_MS_PER_MOVE))
  {
    match o.kind
    case Corpse => Obstacle(Corpse, Cleared(LIGHT_SLOTS))
    case Enemy(direction, position, origin, timer) =>
      var (ticked, moved) := BeetleTimer.Tick(timer, time);
      var lights := Cleared(LIGHT_SLOTS)[0 := Some(Renderable(position, ENEMY_COLOUR))];
      if !moved then Obstacle(Enemy(direction, position, origin, ticked), lights)
      else
        var (direction', position') := XiaoObstacle.Patrol(direction, position, origin);
        Obstacle(Enemy(direction', position', origin, BeetleTimer.New(ENEMY_MS_PER_MOVE)), lights)
  }

  /** `update(time, player_state)`: the player state is passed in but never read. */
  method Update(o: Obstacle, time: u32, player: BeetlePlayer.PlayerState) returns (r: Obstacle, interaction: Interaction)
    requires |o.lights| == LIGHT_SLOTS
    ensures r == Updated(o, time)
    ensures interaction == NoInteraction
  {
    var lights := o.lights;
    var i := 0;
    while i < |lights|
      invariant 0 <= i <= |lights| == LIGHT_SLOTS
      invariant forall k :: 0 <= k < i ==> lights[k] == None
    {
      lights := lights[i := None];
      i := i + 1;
    }
    assert lights == Cleared(LIGHT_SLOTS);
    match o.kind {
      case Corpse =>
        r := Obstacle(Corpse, lights);
      case Enemy(direction, position, origin, timer) =>
        var (ticked, moved) := BeetleTimer.Tick(timer, time);
        var timer' := if moved then BeetleTimer.New(ENEMY_MS_PER_MOVE) else ticked;
        lights := lights[0 := Some(Renderable(position, ENEMY_COLOUR))];
        if !moved {
          r := Obstacle(Enemy(direction, position, origin, timer'), lights);
        } else {
          var (direction', position') := XiaoObstacle.Patrol(direction, position, origin);
          r := Obstacle(Enemy(direction', position', origin, timer'), lights);
        }
    }
    interaction := NoInteraction;
  }

  /** An enemy placed far enough from both ends of the `uint32_t` range patrols within
      `[origin - 11, origin + 11]` for ever. */
  lemma PatrolPreserved(o: Obstacle, time: u32)
    requires |o.lights| == LIGHT_SLOTS
    requires o.kind.Enemy? && XiaoObstacle.InPatrolRange(o.kind.direction, o.kind.position, o.kind.origin)
    ensures var k := Updated(o, time).kind;
            k.Enemy? && XiaoObstacle.InPatrolRange(k.direction, k.position, k.origin)
  {
    XiaoObstacle.PatrolStaysInRange(o.kind.direction, o.kind.position, o.kind.origin);
  }

  /** An enemy always shows exactly one light. */
  lemma EnemyShowsOneLight(o: Obstacle, time: u32)
    requires |o.lights| == LIGHT_SLOTS && o.kind.Enemy?
    ensures Shown(Updated(o, time).lights) == [Renderable(o.kind.position, ENEMY_COLOUR)]
  {
    ShownFirstOnly(Updated(o, time).lights);
  }
}
