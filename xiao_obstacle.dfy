/** The xiao `Obstacle` (src/xiao-lights/src/obstacle.hpp): a variant over a patrolling
    `Pawn`, a static `Snake`, the level's `Goal` and the `Corpse` a pawn leaves behind.
    `frame` consumes the obstacle and the message so far and returns the new obstacle
    and the (possibly replaced) message. */
module XiaoObstacle {
  import opened Shared
  import opened XiaoTypes
  import XiaoTimer

  const ENEMY_MS_PER_MOVE: u32 := 100
  /** How far a pawn walks from its origin before it turns. */
  const PATROL_REACH: u32 := 10

  const PAWN_COLOUR := Colour(255, 0, 0)
  const SNAKE_COLOUR := Colour(100, 100, 0)
  const GOAL_COLOUR := Colour(200, 200, 200)

  /** `ObstacleKind = std::variant<Pawn, Snake, Goal, Corpse>`. A goal keeps its
      position as a `uint16_t`. */
  datatype Kind =
    | Pawn(direction: Direction, position: u32, origin: u32, movementTimer: XiaoTimer.Timer)
    | Snake(direction: Direction, position: u32, origin: u32, movementTimer: XiaoTimer.Timer)
    | Goal(goalPosition: u16)
    | Corpse

  /** `lights` is the obstacle's `_data` light vector. */
  datatype Obstacle = Obstacle(lights: seq<Light>, kind: Kind)

  /** `Pawn(pos)`: facing `LEFT`, standing on its origin, with an unstarted timer. */
  function NewPawn(position: u32): Obstacle
  {
    Obstacle([], Pawn(Left, position, position, XiaoTimer.New(ENEMY_MS_PER_MOVE)))
  }

  function NewSnake(position: u32): Obstacle
  {
    Obstacle([], Snake(Left, position, position, XiaoTimer.New(ENEMY_MS_PER_MOVE)))
  }

  /** `Obstacle()`: a pawn at position 0. */
  function Default(): Obstacle
  {
    NewPawn(0)
  }

  /** `try_from(token, location)`: `'x'` a pawn, `'g'` a goal, `'s'` a snake, anything
      else nothing. The goal's location is narrowed to `uint16_t`. */
  function TryFrom(token: char, location: u32): (r: Option<Obstacle>)
    ensures r.Some? <==> token == 'x' || token == 'g' || token == 's'
    ensures r.Some? ==> r.value.lights == []
    ensures token == 'x' ==> r == Some(NewPawn(location))
    ensures token == 's' ==> r == Some(NewSnake(location))
    ensures token == 'g' ==> r.Some? && r.value.kind.Goal? &&
                             r.value.kind.goalPosition == location % 0x1_0000 &&
                             (location < 0x1_0000 ==> r.value.kind.goalPosition == location)
  {
    match token
    case 'x' => Some(NewPawn(location))
    case 'g' => Some(Obstacle([], Goal(location % 0x1_0000)))
    case 's' => Some(NewSnake(location))
    case _ => None
  }

  /** One patrol step of a pawn whose movement timer fired: `LEFT` adds one and
      anything else subtracts one (both as `uint32_t`); a `LEFT` pawn past
      `origin + 10` turns `RIGHT` and a `RIGHT` pawn below `origin - 10` turns `LEFT`,
      where both bounds are also computed as `uint32_t`. */
  function Patrol(direction: Direction, position: u32, origin: u32): (Direction, u32)
  {
    var next := if direction == Left then Add32(position, 1) else Sub32(position, 1);
    var turned :=
      if direction == Left && next > Add32(origin, PATROL_REACH) then Right
      else if direction == Right && next < Sub32(origin, PATROL_REACH) then Left
      else direction;
    (turned, next)
  }

  /** Whether `input` is a player movement onto `square`. */
  predicate Hits(input: FrameMessage, square: int)
  {
    input.PlayerMovement? && input.position == square
  }

  /** `frame(time, input)`: the `FrameVisitor` applied to the obstacle's kind. */
  function Frame(o: Obstacle, time: u32, input: FrameMessage): (r: (Obstacle, FrameMessage))
    // every obstacle shows at most one light
    ensures |r.0.lights| <= 1
    // only a player movement can be replaced, and only by an obstacle it lands on
    ensures !input.PlayerMovement? ==> r.1 == input
    ensures r.1 != input ==>
              (o.kind.Goal? && Hits(input, o.kind.goalPosition) && r.1 == GoalReached) ||
              (o.kind.Pawn? && Hits(input, o.kind.position) && !input.attacking &&
               r.1 == ObstacleCollision(o.kind.position))
    // snakes and corpses are inert; a goal never changes
    ensures o.kind.Snake? ==> r == (Obstacle([LightOf(o.kind.position, SNAKE_COLOUR)], o.kind), input)
    ensures o.kind.Corpse? ==> r == (Obstacle([], Corpse), input)
    ensures o.kind.Goal? ==>
              r.0 == Obstacle([LightOf(o.kind.goalPosition, GOAL_COLOUR)], o.kind) &&
              r.1 == (if Hits(input, o.kind.goalPosition) then GoalReached else input)
    // a pawn the player lands on: an attacking player leaves a corpse, any other
    // player collides with the pawn, which stays where it was and goes dark
    ensures o.kind.Pawn? && Hits(input, o.kind.position) && input.attacking ==>
              r == (Obstacle([], Corpse), input)
    ensures o.kind.Pawn? && Hits(input, o.kind.position) && !input.attacking ==>
              r.1 == ObstacleCollision(o.kind.position) && r.0.lights == [] &&
              r.0.kind.Pawn? && r.0.kind.position == o.kind.position &&
              r.0.kind.direction == o.kind.direction && r.0.kind.origin == o.kind.origin
    // otherwise the pawn patrols one step when its timer fires and shows itself
    ensures o.kind.Pawn? && !Hits(input, o.kind.position) ==>
              var (_, moved) := XiaoTimer.Tick(o.kind.movementTimer, time);
              && r.1 == input && r.0.kind.Pawn? && r.0.kind.origin == o.kind.origin
              && (r.0.kind.direction, r.0.kind.position) ==
                 (if moved then Patrol(o.kind.direction, o.kind.position, o.kind.origin)
                  else (o.kind.direction, o.kind.position))
              && r.0.lights == [LightOf(r.0.kind.position, PAWN_COLOUR)]
    // a pawn that is still a pawn afterwards, whether it collided or patrolled, holds a
    // fresh movement timer when its timer fired and the ticked timer otherwise
    ensures o.kind.Pawn? && r.0.kind.Pawn? ==>
              var (ticked, moved) := XiaoTimer.Tick(o.kind.movementTimer, time);
              r.0.kind.movementTimer == (if moved then XiaoTimer.New(ENEMY_MS_PER_MOVE) else ticked)
  {
    match o.kind
    case Snake(_, position, _, _) =>
      (Obstacle([LightOf(position, SNAKE_COLOUR)], o.kind), input)
    case Pawn(direction, position, origin, timer) =>
      var (ticked, moved) := XiaoTimer.Tick(timer, time);
      var timer' := if moved then XiaoTimer.New(ENEMY_MS_PER_MOVE) else ticked;
      if Hits(input, position) then
        if input.attacking then (Obstacle([], Corpse), input)
        else (Obstacle([], Pawn(direction, position, origin, timer')), ObstacleCollision(position))
      else
        var (direction', position') := if moved then Patrol(direction, position, origin) else (direction, position);
        (Obstacle([LightOf(position', PAWN_COLOUR)], Pawn(direction', position', origin, timer')), input)
    case Goal(goalPosition) =>
      var light := LightOf(goalPosition, GOAL_COLOUR);
      if Hits(input, goalPosition) then (Obstacle([light], o.kind), GoalReached)
      else (Obstacle([light], o.kind), input)
    case Corpse =>
      (Obstacle([], Corpse), input)
  }

  /** The patrol range of a walker (a xiao pawn or a beetle enemy) whose origin is at
      least 11 squares from either end of the `uint32_t` range: facing `LEFT` it is
      within `[origin - 11, origin + 10]`, facing `RIGHT` within `[origin - 10, origin + 11]`. */
  predicate InPatrolRange(direction: Direction, position: u32, origin: u32)
  {
    && PATROL_REACH + 1 <= origin <= U32_MODULUS - PATROL_REACH - 2
    && (direction == Left ==> origin - PATROL_REACH - 1 <= position <= origin + PATROL_REACH)
    && (direction == Right ==> origin - PATROL_REACH <= position <= origin + PATROL_REACH + 1)
    && direction != Direction.Idle
  }

  /** One patrol step keeps a walker in its range. */
  lemma PatrolStaysInRange(direction: Direction, position: u32, origin: u32)
    requires InPatrolRange(direction, position, origin)
    ensures var (d, p) := Patrol(direction, position, origin);
            InPatrolRange(d, p, origin)
  {
    assert Add32(origin, PATROL_REACH) == origin + PATROL_REACH;
    assert Sub32(origin, PATROL_REACH) == origin - PATROL_REACH;
  }

  predicate Patrolling(k: Kind)
  {
    k.Pawn? && InPatrolRange(k.direction, k.position, k.origin)
  }

  /** A freshly placed pawn is patrolling. */
  lemma NewPawnPatrols(position: u32)
    requires PATROL_REACH + 1 <= position <= U32_MODULUS - PATROL_REACH - 2
    ensures Patrolling(NewPawn(position).kind)
  {
  }

  /** Every frame keeps a patrolling pawn patrolling (or turns it into a corpse), with
      its origin fixed: it never leaves `[origin - 11, origin + 11]`. */
  lemma PatrolPreserved(o: Obstacle, time: u32, input: FrameMessage)
    requires Patrolling(o.kind)
    ensures var k := Frame(o, time, input).0.kind;
            (k.Pawn? ==> Patrolling(k) && k.origin == o.kind.origin) &&
            (k.Pawn? || k.Corpse?)
    ensures var k := Frame(o, time, input).0.kind;
            k.Pawn? ==> o.kind.origin - PATROL_REACH - 1 <= k.position <= o.kind.origin + PATROL_REACH + 1
  {
    var k := o.kind;
    if !Hits(input, k.position) && XiaoTimer.Tick(k.movementTimer, time).1 {
      PatrolStaysInRange(k.direction, k.position, k.origin);
    }
  }

  /** Near the low end of the track the unsigned bounds wrap. With origin 10 the lower
      bound `origin - 10` is 0, so a pawn walking `RIGHT` from square 0 wraps to the top
      of the `uint32_t` range and keeps walking right. */
  lemma PawnAtOriginTenWraps()
    ensures Patrol(Right, 0, 10) == (Right, U32_MODULUS - 1)
  {
  }

  /** With an origin below 10 the lower bound `origin - 10` wraps to a huge value, so a
      pawn that turned `RIGHT` at `origin + 11` turns back `LEFT` after one step: it
      shuttles between `origin + 10` and `origin + 11`. */
  lemma PawnNearStartShuttles(origin: u32)
    requires origin < PATROL_REACH
    ensures Patrol(Left, origin + PATROL_REACH, origin) == (Right, origin + PATROL_REACH + 1)
    ensures Patrol(Right, origin + PATROL_REACH + 1, origin) == (Left, origin + PATROL_REACH)
  {
  }
}
