/** The xiao `Player` (src/xiao-lights/src/player.hpp): a state machine over
    IDLE, ATTACKING, RECOVERING (and DEAD) with a track position, a facing direction,
    a movement timer and an idle timer. `frame` consumes the player and an optional
    controller sample and returns the new player and its `PlayerMovement` message. */
module XiaoPlayer {
  import opened Shared
  import opened XiaoTypes
  import XiaoTimer

  const PLAYER_MOVEMENT_SPEED: u32 := 10
  const PLAYER_DEBUFF_DURATION: u32 := 2000
  const PLAYER_ATTACK_DURATION: u32 := 1000
  const X_TOLERANCE_MIN: u32 := 1000
  const X_TOLERANCE_MAX: u32 := 3000

  datatype Kind = Idle | Attacking | Dead | Recovering

  /** `lights` is the player's `_data` light vector. */
  datatype Player = Player(
    lights: seq<Light>,
    position: u32,
    direction: Direction,
    kind: Kind,
    movementTimer: XiaoTimer.Timer,
    idleTimer: XiaoTimer.Timer)

  /** `Player()`: at position 0, facing nowhere, idle, with an unstarted `Timer(10)`
      for movement and `Timer(PLAYER_DEBUFF_DURATION)` for idling. */
  function New(): Player
  {
    Player([], 0, Direction.Idle, Kind.Idle, XiaoTimer.New(10), XiaoTimer.New(PLAYER_DEBUFF_DURATION))
  }

  /** The facing chosen by an x-axis sample. */
  function Facing(x: u32): Direction
  {
    if x > X_TOLERANCE_MAX then Right else if x < X_TOLERANCE_MIN then Left else Direction.Idle
  }

  /** One movement step along `direction`; to the right it adds one (as a `uint32_t`),
      to the left it subtracts one but stops at 0. */
  function Step(position: u32, direction: Direction): u32
  {
    match direction
    case Right => Add32(position, 1)
    case Left => if position > 0 then position - 1 else position
    case Idle => position
  }

  /** The colour of the player's light for each state. */
  function KindColour(kind: Kind): Colour
  {
    match kind
    case Attacking => Colour(0, 255, 0)
    case Recovering => Colour(30, 255, 200)
    case _ => Colour(255, 255, 255)
  }

  predicate StartsAttack(input: Option<ControllerInput>)
  {
    input.Some? && input.value.attack > 0
  }

  /** `frame(current_time, input)`. */
  function Frame(p: Player, now: u32, input: Option<ControllerInput>): (r: (Player, FrameMessage))
    // the player moves one step along its facing from before this frame's input exactly
    // when its movement timer fires, and a fired timer is replaced by a fresh one;
    // otherwise the player keeps the ticked timer
    ensures var (ticked, moved) := XiaoTimer.Tick(p.movementTimer, now);
            && r.0.position == (if moved then Step(p.position, p.direction) else p.position)
            && r.0.movementTimer == (if moved then XiaoTimer.New(PLAYER_MOVEMENT_SPEED) else ticked)
    // facing follows the sample's x axis, and is kept when there is no sample
    ensures r.0.direction == (if input.Some? then Facing(input.value.x) else p.direction)
    // the light list holds exactly one light, at the new position, coloured by state
    ensures r.0.lights == [LightOf(r.0.position, KindColour(r.0.kind))]
    // the message always reports the new position and whether the player is attacking
    ensures r.1 == PlayerMovement(r.0.position, r.0.kind == Attacking)
    // this file never kills the player or revives it
    ensures r.0.kind == Dead <==> p.kind == Dead
    // the attack / recovery cycle, decided by whether the idle timer fired
    ensures var (_, acted) := XiaoTimer.Tick(p.idleTimer, now);
            && (p.kind == Attacking && !acted ==> r.0.kind == Attacking)
            && (p.kind == Attacking && acted ==>
                  r.0.kind == Recovering && r.0.idleTimer == XiaoTimer.New(PLAYER_DEBUFF_DURATION))
            && (p.kind == Recovering && !acted ==> r.0.kind == Recovering)
            && (p.kind == Kind.Idle || (p.kind == Recovering && acted) ==>
                  if StartsAttack(input)
                  then r.0.kind == Attacking && r.0.idleTimer == XiaoTimer.New(PLAYER_ATTACK_DURATION)
                  else r.0.kind == Kind.Idle)
    // the idle timer: armed with the attack duration when an attack starts, otherwise
    // re-armed with the debuff duration whenever it fires, and ticked when it does not
    ensures var (ticked, acted) := XiaoTimer.Tick(p.idleTimer, now);
            r.0.idleTimer == (if r.0.kind == Attacking && p.kind != Attacking
                              then XiaoTimer.New(PLAYER_ATTACK_DURATION)
                              else if acted then XiaoTimer.New(PLAYER_DEBUFF_DURATION)
                              else ticked)
  {
    // movement timer; a fired timer is replaced by a fresh one
    var (movement, moved) := XiaoTimer.Tick(p.movementTimer, now);
    var movementTimer := if moved then XiaoTimer.New(PLAYER_MOVEMENT_SPEED) else movement;
    // idle timer; a fired timer is re-armed with the debuff duration
    var (idle, acted) := XiaoTimer.Tick(p.idleTimer, now);
    var idleTimer1 := if acted then XiaoTimer.New(PLAYER_DEBUFF_DURATION) else idle;
    var kind1 := if p.kind == Recovering && acted then Kind.Idle else p.kind;
    var (kind2, idleTimer2) :=
      if kind1 == Attacking && acted then (Recovering, XiaoTimer.New(PLAYER_DEBUFF_DURATION))
      else (kind1, idleTimer1);
    var (kind3, idleTimer3) :=
      if StartsAttack(input) && kind2 == Kind.Idle then (Attacking, XiaoTimer.New(PLAYER_ATTACK_DURATION))
      else (kind2, idleTimer2);
    // position moves with the facing held before this frame's input
    var position := if moved then Step(p.position, p.direction) else p.position;
    var direction := if input.Some? then Facing(input.value.x) else p.direction;
    var light := LightOf(position, KindColour(kind3));
    (Player([light], position, direction, kind3, movementTimer, idleTimer3),
     PlayerMovement(position, kind3 == Attacking))
  }

  /** After a frame in which the player moved, its movement timer is fresh, so the next
      frame only re-baselines it: the player never moves on two frames in a row, and at
      a frame every `PLAYER_MOVEMENT_SPEED` ms it moves on every second frame. */
  lemma NoTwoMovesInARow(p: Player, t1: u32, in1: Option<ControllerInput>, t2: u32, in2: Option<ControllerInput>)
    requires XiaoTimer.Tick(p.movementTimer, t1).1
    ensures var p1 := Frame(p, t1, in1).0;
            Frame(p1, t2, in2).0.position == p1.position
  {
    var p1 := Frame(p, t1, in1).0;
    assert p1.movementTimer.lastTime == 0;
  }

  /** An attack sample has no effect on a player that is attacking, nor on one that is
      recovering and whose idle timer does not fire: the frame is the same as with the
      attack byte cleared. */
  lemma AttackIgnoredUnlessIdle(p: Player, now: u32, x: u32, y: u32, attack: u8)
    requires p.kind == Attacking || (p.kind == Recovering && !XiaoTimer.Tick(p.idleTimer, now).1)
    ensures Frame(p, now, Some(ControllerInput(x, y, attack))) ==
            Frame(p, now, Some(ControllerInput(x, y, 0)))
  {
  }

  /** The whole attack cycle from an idle player: an attack sample at `t0` starts the
      attack; the attack timer is baselined at `t1`; it runs out at `t2`, when the player
      starts recovering; the debuff timer is baselined at `t3` and runs out at `t4`,
      when the player is idle again. No samples arrive after the first. */
  lemma {:induction false} AttackCycle(p: Player, t0: u32, t1: u32, t2: u32, t3: u32, t4: u32, x: u32, y: u32, attack: u8)
    requires p.kind == Kind.Idle && attack > 0 && !XiaoTimer.Tick(p.idleTimer, t0).1
    requires 0 < t1 && t1 + PLAYER_ATTACK_DURATION <= t2 && 0 < t3 && t3 + PLAYER_DEBUFF_DURATION <= t4
    ensures var p1 := Frame(p, t0, Some(ControllerInput(x, y, attack))).0;
            var p2 := Frame(p1, t1, None).0;
            var p3 := Frame(p2, t2, None).0;
            var p4 := Frame(p3, t3, None).0;
            var p5 := Frame(p4, t4, None).0;
            p1.kind == Attacking && p2.kind == Attacking && p3.kind == Recovering &&
            p4.kind == Recovering && p5.kind == Kind.Idle
  {
    var p1 := Frame(p, t0, Some(ControllerInput(x, y, attack))).0;
    assert p1.idleTimer == XiaoTimer.New(PLAYER_ATTACK_DURATION);
    var p2 := Frame(p1, t1, None).0;
    assert p2.idleTimer == XiaoTimer.Timer(PLAYER_ATTACK_DURATION, PLAYER_ATTACK_DURATION, t1);
    var p3 := Frame(p2, t2, None).0;
    assert p3.idleTimer == XiaoTimer.New(PLAYER_DEBUFF_DURATION);
    var p4 := Frame(p3, t3, None).0;
    assert p4.idleTimer == XiaoTimer.Timer(PLAYER_DEBUFF_DURATION, PLAYER_DEBUFF_DURATION, t3);
  }
}
