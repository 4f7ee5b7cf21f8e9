/** The beetle `PlayerState` (src/beetle-lights/src/player.hpp). Unlike the xiao player
    it has a separate attack timer, resets its idle timer on every attacking frame,
    renders into a 10-slot buffer, and can be killed by the message the level applies
    back to it. */
module BeetlePlayer {
  import opened Shared
  import opened BeetleTypes
  import BeetleTimer
  import XiaoPlayer

  const PLAYER_ATTACK_DURATION: u32 := 1000
  const PLAYER_DEBUFF_DURATION: u32 := 2000
  const PLAYER_MOVEMENT_SPEED: u32 := 10
  const LIGHT_SLOTS: nat := 10

  datatype Kind = Idle | Attacking | Dead | Recovering

  /** `lights` is the 10-slot `_light_buffer`. */
  datatype PlayerState = PlayerState(
    lights: seq<Option<Renderable>>,
    kind: Kind,
    direction: Direction,
    position: u32,
    attackTimer: BeetleTimer.Timer,
    idleTimer: BeetleTimer.Timer,
    movementTimer: BeetleTimer.Timer)

  /** `PlayerState()`: idle at position 0 facing nowhere, with an empty buffer. */
  function New(): PlayerState
  {
    PlayerState(Cleared(LIGHT_SLOTS), Kind.Idle, Direction.Idle, 0,
                BeetleTimer.New(PLAYER_ATTACK_DURATION), BeetleTimer.New(PLAYER_DEBUFF_DURATION),
                BeetleTimer.New(PLAYER_MOVEMENT_SPEED))
  }

  function KindColour(kind: Kind): Colour
  {
    match kind
    case Attacking => Colour(0, 255, 0)
    case Recovering => Colour(100, 0, 100)
    case _ => Colour(255, 255, 255)
  }

  predicate StartsAttack(input: Option<Input>)
  {
    input.Some? && input.value.attack > 0
  }

  /** The buffer of a live player: its one renderable in slot 0, the rest empty. */
  function Rendered(position: u32, kind: Kind): seq<Option<Renderable>>
  {
    [Some(Renderable(position, KindColour(kind)))] + Cleared(LIGHT_SLOTS - 1)
  }

  /** `update(input, time)`. Movement and facing follow the same rules as the xiao
      player (`XiaoPlayer.Step`, `XiaoPlayer.Facing`, with the same 1000/3000 thresholds). */
  function Update(p: PlayerState, input: Option<Input>, time: u32): (r: (PlayerState, Message))
    ensures |r.0.lights| == LIGHT_SLOTS
    // a dead player shows nothing, reports square 0, and stays dead and unchanged
    ensures p.kind == Dead ==> r == (p.(lights := Cleared(LIGHT_SLOTS)), PlayerMovement(0, false))
    // a live player stays alive, shows one light in slot 0 and reports where it is
    ensures p.kind != Dead ==>
              && r.0.kind != Dead
              && r.0.lights == Rendered(r.0.position, r.0.kind)
              && r.1 == PlayerMovement(r.0.position, r.0.kind == Attacking)
    // movement along the facing held before this frame's input, when the movement
    // timer fires, which then restarts
    ensures p.kind != Dead ==>
              var (_, moved) := BeetleTimer.Tick(p.movementTimer, time);
              && r.0.position == (if moved then XiaoPlayer.Step(p.position, p.direction) else p.position)
              && r.0.movementTimer == (if moved then BeetleTimer.New(PLAYER_MOVEMENT_SPEED)
                                       else BeetleTimer.Tick(p.movementTimer, time).0)
    ensures p.kind != Dead ==>
              r.0.direction == (if input.Some? then XiaoPlayer.Facing(input.value.x) else p.direction)
    // an attack starts only from idle (possibly idle since this frame) on an attack
    // byte, and never while attacking or recovering; its first frame already runs the
    // attacking block, so the new attack timer is baselined and the idle timer is fresh
    ensures p.kind != Dead ==>
              var (_, idled) := BeetleTimer.Tick(p.idleTimer, time);
              var idle := p.kind == Kind.Idle || (p.kind == Recovering && idled);
              && (idle && !StartsAttack(input) ==> r.0.kind == Kind.Idle)
              && (idle && StartsAttack(input) ==>
                    r.0.kind == Attacking &&
                    r.0.attackTimer == BeetleTimer.Tick(BeetleTimer.New(PLAYER_ATTACK_DURATION), time).0 &&
                    r.0.idleTimer == BeetleTimer.New(PLAYER_DEBUFF_DURATION))
              && (p.kind == Recovering && !idled ==> r.0.kind == Recovering)
    // while attacking, the idle timer is fresh on every frame; the attack ends when
    // the attack timer fires, and then that timer is replaced; until then it is ticked
    ensures p.kind == Attacking ==>
              var (_, finished) := BeetleTimer.Tick(p.attackTimer, time);
              && r.0.idleTimer == BeetleTimer.New(PLAYER_DEBUFF_DURATION)
              && r.0.kind == (if finished then Recovering else Attacking)
              && r.0.attackTimer == (if finished then BeetleTimer.New(PLAYER_ATTACK_DURATION)
                                     else BeetleTimer.Tick(p.attackTimer, time).0)
    // outside an attack the idle timer is ticked and never re-armed, and the attack
    // timer is left alone
    ensures p.kind != Dead && r.0.kind != Attacking && p.kind != Attacking ==>
              r.0.idleTimer == BeetleTimer.Tick(p.idleTimer, time).0 &&
              r.0.attackTimer == p.attackTimer
  {
    if p.kind == Dead then (p.(lights := Cleared(LIGHT_SLOTS)), PlayerMovement(0, false))
    else
      var (idleTimer, idled) := BeetleTimer.Tick(p.idleTimer, time);
      var (movement, moved) := BeetleTimer.Tick(p.movementTimer, time);
      var movementTimer := if moved then BeetleTimer.New(PLAYER_MOVEMENT_SPEED) else movement;
      var kind1 := if p.kind == Recovering && idled then Kind.Idle else p.kind;
      var (kind2, attackTimer2) :=
        if StartsAttack(input) && kind1 == Kind.Idle then (Attacking, BeetleTimer.New(PLAYER_ATTACK_DURATION))
        else (kind1, p.attackTimer);
      var position := if moved then XiaoPlayer.Step(p.position, p.direction) else p.position;
      var direction := if input.Some? then XiaoPlayer.Facing(input.value.x) else p.direction;
      var (kind3, attackTimer3, idleTimer3) :=
        if kind2 == Attacking then
          var (next, finished) := BeetleTimer.Tick(attackTimer2, time);
          (if finished then Recovering else Attacking,
           if finished then BeetleTimer.New(PLAYER_ATTACK_DURATION) else next,
           BeetleTimer.New(PLAYER_DEBUFF_DURATION))
        else (kind2, attackTimer2, idleTimer);
      (PlayerState(Rendered(position, kind3), kind3, direction, position, attackTimer3, idleTimer3, movementTimer),
       PlayerMovement(position, kind3 == Attacking))
  }

  /** `apply(message)`: a collision kills the player; anything else leaves it as it is. */
  function Apply(p: PlayerState, m: Message): (r: PlayerState)
    ensures m.ObstacleCollision? ==> r == p.(kind := Dead)
    ensures !m.ObstacleCollision? ==> r == p
  {
    if m.ObstacleCollision? then p.(kind := Dead) else p
  }

  /** `is_dead()`. */
  predicate IsDead(p: PlayerState)
  {
    p.kind == Dead
  }

  /** Death is absorbing: neither an update nor any applied message revives a dead
      player, and a live player dies exactly when a collision is applied. */
  lemma DeathIsFinal(p: PlayerState, input: Option<Input>, time: u32, m: Message)
    ensures IsDead(p) ==> IsDead(Update(p, input, time).0) && IsDead(Apply(p, m))
    ensures !IsDead(p) ==> (IsDead(Apply(Update(p, input, time).0, m)) <==> m.ObstacleCollision?)
  {
  }

  /** The whole attack cycle from an idle player: an attack sample at `t0 > 0` starts the
      attack (and baselines the fresh attack timer); at `t1`, 1000 ms later, it ends and
      the player recovers with a fresh debuff timer, baselined at `t2`; at `t3`, 2000 ms
      after that, the player is idle again. */
  lemma {:induction false} AttackCycle(p: PlayerState, t0: u32, t1: u32, t2: u32, t3: u32, x: u32, y: u32, attack: u8)
    requires p.kind == Kind.Idle && attack > 0
    requires 0 < t0 && t0 + PLAYER_ATTACK_DURATION <= t1 && 0 < t2 && t2 + PLAYER_DEBUFF_DURATION <= t3
    ensures var p1 := Update(p, Some(Input(x, y, attack)), t0).0;
            var p2 := Update(p1, None, t1).0;
            var p3 := Update(p2, None, t2).0;
            var p4 := Update(p3, None, t3).0;
            p1.kind == Attacking && p2.kind == Recovering && p3.kind == Recovering && p4.kind == Kind.Idle
  {
    var p1 := Update(p, Some(Input(x, y, attack)), t0).0;
    assert p1.attackTimer == BeetleTimer.Timer(PLAYER_ATTACK_DURATION, PLAYER_ATTACK_DURATION, t0);
    var p2 := Update(p1, None, t1).0;
    assert p2.idleTimer == BeetleTimer.New(PLAYER_DEBUFF_DURATION);
    var p3 := Update(p2, None, t2).0;
    assert p3.idleTimer == BeetleTimer.Timer(PLAYER_DEBUFF_DURATION, PLAYER_DEBUFF_DURATION, t2);
  }

  /** A live player always shows exactly its own light. */
  lemma ShowsOneLight(p: PlayerState, input: Option<Input>, time: u32)
    requires !IsDead(p)
    ensures var r := Update(p, input, time).0;
            Shown(r.lights) == [Renderable(r.position, KindColour(r.kind))]
  {
    var r := Update(p, input, time).0;
    ShownFirstOnly(r.lights);
  }
}
