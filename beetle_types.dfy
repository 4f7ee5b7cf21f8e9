/** The value types of the beetle-lights engine: renderables, controller samples and
    the per-frame message (src/beetle-lights/src/message.hpp and the `Renderable`
    alias of src/xiao-lights/src/renderable.hpp). */
module BeetleTypes {
  import opened Shared

  /** `Renderable = std::pair<uint32_t, std::array<uint8_t, 3>>`. */
  datatype Renderable = Renderable(position: u32, colour: Colour)

  /** `std::tuple<uint32_t, uint32_t, uint8_t>`: x axis, y axis, attack byte. */
  datatype Input = Input(x: u32, y: u32, attack: u8)

  /** `Message`. `ObstacleCollision` drops the argument its constructor is given, so it
      carries no position. */
  datatype Message =
    | PlayerMovement(position: u32, isAttacking: bool)
    | ObstacleCollision
    | GoalReached

  /** A fixed-size buffer of optional renderables, all empty (`fill(std::nullopt)`). */
  function Cleared(n: nat): (r: seq<Option<Renderable>>)
    ensures |r| == n
    ensures forall i :: 0 <= i < n ==> r[i] == None
  {
    seq(n, _ => None)
  }

  /** The renderables a buffer holds, in slot order, skipping the empty slots. */
  function Shown(buffer: seq<Option<Renderable>>): (r: seq<Renderable>)
    ensures |r| <= |buffer|
    decreases |buffer|
  {
    if buffer == [] then []
    else
      var last := buffer[|buffer| - 1];
      Shown(buffer[..|buffer| - 1]) + (if last.Some? then [last.value] else [])
  }

  /** A buffer with no filled slot shows nothing. */
  lemma {:induction false} ShownCleared(buffer: seq<Option<Renderable>>)
    requires forall i :: 0 <= i < |buffer| ==> buffer[i] == None
    ensures Shown(buffer) == []
    decreases |buffer|
  {
    if buffer != [] {
      ShownCleared(buffer[..|buffer| - 1]);
    }
  }

  /** A buffer whose only filled slot is the first shows exactly that renderable. */
  lemma {:induction false} ShownFirstOnly(buffer: seq<Option<Renderable>>)
    requires |buffer| > 0 && buffer[0].Some?
    requires forall i :: 1 <= i < |buffer| ==> buffer[i] == None
    ensures Shown(buffer) == [buffer[0].value]
    decreases |buffer|
  {
    if |buffer| > 1 {
      ShownFirstOnly(buffer[..|buffer| - 1]);
    } else {
      assert buffer[..0] == [];
    }
  }
}
