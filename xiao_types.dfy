/** The value types of the xiao-lights engine: lights, controller samples and the
    per-frame message (src/xiao-lights/src/types.hpp, message.hpp). */
module XiaoTypes {
  import opened Shared

  /** `Light = std::tuple<uint32_t, uint8_t, uint8_t, uint8_t>`: a position and a colour. */
  datatype Light = Light(position: u32, red: u8, green: u8, blue: u8)

  /** `ControllerInput = std::tuple<uint32_t, uint32_t, uint8_t>`: x axis, y axis, attack byte. */
  datatype ControllerInput = ControllerInput(x: u32, y: u32, attack: u8)

  /** `FrameMessage`: the one event threaded through the player and the obstacles each frame. */
  datatype FrameMessage =
    | PlayerMovement(position: u32, attacking: bool)
    | ObstacleCollision(position: u32)
    | GoalReached

  function LightOf(position: u32, c: Colour): Light
  {
    Light(position, c.red, c.green, c.blue)
  }
}
