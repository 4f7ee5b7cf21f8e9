/** Machine integers, the optional value, colours and the facing direction used by
    both generations of the light runner (`uint8_t`, `uint16_t`, `uint32_t`,
    `std::optional`, `enum Direction`). */
module Shared {

  const U32_MODULUS: int := 0x1_0000_0000

  /** C++ `uint32_t`, `uint16_t` and `uint8_t` values. */
  type u32 = x: int | 0 <= x < 0x1_0000_0000
  type u16 = x: int | 0 <= x < 0x1_0000
  type u8 = x: int | 0 <= x < 0x100

  datatype Option<+T> = None | Some(value: T)

  /** The three facing directions of src/xiao-lights/src/direction.hpp. */
  datatype Direction = Left | Right | Idle

  /** An RGB triple, `std::array<uint8_t, 3>` or the colour part of a light tuple. */
  datatype Colour = Colour(red: u8, green: u8, blue: u8)

  /** Unsigned 32-bit addition with wrap-around. */
  function Add32(a: u32, b: u32): (r: u32)
    ensures a + b < U32_MODULUS ==> r == a + b
    ensures a + b >= U32_MODULUS ==> r == a + b - U32_MODULUS
  {
    (a + b) % U32_MODULUS
  }

  /** Unsigned 32-bit subtraction with wrap-around. */
  function Sub32(a: u32, b: u32): (r: u32)
    ensures a >= b ==> r == a - b
    ensures a < b ==> r == a - b + U32_MODULUS
  {
    (a - b) % U32_MODULUS
  }

  /** Reads a NUL-terminated character buffer: past the end of `s` the buffer holds `'\0'`. */
  function At(s: seq<char>, i: nat): char
  {
    if i < |s| then s[i] else '\0'
  }
}
