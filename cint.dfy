/** Fixed-width C integer types used by the firmware, as ranges of unbounded integers.
    Conversions between them are written out where the firmware performs one. */
module CInt {
  type uint8 = x: int | 0 <= x < 0x100
  type uint16 = x: int | 0 <= x < 0x1_0000
  type int16 = x: int | -0x8000 <= x < 0x8000

  const Int32Max: int := 0x7FFF_FFFF

  /** Implicit conversion of a non-negative `int` to `uint8_t` (keeps the low 8 bits). */
  function ToUint8(x: nat): (r: uint8)
    ensures x < 0x100 ==> r == x
    ensures (x - r) % 0x100 == 0
  {
    x % 0x100
  }

  /** Implicit conversion of a non-negative `int32_t` to `uint16_t` (keeps the low 16 bits). */
  function ToUint16(x: nat): (r: uint16)
    ensures x < 0x1_0000 ==> r == x
    ensures (x - r) % 0x1_0000 == 0
  {
    x % 0x1_0000
  }
}
