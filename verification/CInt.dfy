/** The C integer types the firmware relies on, and the conversions between them. */
module CInt {

  const TWO_POW_32: int := 0x1_0000_0000

  type uint8 = x: int | 0 <= x < 0x100
  type uint16 = x: int | 0 <= x < 0x1_0000
  type uint32 = x: int | 0 <= x < TWO_POW_32
  type int32 = x: int | -0x8000_0000 <= x < 0x8000_0000

  /** Conversion to uint8_t. */
  function U8(x: int): uint8 {
    x % 0x100
  }

  /** Conversion to uint16_t. */
  function U16(x: int): uint16 {
    x % 0x1_0000
  }

  /** Conversion to uint32_t, and the value of every uint32_t expression. */
  function U32(x: int): uint32 {
    x % TWO_POW_32
  }

  /** Conversion to int32_t on a two's complement machine. */
  function I32(x: int): int32 {
    var u := x % TWO_POW_32;
    if u < 0x8000_0000 then u else u - TWO_POW_32
  }

  lemma I32Fits(x: int)
    requires -0x8000_0000 <= x < 0x8000_0000
    ensures I32(x) == x
  {
  }

  /** C division: truncates towards zero (Dafny's `/` is Euclidean). */
  function Div(a: int, b: int): int
    requires b > 0
  {
    if a >= 0 then a / b else -((-a) / b)
  }

  function Abs(x: int): nat {
    if x >= 0 then x else -x
  }
}
