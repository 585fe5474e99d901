/** Definitions that several components share. */
module Common {
  import opened CInt

  /** Audio timing: a block of 1 ms, a frame of 10 ms, and the skew allowed between channels. */
  const BLK_PERIOD_US: int := 1000
  const FRAME_DURATION_US: int := 10000
  const SDU_REF_CH_DELTA_MAX_US: int := 10

  /** The most bytes a periodic advertising payload may have. */
  const PA_MAX_DATA_SIZE: nat := 252

  type Bytes = seq<uint8>

  datatype Option<T> = None | Some(value: T)

  /** The number a condition contributes to a count. */
  function Count(b: bool): nat {
    if b then 1 else 0
  }

  function Min(a: nat, b: nat): nat {
    if a < b then a else b
  }

  function Le16(lo: uint8, hi: uint8): uint16 {
    lo + 0x100 * hi
  }

  lemma Assoc<T>(a: seq<T>, b: seq<T>, c: seq<T>)
    ensures a + b + c == a + (b + c)
  {
  }
}
