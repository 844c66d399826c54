/** Types shared by every component of the model. */
module Basics {

  datatype Option<+T> = None | Some(value: T)

  type byte = n: int | 0 <= n < 256

  /** A device identifier: the sixteen raw bytes of a UUID. */
  type Uuid = b: seq<byte> | |b| == 16 witness seq(16, _ => 0)

  const NIL_UUID: Uuid := seq(16, _ => 0)

  const SECOND: int := 1_000_000_000

  const TWO_64: int := 0x1_0000_0000_0000_0000

  /** A machine counter that wraps at 2^64. */
  type uint64 = n: int | 0 <= n < TWO_64

  function Min(a: int, b: int): int {
    if a < b then a else b
  }
}
