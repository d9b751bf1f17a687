/** Numbers and words that several files share. */
module Param {

  const U32: nat := 0x1_0000_0000

  type Byte = x: int | 0 <= x < 256

  /** The most blocks that an operation may log (param.h). */
  const MAXOPBLOCKS: nat := 10

  /** The most blocks that the log may name. */
  const LOGSIZE: nat := 3 * MAXOPBLOCKS

  function Min(a: nat, b: nat): nat {
    if a < b then a else b
  }

  function Max(a: nat, b: nat): nat {
    if a < b then b else a
  }
}
