/** Bytes, and the blocks of a disk. */
module Bytes {
  const BSIZE: nat := 512

  type Byte = b: int | 0 <= b < 256
  type Block = b: seq<Byte> | |b| == BSIZE witness seq(BSIZE, _ => 0)
}
