/** Constants of param.h and the width of an unsigned int. */
module Params {
  const FSSIZE: nat := 1000
  const MAXOPBLOCKS: nat := 10
  const LOGSIZE: nat := 30
  const NBUF: nat := 30
  const U32: nat := 0x1_0000_0000
}
