/** Kernel parameters that several layers share. */
module Params {

  const MAXOPBLOCKS: nat := 10
  const LOGSIZE: nat := 3 * MAXOPBLOCKS
}
