/** Sizes of the log, from param.h. */
module Sizes {
  const MAXOPBLOCKS: nat := 10            // blocks set aside for one operation
  const LOGSIZE: nat := MAXOPBLOCKS * 3
}
