/**
 What every part of the project uses.
 */
module Basics {
  datatype Option<+T> = None | Some(value: T)

  // The number of values of a uint64_t.
  const TWO64: nat := 0x1_0000_0000_0000_0000
}
