/** What every module shares: an optional value, byte strings, the smaller of two numbers. */
module Wrappers {
  datatype Option<+T> = None | Some(value: T)

  newtype byte = b: int | 0 <= b < 256

  type Bytes = seq<byte>

  const NEWLINE: byte := 10

  function Min(a: nat, b: nat): nat {
    if a < b then a else b
  }
}
