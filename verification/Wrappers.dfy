/** Option and Result, as the Rust sources use them, byte strings, and the smaller of two numbers. */
module Wrappers {

  datatype Option<+T> = None | Some(value: T)

  datatype Result<+T, +E> = Ok(value: T) | Err(error: E)

  type Bytes = seq<bv8>

  function Min(a: nat, b: nat): nat {
    if a <= b then a else b
  }
}
