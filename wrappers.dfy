/**
 * Option and Result, for the places where the generator either gives up
 * (an ill-formed rule line, an empty grammar) or produces a value.
 */
module Wrappers {

  datatype Option<+T> = None | Some(value: T)

  datatype Result<+T, +E> = Ok(value: T) | Err(error: E)
}
