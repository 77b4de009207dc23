/** Option and Result, the two failure-carrying shapes the Rust sources use. */
module Wrappers {

  datatype Option<+T> = None | Some(value: T)

  datatype Result<+T, +E> = Ok(value: T) | Err(error: E)

  /** Rust's unit type `()`, the success value of a dispatchable or of a constraint synthesiser. */
  datatype Unit = Unit
}
