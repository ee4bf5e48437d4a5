/** Failure-carrying datatypes shared by the other modules. */
module Wrappers {

  /** A value that may be absent, as a JavaScript property that may be `undefined`. */
  datatype Option<+T> = None | Some(value: T)

  /** Either a computed value or the fault that stopped the computation. */
  datatype Result<+T, +E> = Ok(value: T) | Err(error: E)
}
