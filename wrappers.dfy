/** Option and Result, the two failure-carrying shapes used across the model. */
module Wrappers {

  /** A value that may be absent: JavaScript's `undefined` / `null` results. */
  datatype Option<+T> = None | Some(value: T)

  /** The outcome of a store write: the new state, or the error it threw. */
  datatype Result<+T, +E> = Ok(value: T) | Err(error: E)
}
