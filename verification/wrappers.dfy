/** Failure-carrying values used for the bounds-checked accessors of the model. */
module Wrappers {

  /** An optional value, as returned by slice lookups (`get`). */
  datatype Option<+T> = None | Some(value: T)

  /** The outcome of an operation that either succeeds with a value or fails with an error
      and leaves its receiver untouched. */
  datatype Result<+T, +E> = Ok(value: T) | Err(error: E)
}
