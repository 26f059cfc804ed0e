/** Optional values and success-or-error results, shared by the whole model. */
module Wrappers {

  /** A value that may be missing: JavaScript's `null`/`undefined` on one side, a value on the other. */
  datatype Option<+T> = None | Some(value: T)

  /** The outcome of an operation that can fail without touching any state. */
  datatype Result<+T, +E> = Ok(value: T) | Err(error: E)
}
