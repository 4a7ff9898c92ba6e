/** Optional values and results, shared by the other modules. */
module Wrappers {

  /** A value that may be missing: a missing JSON key, Python's `None`. */
  datatype Option<+T> = None | Some(value: T)

  /** The outcome of a step that can raise. */
  datatype Result<+T, +E> = Ok(value: T) | Err(error: E)
}
