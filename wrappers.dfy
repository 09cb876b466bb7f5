/** Optional values and results with an error, as the task engine returns them. */
module Wrappers {

  /** A value that may be missing: an absent JSON field, a null database field. */
  datatype Option<+T> = None | Some(value: T)

  /** The outcome of an operation that can fail with an error of type E. */
  datatype Result<+R, +E> = Ok(value: R) | Err(error: E)
}
