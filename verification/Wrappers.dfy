/** Optional values and results, used by every other module. */
module Wrappers {

  /** A value that may be absent: a nullable column, an optional field. */
  datatype Option<+T> = None | Some(value: T)

  /** A value or the error that the source throws instead of returning one. */
  datatype Result<+T, +E> = Ok(value: T) | Err(error: E)
}
