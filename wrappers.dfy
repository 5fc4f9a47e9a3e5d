/** Optional values and results with an error, as used by every store. */
module Wrappers {

  /** A value that may be missing: an absent or null JSON field, or a failed lookup. */
  datatype Option<T> = None | Some(value: T)

  /** The outcome of an endpoint: the value it answers with, or the error it reports. */
  datatype Result<T, E> = Ok(value: T) | Err(error: E)
}
