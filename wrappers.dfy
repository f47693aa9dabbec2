/** Optional values and results, standing for Python's `None` and for raised exceptions. */
module Wrappers {

  /** A value that may be absent (`None` in Python, `NULL` in a table). */
  datatype Option<T> = None | Some(value: T)

  /** The result of an operation that either returns normally or raises. */
  datatype Result<T, E> = Ok(value: T) | Err(error: E)
}
