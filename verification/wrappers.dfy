/** Optional values and results with an error path, shared by both tools. */
module Wrappers {

  /** An optional value; `None` stands for Python's `None` or an empty CSV cell. */
  datatype Option<+T> = None | Some(value: T)

  /** The value of a computation, or the error that Python would raise instead. */
  datatype Result<+R, +E> = Ok(value: R) | Err(error: E)
}
