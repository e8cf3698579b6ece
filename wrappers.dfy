/** Optional values, results and outcomes used throughout the model. */
module Wrappers {

  /** Python's `None` or a present value. */
  datatype Option<+T> = None | Some(value: T)

  /** A value, or the exception that a Python operation raised instead. */
  datatype Result<+R, +E> = Ok(value: R) | Err(error: E)

  /** Normal completion of a procedure, or the exception it raised. */
  datatype Outcome<+E> = Pass | Fail(error: E)
}
