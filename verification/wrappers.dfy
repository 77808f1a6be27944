/**
 * Optional values, standing for Python's `None` where the source allows it,
 * and results, standing for a value or the exception raised instead.
 */
module Wrappers {

  datatype Option<+T> = None | Some(value: T)

  datatype Result<+T, +E> = Ok(value: T) | Err(error: E)
}
