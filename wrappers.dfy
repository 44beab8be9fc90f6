/** Option and Result values: the model's stand-in for Go's `(value, error)` pairs
    where the value is meaningless on error. */
module Wrappers {

  datatype Option<+T> = None | Some(value: T)

  datatype Result<+T, +E> = Ok(value: T) | Err(error: E)
}
