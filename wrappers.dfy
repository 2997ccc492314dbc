/** Option and Result, the two failure-carrying datatypes the model uses in
    place of PHP's `null` and `false` returns. */
module Wrappers {

  datatype Option<+T> = None | Some(value: T)

  datatype Result<+T, +E> = Ok(value: T) | Err(error: E)
}
