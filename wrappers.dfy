/** Option and Result, the two failure-carrying datatypes the model uses in
    place of JavaScript's `null` results and thrown exceptions. */
module Wrappers {

  datatype Option<+T> = None | Some(value: T)

  datatype Result<+T, +E> = Ok(value: T) | Err(error: E)
}
