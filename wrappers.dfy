/** Option and Result, the two failure-carrying datatypes the model uses
    for Python's `None` results and for exceptions that escape a function. */
module Wrappers {

  datatype Option<+T> = None | Some(value: T)

  datatype Result<+T, +E> = Ok(value: T) | Err(error: E)
}
