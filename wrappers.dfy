/** Option and Result, the two failure-carrying shapes the model uses for
    Python's `None` and for raised exceptions. */
module Wrappers {

  datatype Option<+T> = None | Some(value: T)

  /** `Err` carries the text that `str(e)` gives for the exception raised. */
  datatype Result<+T, +E> = Ok(value: T) | Err(error: E)
}
