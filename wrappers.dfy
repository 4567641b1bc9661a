/** Option and Result, the two small wrappers the model uses for "maybe absent" and "succeeded or failed". */
module Wrappers {

  /** `Some(v)` for a present value, `None` for an absent key or a SQL NULL. */
  datatype Option<+T> = None | Some(value: T)

  /** The outcome of an endpoint: the value it returns, or the error it raises. */
  datatype Result<+T, +E> = Ok(value: T) | Err(error: E)
}
