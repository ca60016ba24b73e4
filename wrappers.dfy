/** Option and Result, the two failure-carrying shapes the model uses for
    nullable columns and for the exceptions the source raises. */
module Wrappers {

  /** A nullable value: `None` is Python's `None` / SQL `NULL`. */
  datatype Option<+T> = None | Some(value: T)

  /** The outcome of an operation that either returns a value or raises. */
  datatype Result<+R, +E> = Ok(value: R) | Err(error: E)
}
