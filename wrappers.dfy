/** Option and Result, used for optional record fields, nullable query
    results and the errors a Convex function throws. */
module Wrappers {

  /** An optional value: `None` stands for an absent field, `undefined` or `null`. */
  datatype Option<+T> = None | Some(value: T)

  /** The outcome of a query or mutation: its return value, or the error it throws. */
  datatype Result<+T, +E> = Ok(value: T) | Err(error: E)
}
