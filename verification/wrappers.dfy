/** Failure-carrying datatypes shared by the whole model. */
module Wrappers {

  /** An optional value: Python's `None` or a present value. */
  datatype Option<+T> = None | Some(value: T) {

    /** The present value, or `default` when absent (Python's `x or default`
        when only `None` and the empty value are falsy). */
    function GetOr(default: T): T {
      match this
      case Some(v) => v
      case None => default
    }
  }

  /** Either a value or the exception the source raises instead of returning. */
  datatype Result<+T, +E> = Ok(value: T) | Err(error: E)
}
