/** Failure-carrying values shared by the whole model. */
module Wrappers {

  /** A value that may be absent: Python's `None` next to a real value. */
  datatype Option<+T> = None | Some(value: T)

  /** The error kinds the modelled scripts run into. */
  datatype Error =
    | IndexError          // indexing a pandas Index past its end
    | ValueError          // `int()` of a token that is not an integer, `max()` of nothing
    | ZeroDivisionError   // a Python float divided by zero

  /** Either a value or the exception that replaced it. */
  datatype Result<+T> = Ok(value: T) | Err(error: Error)
}
