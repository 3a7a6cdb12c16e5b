/** Shared outcome types: Python's `None`-able values and the exceptions the
    modelled functions raise, as ordinary data. */
module Outcomes {

  /** A value that may be absent (Python's `None`). */
  datatype Option<+T> = None | Some(value: T)

  /** The Python exceptions raised by the modelled code. `ValueError` and
      `TypeError` carry the message the source passes to them. */
  datatype Exception =
    | ValueError(message: string)
    | TypeError(message: string)
    | ZeroDivisionError

  /** Either the value a call returns, or the exception it raises. An
      exception carries no partial result. */
  datatype Result<+T> = Success(value: T) | Failure(error: Exception)
}
