/** Failure and absence, as the modelled scripts use them: `None` and a raised error. */
module Wrappers {

  datatype Option<+T> = None | Some(value: T)

  /** A Python call either returns a value or raises an error that carries a code. */
  datatype Result<+T, +E> = Success(value: T) | Failure(error: E)
}
