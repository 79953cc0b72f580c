/** Failure-carrying datatypes shared by every module of the model.
    A Python call that raises is modelled as `Failure(description)`. */
module Wrappers {

  /** A value that may be absent (Python `None`). */
  datatype Option<+T> = None | Some(value: T)

  /** Either a normal return or a raised exception. */
  datatype Result<+T, +E> = Success(value: T) | Failure(error: E)
}
