// Results and optional values shared by every component.
module Wrappers {
  datatype Option<+T> = None | Some(value: T)

  // A Python exception becomes a Failure that carries its kind.
  datatype Result<+T, +E> = Success(value: T) | Failure(error: E)
}
