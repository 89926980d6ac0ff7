/** The one container type every part of the model shares. */
module Prelude {
  datatype Option<+T> = None | Some(value: T)
  datatype Result<+T> = Success(value: T) | Failure
}
