/** The two shapes a Python call can end in that the models need: a value that may be None, and
    a call that either returns or raises. */
module Wrappers {
  datatype Option<+T> = None | Some(value: T)

  datatype Result<+T, +E> = Ok(value: T) | Err(error: E)
}
