/** The wrapper datatypes used across the model: `Option` for the
    source's `T | undefined` values and `Result` for operations that throw. */
module Wrappers {

  datatype Option<+T> = None | Some(value: T)

  datatype Result<+R, +E> = Ok(value: R) | Err(error: E)
}
