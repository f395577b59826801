/** Option and Result, the two shapes every layer of the mapper passes around. */
module Wrappers {

  datatype Option<+T> = None | Some(value: T)

  /** `Result<T, E>`: `Ok` carries a converted value, `Err` the first failure. */
  datatype Result<+T, +E> = Ok(value: T) | Err(error: E)
}
