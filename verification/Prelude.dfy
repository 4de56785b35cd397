/** The types that every module of the model shares. */
module Prelude {
  /** An instant or a duration, in units that only matter where a module names one. */
  type Time = int

  datatype Option<+T> = None | Some(value: T)

  datatype Result<+T, +E> = Ok(value: T) | Err(error: E)
}
