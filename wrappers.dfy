/** `Option` and an outcome datatype shared by the other modules. */
module Wrappers {

  datatype Option<+T> = None | Some(value: T)

  /** The outcome of a call that either returns a value or raises an exception
      whose textual description (Python's `str(e)`) is `message`. */
  datatype Outcome<+T> = Ok(value: T) | Raised(message: string)
}
