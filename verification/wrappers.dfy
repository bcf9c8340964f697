/** Failure-carrying values used in place of the exceptions the bot raises and catches. */
module Wrappers {

  /** A value that may be missing: `None` stands for a call that raised. */
  datatype Option<+T> = None | Some(value: T)

  /** A value or the reason it could not be produced. */
  datatype Result<+T, +E> = Ok(value: T) | Err(error: E)
}
