/** Failure-compatible wrappers shared by the other modules. */
module Wrappers {

  datatype Option<+T> = None | Some(value: T)

  /** The outcome of a zod `safeParse`: the parsed data, or the message of the first issue. */
  datatype Result<+T, +E> = Success(value: T) | Failure(error: E)
}
