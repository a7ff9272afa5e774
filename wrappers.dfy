/** Small failure-carrying datatypes shared by the whole model. */
module Wrappers {

  /** A value that may be absent (JavaScript's `null`/`undefined`, a failed lookup). */
  datatype Option<+T> = None | Some(value: T)

  /** The outcome of a check that either passes or fails with a message (a thrown `Error`). */
  datatype Outcome = Pass | Fail(message: string)
}
