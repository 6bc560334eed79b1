/** Failure-compatible wrappers shared by the other modules. */
module Wrappers {

  /** An optional value: `None` stands for "nothing there" (no row, a failed fetch). */
  datatype Option<+T> = None | Some(value: T)

  /** Either a value or an error, for the fatal paths of the program. */
  datatype Result<+R, +E> = Success(value: R) | Failure(error: E)
}
