/** Option, Result and Outcome: the model's stand-ins for Java's null and for thrown exceptions. */
module Wrappers {

  /** A possibly-null Java reference: `None` is `null`. */
  datatype Option<+T> = None | Some(value: T)

  /** The value of a call that either returns normally or throws. */
  datatype Result<+R, +E> = Success(value: R) | Failure(error: E)

  /** A call that returns nothing (`void`) or throws. */
  datatype Outcome<+E> = Pass | Fail(error: E)
}
