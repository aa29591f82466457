/** Failure-carrying values used in place of Java's null and exceptions. */
module Results {

  datatype Option<+T> = None | Some(value: T)

  datatype Result<+T, +E> = Success(value: T) | Failure(error: E)

  /** A step that either completes or raises an error. */
  datatype Outcome<+E> = Pass | Fail(error: E)
}
