/** Failure-carrying values standing in for Java's null returns and exceptions. */
module Results {

  /** A value that may be absent (a Java `null`, or a constructor that throws). */
  datatype Option<T> = None | Some(value: T)

  /** A value, or the error a Java method would have thrown instead of returning it. */
  datatype Result<T, E> = Ok(value: T) | Err(error: E)

  /** A check that either passes or fails with an error (a `void` method that may throw). */
  datatype Outcome<E> = Pass | Fail(error: E)
}
