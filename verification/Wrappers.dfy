/** The two wrappers the models share: a nullable column and the outcome of a request
    that may raise. */
module Wrappers {

  datatype Option<+T> = None | Some(value: T)

  /** A nullable text column or field that Python's truth test accepts: present and not empty. */
  predicate Given(text: Option<string>) {
    text.Some? && text.value != ""
  }

  /** A service call either returns a value or raises; a raised error rolls the request back. */
  datatype Result<+R, +E> = Success(value: R) | Failure(error: E) {
    predicate IsFailure() {
      Failure?
    }

    function PropagateFailure<U>(): Result<U, E>
      requires Failure?
    {
      Failure(error)
    }

    function Extract(): R
      requires Success?
    {
      value
    }
  }
}
