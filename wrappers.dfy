/** Failure-compatible result types, so that the Rust `?` operator becomes Dafny's `:-`. */
module Wrappers {

  /** Rust's `Option`. */
  datatype Option<+T> = None | Some(value: T) {

    /** Rust's `Option::ok_or`: turns `None` into the given error. */
    function OkOr<E>(error: E): Result<T, E> {
      match this
      case Some(v) => Success(v)
      case None => Failure(error)
    }
  }

  /** Rust's `Result`. */
  datatype Result<+T, +E> = Success(value: T) | Failure(error: E) {

    predicate IsFailure() {
      Failure?
    }

    function PropagateFailure<U>(): Result<U, E>
      requires Failure?
    {
      Failure(error)
    }

    function Extract(): T
      requires Success?
    {
      value
    }
  }
}
