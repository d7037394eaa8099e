/** Failure-carrying results shared by the decode layer and the domain decoders. */
module Wrappers {

  /** A conversion either yields a value or the error that stopped it. */
  datatype Result<+T, +E> = Success(value: T) | Failure(error: E) {

    predicate IsFailure() {
      Failure?
    }

    function PropagateFailure<U>(): Result<U, E>
      requires Failure?
    {
      Failure(error)
    }

    function Extract(): T
      requires Success?
    {
      value
    }

    /** The value on success, `default` on any failure (Rust's `unwrap_or`). */
    function GetOr(default: T): T {
      match this
      case Success(v) => v
      case Failure(_) => default
    }
  }
}
