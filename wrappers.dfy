/** Failure-compatible result types shared by the whole model. */
module Wrappers {

  /** A Go pointer that may be nil, or a map lookup that may miss. */
  datatype Option<T> = None | Some(value: T)

  /** The value of an operation, or the message of the panic that ends it. */
  datatype Result<T> = Success(value: T) | Failure(error: string) {

    predicate IsFailure() {
      Failure?
    }

    function PropagateFailure<U>(): Result<U>
      requires Failure?
    {
      Failure(error)
    }

    function Extract(): T
      requires Success?
    {
      value
    }
  }
}
