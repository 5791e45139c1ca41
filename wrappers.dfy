// Option and Result values used across the model for the source's
// "not found" answers and for the exceptions it throws.
module Wrappers {
  datatype Option<T> = None | Some(value: T)

  /** The source throws `std::runtime_error` (or reads out of range); the model returns Failure. */
  datatype Result<T> = Success(value: T) | Failure(error: string)
  {
    predicate IsFailure() { Failure? }

    function PropagateFailure<U>(): Result<U>
      requires Failure?
    {
      Failure(error)
    }

    function Extract(): T
      requires Success?
    {
      value
    }
  }
}
