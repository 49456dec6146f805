// Results that stand for the sources' exceptions, and optional values.
module Wrappers {
  datatype Option<+T> = None | Some(value: T)

  // A value, or the exception the source raises in its place.
  datatype Result<+T> = Ok(value: T) | Error {
    predicate IsFailure() {
      Error?
    }

    function PropagateFailure<U>(): Result<U>
      requires Error?
    {
      Error
    }

    function Extract(): T
      requires Ok?
    {
      value
    }
  }
}
