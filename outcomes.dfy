/** The outcome of an operation that may fail: the exceptions the service
    raises become `Failure` values carrying what was raised. */
module Outcomes {

  datatype Result<+T, +E> = Success(value: T) | Failure(error: E)
}
