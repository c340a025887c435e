/** Optional values and success/failure results, standing for Java's nullable
    references and for the exceptions the booking service throws. */
module Outcomes {

  /** A Java reference that may be null. */
  datatype Option<+T> = None | Some(value: T)

  /** A call that either returns a value or throws. */
  datatype Result<+T, +E> = Success(value: T) | Failure(error: E)

  /** A void call that either returns normally or throws. */
  datatype Outcome<+E> = Pass | Fail(error: E)
}

/** The exceptions that reach the caller of the booking service. */
module Exceptions {

  /** `BookingException` carries the human-readable message every failure of the
      service is reported with; `ConstraintViolation` is the persistence error
      raised when a row breaks a column constraint of the `bookings` table. */
  datatype Failure =
    | BookingException(message: string)
    | ConstraintViolation(column: string)
}
