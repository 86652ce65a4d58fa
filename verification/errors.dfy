/** Outcomes of the service operations. Every failure the services raise is a
    `ServiceException` (or an exception the store throws); here each is one
    value of `ServiceError`, returned instead of thrown. */
module Errors {

  datatype ServiceError =
    | NotFound          // no record with the requested id
    | DanglingSector    // a sector id that names no stored sector
    | InvalidArgument   // a null id handed to the repository
    | StorageFailure    // the store rejected or failed the write

  /** A Java reference that may be null, for the fields the code lets be null. */
  datatype Option<+T> = None | Some(value: T)

  /** Result of an operation that returns a value on success. */
  datatype Result<+T> = Ok(value: T) | Err(error: ServiceError)

  /** Result of an operation that returns nothing on success (a Java `void`). */
  datatype Outcome = Done | Failed(error: ServiceError)
}
