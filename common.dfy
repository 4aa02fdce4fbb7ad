/** Shared vocabulary: the optional and failing results the services return,
    and the ObjectId type that links users and listings. */
module Common {

  /** A value that may be missing: JavaScript `undefined`/`null` or a query that found nothing. */
  datatype Option<+T> = None | Some(value: T)

  /** The outcome of a service call that may throw. */
  datatype Result<+T, +E> = Success(value: T) | Failure(error: E)

  /** The outcome of a service call that may throw and returns nothing. */
  datatype Outcome<+E> = Pass | Fail(error: E)

  /** A MongoDB ObjectId. Ids are compared through `toString()`, so equality of
      the modelled value is equality of their string forms. */
  type Id = nat
}
