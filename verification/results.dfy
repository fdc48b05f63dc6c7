/** Failure-compatible wrappers and the error kinds the metrics engine can raise.
    The source raises Python exceptions; here each becomes a `Failure` value. */
module Results {

  /** An optional value: the result of a regex extraction or of a parse. */
  datatype Option<+T> = None | Some(value: T)

  /** Why a computation was abandoned. */
  datatype Error =
    | MissingPattern(column: string)   // an optional column has no subject regex
    | NotABoolean(raw: string)         // a flag value getboolean rejects
    | NotAnInteger(raw: string)        // a `lastdays` value int() rejects
    | DateOutOfRange(raw: string)      // a `lastdays` window that leaves the datetime range
    | NoFileRows                       // the normalised table is empty, so it has no columns

  /** Either a value or the error that stopped its computation; usable with `:-`. */
  datatype Result<+T> = Success(value: T) | Failure(error: Error) {

    predicate IsFailure() {
      Failure?
    }

    function PropagateFailure<U>(): Result<U>
      requires Failure?
    {
      Failure(error)
    }

    function Extract(): T
      requires Success?
    {
      value
    }
  }
}
