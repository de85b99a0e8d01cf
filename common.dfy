/** Values shared by every part of the model: identifiers, timestamps,
    optional values and the error results services raise. */
module Common {

  /** A Mongo ObjectId; the store allocates them from a counter. */
  type Id = nat

  /** A JavaScript Date, as milliseconds since the epoch. */
  type Time = int

  /** A value that may be absent (`undefined` in the source). */
  datatype Option<+T> = None | Some(value: T)

  /** The failures an operation can raise. */
  datatype Error =
    | HttpError(status: int, message: string)  // createError(message, status)
    | ValidationFailed                          // a Mongoose schema validator rejected a document
    | TokenRejected                             // jsonwebtoken's verify threw (bad signature, expired, malformed)

  /** The outcome of an operation that either returns a value or throws. */
  datatype Result<+T> = Ok(value: T) | Err(error: Error)

  function Min(a: int, b: int): int { if a <= b then a else b }
  function Max(a: int, b: int): int { if a >= b then a else b }
}
