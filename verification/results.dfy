/** Failure-carrying result types shared by the engine and the bot models.
    An exception raised by the program becomes an `Err` carrying the kind of
    error; a normal return becomes an `Ok`. */
module Results {

  /** The outcome of an operation that either returns a value or raises. */
  datatype Result<+T, +E> = Ok(value: T) | Err(error: E)

  /** A value that may be missing, as a dictionary lookup may be. */
  datatype Option<+T> = None | Some(value: T)
}
