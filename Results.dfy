/** Outcome datatypes shared by every module: a Python call either returns a value or raises. */
module Results {

  /** A value that may be absent; Python's `None`. */
  datatype Option<+T> = None | Some(value: T)

  /** The outcome of a call that may raise: `Err` carries the kind of exception. */
  datatype Result<+T, +E> = Ok(value: T) | Err(error: E)
}
