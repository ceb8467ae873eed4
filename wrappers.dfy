/** Optional values and results with an error, shared by the other modules. */
module Wrappers {

  /** A value that may be absent (Python's `None`, SQL's NULL). */
  datatype Option<+T> = None | Some(value: T)

  /** The outcome of an operation that may raise: a value or the error it raised. */
  datatype Result<+T, +E> = Ok(value: T) | Err(error: E)

  /** The set holding the value of `o`, if any. */
  function OptionSet<T>(o: Option<T>): set<T>
  {
    match o
    case None => {}
    case Some(x) => {x}
  }
}
