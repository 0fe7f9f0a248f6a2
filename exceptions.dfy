/** Python exceptions as the scraper's `except` clauses see them, and the
    Result/Option wrappers used to carry them through the model. */
module Exceptions {

  /** The exception classes the scraper names in an `except` clause or can
      raise itself. ccxt's class hierarchy is not part of the model: a raised
      exception lists every class it is an instance of (its own and its bases). */
  datatype ExcClass =
    | RequestTimeout
    | DDoSProtection
    | ExchangeNotAvailable
    | ExchangeError
    | KeyError
    | PostgresError
    | OtherClass(name: string)

  /** A raised exception: the classes it is an instance of and its argument. */
  datatype Exc = Exc(classes: set<ExcClass>, arg: string)

  /** The `KeyError(key)` a dictionary subscript raises for a missing key. */
  function MissingKey(key: string): (e: Exc) {
    Exc({KeyError}, key)
  }

  /** An error reported by the database driver for a failed statement. */
  function DatabaseError(message: string): (e: Exc) {
    Exc({PostgresError}, message)
  }

  datatype Option<+T> = None | Some(value: T)

  /** A computation that either returns a value or raises an exception. */
  datatype Result<+T> = Ok(value: T) | Err(error: Exc)
}
