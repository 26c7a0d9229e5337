/** Optional values and pass/fail outcomes. */
module Wrappers {

  /** A value that may be absent; `None` stands for SQL NULL and for Python's `None`. */
  datatype Option<+T> = None | Some(value: T)

  /** The outcome of an operation that either completes or raises an error. */
  datatype Outcome<+E> = Pass | Fail(error: E)
}
