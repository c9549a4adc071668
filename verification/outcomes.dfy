/** Optional values and the outcome of Python code that may raise. */
module Outcomes {

  /** A value that may be absent (Python's `Optional[...]` parameters). */
  datatype Option<+T> = None | Some(value: T)

  /** The outcome of an expression evaluated inside a hook's `try` block:
      either it produces a value or it raises. Which exception is raised
      is not distinguished, because every hook catches them all alike. */
  datatype Try<+T> = Ok(value: T) | Raise
}
