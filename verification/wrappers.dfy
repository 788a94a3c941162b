/** Nullable values and fallible results shared by every analysis.

    `Option` stands for a SQL column that may hold NULL; `Result` for a step that
    either produces its output or stops with an error the caller sees. */
module Wrappers {

  /** A value that may be absent: `None` is SQL NULL / pandas NaN. */
  datatype Option<+T> = None | Some(value: T) {

    /** The value, or `default` when it is absent. */
    function GetOr(default: T): T {
      match this
      case Some(v) => v
      case None => default
    }
  }

  /** The outcome of a step that may fail. */
  datatype Result<+T, +E> = Success(value: T) | Failure(error: E)
}
