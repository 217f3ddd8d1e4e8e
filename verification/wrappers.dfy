/** Nullable values and error-or-value results, as the TypeScript code uses
    `T | null` and thrown errors. */
module Wrappers {

  /** A value that may be `null` (or `undefined`) in the source. */
  datatype Option<+T> = None | Some(value: T) {
    /** `x ?? default` / `x || default` for a value that is never falsy when present. */
    function GetOr(default: T): T {
      match this
      case Some(v) => v
      case None => default
    }
  }

  /** The outcome of an operation that may throw: `Failure` carries the thrown error. */
  datatype Result<+T, +E> = Success(value: T) | Failure(error: E)

  /** Identifiers are non-empty strings (UUIDs in the store); an empty identifier, which
      JavaScript treats as false, is represented as `None`. */
  type Id = s: string | |s| > 0 witness "id"
}
