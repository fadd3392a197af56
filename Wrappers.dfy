/** Optional values and results, the way the source uses `undefined` and thrown errors. */
module Wrappers {

  /** A value that may be absent (a TypeScript optional field or `undefined`). */
  datatype Option<+T> = None | Some(value: T) {
    function GetOr(default: T): T {
      match this
      case Some(v) => v
      case None => default
    }
  }

  /** Either a value or an error, for operations the source lets throw or answer with an error status. */
  datatype Result<+R, +E> = Ok(value: R) | Err(error: E)
}
