/** Small failure-aware wrappers shared by the other modules. */
module Wrappers {

  /** A value that may be missing: JavaScript's `null` or `undefined`. */
  datatype Option<+T> = None | Some(value: T)

  /** How an asynchronous browser or remote operation settled: resolved with a
      value, or rejected. The model never performs the operation itself; the
      outcome is handed in by the caller. */
  datatype Settled<+T> = Ok(value: T) | Failed
}
