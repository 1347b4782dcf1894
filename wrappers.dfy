/** Optional values and pass/fail outcomes, the two shapes the sell-order code returns. */
module Wrappers {

  /** A value that may be absent: a nil pointer field in the modelled records. */
  datatype Option<+T> = None | Some(value: T)

  /** The result of a validation: `Pass` is a nil error, `Fail` carries the reason. */
  datatype Outcome<+E> = Pass | Fail(error: E)
}
