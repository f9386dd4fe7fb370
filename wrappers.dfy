/** Failure-carrying values: Swift's optionals and `throws` become these. */
module Wrappers {

  /** An optional value: `nil` is `None`. */
  datatype Option<+T> = None | Some(value: T)
  {
    /** The value, or `default` when there is none (Swift's `??`). */
    function GetOr(default: T): T
    {
      match this
      case Some(v) => v
      case None => default
    }
  }

  /** The result of a throwing call that returns nothing: `Pass`, or `Fail` with the error thrown. */
  datatype Outcome<+E> = Pass | Fail(error: E)
}
