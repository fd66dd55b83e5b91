/** How a Swift call ends, and Swift's optional values. */
module Outcomes {

  /** Swift's `Optional`. */
  datatype Option<+T> = None | Some(value: T)

  /** A Swift `throws` function either returns a value or throws an error;
      a forced cast (`as!`) or a forced unwrap (`!`) that fails stops the
      process instead, which is `Trapped`: no value and no error reach the
      caller. */
  datatype Outcome<+T, +E> = Returned(value: T) | Thrown(error: E) | Trapped {

    /** Renames the error, keeping the value and the trap. */
    function MapError<E2>(f: E -> E2): (r: Outcome<T, E2>)
      ensures r.Returned? <==> Returned?
      ensures r.Trapped? <==> Trapped?
      ensures Returned? ==> r.value == value
      ensures Thrown? ==> r == Thrown(f(error))
    {
      match this
      case Returned(v) => Returned(v)
      case Thrown(e) => Thrown(f(e))
      case Trapped => Trapped
    }
  }
}
