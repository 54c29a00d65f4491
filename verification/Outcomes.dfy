/** Optional values, and the outcome of an operation that may be refused. */
module Outcomes {

  datatype Option<+T> = None | Some(value: T) {

    function GetOrElse(default: T): T {
      if this.Some? then value else default
    }
  }

  /** `Refused` carries the reason an exception of the program stands for. */
  datatype Outcome<+T, +E> = Done(value: T) | Refused(error: E)
}
