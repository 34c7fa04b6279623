/** How a fallible operation of the modelled Python code ends. */
module Outcomes {

  datatype Option<+T> = None | Some(value: T) {

    function GetOr(default: T): T {
      if Some? then value else default
    }
  }

  /** Normal return, a raised error, or a process that stopped for good. */
  datatype Ended<+T, +R> = Done(value: T) | Raised(reason: R) | Killed {

    predicate IsFailure() {
      !Done?
    }

    function PropagateFailure<U>(): Ended<U, R>
      requires !Done?
    {
      if Raised? then Raised(reason) else Killed
    }

    function Extract(): T
      requires Done?
    {
      value
    }
  }

  /** Normal return or a raised error. */
  datatype Result<+T, +R> = Ok(value: T) | Err(reason: R)
}
