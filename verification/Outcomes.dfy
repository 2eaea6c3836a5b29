/** Results shared by every component: an optional value, a value or a
    rejected argument, and the outcome of calling a collaborator that may raise. */
module Outcomes {
  datatype Option<+T> = None | Some(value: T) {
    function GetOr(default: T): T {
      if Some? then value else default
    }
  }

  /** A computed value, or the ValueError the source raises instead. */
  datatype Result<+T> = Ok(value: T) | ValueError

  /** What calling a collaborator produced: a value, or an exception known by its type name. */
  datatype Outcome<+T> = Returned(value: T) | Raised(exception: string)
}
