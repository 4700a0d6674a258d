/** Failure-carrying result types shared by the whole model. */
module Outcomes {

  /** A value that may be absent: Go's nil map, a failed decode. */
  datatype Option<+T> = None | Some(value: T)

  /** The outcome of a step that may raise a Go panic instead of
      returning. */
  datatype Outcome<+T> = Done(value: T) | Panic(reason: string)
}
