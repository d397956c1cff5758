/** The result of a Python call that may raise: its value, or the exception's message. */
module Outcomes {
  datatype Outcome<T> = Done(value: T) | Raised(error: string)
}
