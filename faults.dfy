/** An operation either returns a value or lets a runtime exception escape to its caller. */
module Faults {

  /** The runtime exceptions that can escape the modelled code. */
  datatype Exception = NullReference | DivideByZero

  datatype Outcome<+T> = Returned(value: T) | Raised(exception: Exception)
}
