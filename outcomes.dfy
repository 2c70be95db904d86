/**
 * The failure kinds raised by the toolkit, and a result type that carries
 * either a value or the failure an operation ends with.
 */
module Outcomes {

  datatype Error =
    | VectorLengthMismatch   // IllegalArgumentException("Vectors are not of equal lengths")
    | ShapeMismatch          // VectorLengthException("Vector lengths are not uniform.")
    | IndexOutOfBounds       // an explicit bounds check that throws
    | ArrayIndexOutOfBounds  // an array access past the end
    | DivisionByZero         // IllegalArgumentException("Argument 'scalar' is 0")
    | MissingEntry           // a null Integer/Double unboxed after a failed map lookup
    | NegativeLength         // IllegalArgumentException("Length must be a positive integer.")
    | ContainerSizeMismatch  // IllegalArgumentException("Containers are not of equal size.")
    | NegativeCapacity       // IllegalArgumentException from a HashMap given a negative capacity

  datatype Result<+T> = Ok(value: T) | Err(error: Error)

  /** The outcome of a void Java method that may throw. */
  datatype Outcome = Pass | Fail(error: Error)
}
