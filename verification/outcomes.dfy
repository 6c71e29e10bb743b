/** The two exceptions the library throws, as values. */
module Outcomes {

  /** `std::out_of_range` (bad row/column in the builder) and
      `std::length_error` (operand sizes that disagree). */
  datatype Error = OutOfRange | LengthError

  /** Either the value a call returns or the exception it throws. */
  datatype Result<+T> = Success(value: T) | Failure(error: Error)
}
