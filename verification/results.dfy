/** Success-or-error results for the operations that can raise. */
module Results {

  /** The errors the modelled code can raise. */
  datatype Error =
    /** A true division by an integer zero (Python's ZeroDivisionError). */
    | ZeroDivision

  datatype Result<+T> = Success(value: T) | Failure(error: Error)
}
