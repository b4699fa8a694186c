/** Failure values shared by the whole model.

    The calculator is written in Python on top of numpy.  Indexing the first
    element of an empty list raises IndexError; a division by zero either
    raises ZeroDivisionError (Python floats) or yields nan/inf (numpy
    scalars).  Either way the value the source wanted is undefined, and the
    model reports it as a failure instead of a number. */
module Outcomes {

  datatype Error =
    | IndexError    // the first element of an empty list was requested
    | ZeroDivision  // a divisor (or a denominator) is zero

  datatype Result<+T> = Ok(value: T) | Err(error: Error)

  datatype Option<+T> = None | Some(value: T)
}
