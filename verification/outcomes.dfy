/** Failure-carrying results shared by every component of the planner.
    Each constructor of `Error` names one place where the Python code raises. */
module Outcomes {

  datatype Error =
    | InvalidCoefficients     // QuinticPolynomial: a single argument that is not six long (ValueError)
    | MissingArgument         // QuinticPolynomial(): args[0] of an empty argument tuple (IndexError)
    | NotASequence            // QuinticPolynomial(x, ...): len() of a number (TypeError)
    | InvalidBoundary         // compute_coeffs: boundary arrays not six long (ValueError)
    | DisplacementOutOfRange  // parameter_at_displacement / get_correct_segment range check
    | RootNotFound            // the root finder gave no root
    | ParameterOutOfRange     // the root lies outside [-0.01, 1.01]
    | ZeroDivision            // a Python division by zero
    | HeadingMismatch         // constant heading interpolator with start != end
    | CountMismatch           // make_path: point and tangent counts differ
    | TooFewPoints            // make_path: exactly one point
    | DuplicatePoints         // make_path: null segment
    | SegmentNotFound         // get_correct_segment: no segment covers the displacement
    | IndexOutOfRange         // a Python list index outside the list
    | NegativeSampleCount     // numpy.linspace with a negative sample count
    | MathDomain              // math.sqrt of a negative number

  datatype Result<+T> = Ok(value: T) | Err(error: Error)

  datatype Outcome = Pass | Fail(error: Error)

  datatype Option<+T> = None | Some(value: T)
}
