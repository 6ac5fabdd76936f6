/** The error codes of alignment/errors.mjs that the modelled functions raise. */
module AlignmentErrors {
  import opened Optional

  datatype Code =
    | InvalidSeries
    | InvalidRange
    | InvalidOptions
    | InvalidMapping
    | DimensionMismatch
    | LimitExceeded
    | DtwFailed
    | OutsideMapping

  datatype Result<+T> = Ok(value: T) | Err(code: Code) {
    /** The code of a failure. */
    function Failure(): Option<Code> { if Ok? then None else Some(code) }
  }
}
