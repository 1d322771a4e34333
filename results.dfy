/** Outcomes of the transformers. Every failure the library raises is a Python
    `ValueError`; the kind records which check raised it. */
module Results {

  datatype Error =
    | ConfigError      // invalid construction parameter (crop location, border, dropout, rotation)
    | FormatError      // value of the wrong kind or rank for the operator
    | SizeError        // window or border does not fit the example
    | DegenerateWeights  // weight array whose interior sums to zero

  datatype Result<+R> = Ok(value: R) | Err(error: Error)

  datatype Outcome = Pass | Fail(error: Error)

  datatype Option<+T> = None | Some(value: T)
}
