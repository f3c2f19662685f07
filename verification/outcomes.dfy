/** Go's two error conventions, as the handler uses them. */
module Outcomes {

  /** A bare Go `error`: nil (Pass) or an error whose Error() text is `message`. */
  datatype Outcome = Pass | Fail(message: string)

  /** A Go `(T, error)` pair: exactly one of the two halves is meaningful. */
  datatype Result<+T> = Ok(value: T) | Err(message: string)
}
