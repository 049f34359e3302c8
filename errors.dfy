/** The error values the id service returns. Go returns them as `error`
    values built with `fmt.Errorf`; here each message is one constructor. */
module Errors {

  datatype Error =
    /** `illegal number of bits: %d, %d, %d` from the generator's constructor */
    | IllegalNumberOfBits(timestampBitNum: int, dataCenterBitNum: int, serviceIdBitNum: int)
      /** Go's run-time panic for a negative shift count, raised by the
          constructor when the three widths add up to more than 64 */
    | NegativeShiftCount
      /** `center clock is moving backwards` */
    | ClockMovingBackwards
      /** `center clock failure`: the timestamp field is exhausted */
    | ClockFailure
      /** `no such generating algorithm` from the manager */
    | NoSuchAlgorithm
      /** `illegal id generator type, need snowflake algorithm` from the runner */
    | IllegalGeneratorType

  /** A value or the error that stands in for it, as Go's `(T, error)` pairs. */
  datatype Result<+T> = Ok(value: T) | Err(error: Error)
}
