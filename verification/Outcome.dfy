/** Results of operations that report an error to the VA client. */
module Outcome {
  datatype Status =
    | InvalidBuffer | Unimplemented | InvalidParameter | InvalidSurface | InvalidImageFormat
    | OperationFailed | DecodingError | TimedOut | HwBusy | SurfaceBusy | NotEnoughBuffer | UnsupportedFormat
    | AllocationFailed

  datatype Result<+T> = Ok(value: T) | Err(status: Status) {
    predicate IsFailure() { Err? }

    function PropagateFailure<U>(): Result<U>
      requires Err?
    {
      Err(status)
    }

    function Extract(): T
      requires Ok?
    {
      value
    }
  }
}
