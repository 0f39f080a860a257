/** Failure-compatible result types shared by the three compiler stages,
    and the fatal diagnostics every stage can raise. */
module Wrappers {

  datatype Option<+T> = None | Some(value: T)

  datatype Result<+R> = Success(value: R) | Failure(error: Error) {

    predicate IsFailure() {
      Failure?
    }

    function PropagateFailure<U>(): Result<U>
      requires Failure?
    {
      Failure(error)
    }

    function Extract(): R
      requires Success?
    {
      value
    }
  }

  /** A fatal diagnostic. `ErrorAt` is a position-pointing message (the
      position is a character offset into the source, or -1 for the end
      marker); `Fatal` is a message without a position (a thrown
      exception or an internal generator error); `Diverges` stands for a
      loop that makes no progress, so the stage never returns. */
  datatype Error =
    | ErrorAt(pos: int, msg: string)
    | Fatal(msg: string)
    | Diverges
}
