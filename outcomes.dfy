/** Small result types shared by the other modules. */
module Outcomes {

  datatype Option<T> = None | Some(value: T)

  /** What a synchronous shell invocation gives back: its standard output,
      or the diagnostic of a non-zero exit. */
  datatype Result<T, E> = Success(value: T) | Failure(error: E)
}
