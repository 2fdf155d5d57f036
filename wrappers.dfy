/** Option and Result, the two wrappers the composition engine needs. */
module Wrappers {

  /** A value that may be absent (JavaScript `undefined`/`null`). */
  datatype Option<+T> = None | Some(value: T)

  /** The outcome of work that may fail, such as a registry lookup. */
  datatype Result<+T> = Success(value: T) | Failure(error: string)
}
