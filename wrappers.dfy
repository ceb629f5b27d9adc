/** Optional values and results with an error path, shared by the other modules. */
module Wrappers {

  datatype Option<+T> = None | Some(value: T)

  /** The outcome of a step that Python would end by raising an exception. */
  datatype Result<+R> = Success(value: R) | Failure(error: string)
}
