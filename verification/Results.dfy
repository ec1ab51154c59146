/** Optional values and results, shared by the other modules. */
module Results {

  datatype Option<+T> = None | Some(value: T)

  /** Failure stands for the C++ exception that carries the given message. */
  datatype Result<+T> = Success(value: T) | Failure(error: string)
}
