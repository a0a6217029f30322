/** Optional values and outcomes of operations that may raise. */
module Results {

  /** An optional value: Ruby's `nil` is `None`. */
  datatype Option<T> = None | Some(value: T)

  /** The outcome of an operation that may raise: `Failure` carries the raised error. */
  datatype Result<R, E> = Success(value: R) | Failure(error: E)
}
