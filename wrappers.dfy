/** Optional values and results, standing in for Java's nullable references,
    `Optional<T>` and exceptions that the callers see. */
module Wrappers {

  datatype Option<+T> = None | Some(value: T)

  datatype Result<+T, +E> = Success(value: T) | Failure(error: E)
}
