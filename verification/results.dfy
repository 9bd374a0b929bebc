/** Optional values and the outcome of an asynchronous call that either
    resolves with a value or rejects. */
module Results {

  /** A value that may be absent (a missing store entry, an absent `data[0]`). */
  datatype Option<T> = None | Some(value: T)

  /** The settled state of a promise: resolved with a value, or rejected. */
  datatype Result<T> = Ok(value: T) | Failed
}
