/** Failure-carrying wrappers used throughout the model. */
module Results {

  /** A value that may be absent: Python's `None` return of `get_json(silent=True)`,
      of `json.loads` failing, or of a message without content. */
  datatype Option<+T> = None | Some(value: T)

  /** Either a computed value or the reason the computation gave up. */
  datatype Result<+T, +E> = Success(value: T) | Failure(error: E)
}
