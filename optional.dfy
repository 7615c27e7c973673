/** Option and Result wrappers shared by the modules of this model. */
module Optional {

  /** A value that may be missing: a JavaScript `undefined`/`null` or a Python name not yet bound. */
  datatype Option<+T> = None | Some(value: T)

  /** The outcome of an operation that can raise. */
  datatype Result<+T, +E> = Success(value: T) | Failure(error: E)
}
