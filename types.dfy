/** Option and Result wrappers shared by every module of the model. */
module Types {
  /** An optional value: JavaScript's `null` / `undefined` on one side, a value on the other. */
  datatype Option<+T> = None | Some(value: T)

  /** The outcome of an operation that either produces a value or stops with an error reply. */
  datatype Result<+T, +E> = Ok(value: T) | Err(error: E)
}
