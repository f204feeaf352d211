/** Small value wrappers shared by the other modules. */
module Common {

  /** An optional value: `None` stands for JavaScript's `undefined` / an absent argument. */
  datatype Option<+T> = None | Some(value: T)

  /** The outcome of an operation that may throw. */
  datatype Result<+T, +E> = Success(value: T) | Failure(error: E)
}
