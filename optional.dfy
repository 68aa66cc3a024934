/** Option and Result, used for the source's nullable values and thrown exceptions. */
module Optional {

  /** A C# nullable value: `None` is `null`. */
  datatype Option<+T> = None | Some(value: T)

  /** A call that either returns a value or throws. */
  datatype Result<+T, +E> = Success(value: T) | Failure(error: E)

  /** A call without a result value that either returns normally or throws. */
  datatype Outcome = Completed | Threw
}
