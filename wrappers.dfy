/** Failure-carrying datatypes shared by the whole model. */
module Wrappers {

  /** Rust's Option. */
  datatype Option<+T> = None | Some(value: T)
  {
    /** Option::unwrap_or_default for strings and the like. */
    function GetOr(default: T): T
    {
      match this
      case Some(v) => v
      case None => default
    }
  }

  /** Rust's Result<T, E> with the error reduced to a message. */
  datatype Result<+T> = Ok(value: T) | Err(error: string)

  /** What a Rust call does as a whole: it returns a value or the thread panics. */
  datatype Outcome<+T> = Returned(result: T) | Panicked(message: string)

  /** The message `unwrap()` panics with. */
  const UnwrapPanic: string := "called `unwrap()` on an `Err` or `None` value"
}
