/** Results, options and the failures the system can report. */
module Wrappers {

  datatype Option<+T> = None | Some(value: T) {
    function GetOr(default: T): T {
      match this
      case Some(v) => v
      case None => default
    }
  }

  /** One constructor per family of errors that the code distinguishes. `Overflow`,
      `DivideByZero` and `StackOverflow` stand for the panics of checked arithmetic,
      of `% 0` and of unbounded recursion. */
  datatype Error =
    | BadFormat
    | BadEncoding
    | NotRegistered
    | CompressionFailed
    | MissingChild
    | SlotOutOfBounds
    | PlaceholderRun
    | IoFailed
    | NoRoot
    | Overflow
    | DivideByZero
    | StackOverflow

  datatype Result<+T> = Ok(value: T) | Err(error: Error) {
    predicate IsFailure() {
      Err?
    }

    function PropagateFailure<U>(): Result<U>
      requires Err?
    {
      Err(error)
    }

    function Extract(): T
      requires Ok?
    {
      value
    }
  }
}
