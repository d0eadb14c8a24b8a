/** Option and Result datatypes used throughout the model.
    Option stands for Kotlin's nullable types (`T?`); Result stands for a
    computation that may end in one of the exceptions the library throws. */
module Wrappers {

  /** A nullable value: `None` is Kotlin's `null`. */
  datatype Option<+T> = None | Some(value: T) {

    /** The value, or `default` when absent (Kotlin's `?:`). */
    function GetOr(default: T): T {
      match this
      case Some(v) => v
      case None => default
    }
  }

  /** The exceptions the modelled code can raise. */
  datatype Failure =
    | NullPointer                   // a `!!` on a null value
    | StringIndexOutOfBounds        // `substring` with bad bounds
    | IllegalArgument               // `IllegalArgumentException`
    | IllegalState                  // `IllegalStateException`
    | NotFound(songId: int)         // `Resources.NotFoundException`

  /** Either a value or the exception that ended the computation. */
  datatype Result<+T> = Ok(value: T) | Err(failure: Failure) {

    predicate IsFailure() {
      Err?
    }

    function PropagateFailure<U>(): Result<U>
      requires Err?
    {
      Err(failure)
    }

    function Extract(): T
      requires Ok?
    {
      value
    }
  }
}
