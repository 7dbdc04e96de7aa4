/** Optional values and the outcome of a decoder that may throw. */
module Wrappers {

  /** Swift's `T?`. */
  datatype Option<+T> = None | Some(value: T) {
    function GetOr(default: T): T {
      match this
      case Some(v) => v
      case None => default
    }
  }

  /** The error the dictionary decoders throw: `DecodingError.dataCorrupted`,
      carrying its debug description. A failure of the geometry's JSON step,
      whatever Foundation throws there, is represented by this case as well. */
  datatype DecodingError = DataCorrupted(description: string)

  /** The outcome of a throwing initializer: the decoded record, or what it threw.
      Supports `:-`, which plays the part of Swift's `try`. */
  datatype Result<+T> = Ok(value: T) | Err(error: DecodingError) {
    predicate IsFailure() {
      Err?
    }

    function PropagateFailure<U>(): Result<U>
      requires Err?
    {
      Err(error)
    }

    function Extract(): T
      requires Ok?
    {
      value
    }
  }
}
