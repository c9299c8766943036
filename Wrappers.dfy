/** Option and Result, plus the .NET exceptions the modelled code can raise. */
module Wrappers {

  /** A value or its absence; stands for a C# reference or nullable that may be null. */
  datatype Option<+T> = None | Some(value: T) {
    /** The value, or `default` when there is none (C#'s `??`). */
    function GetOr(default: T): T {
      match this
      case Some(v) => v
      case None => default
    }
  }

  /** The exceptions the modelled code throws, named after their .NET types and causes. */
  datatype Error =
    | KeyNotFound(key: string)      // Dictionary indexer on a missing key (KeyNotFoundException)
    | DuplicateKey(key: string)     // Dictionary.Add on a present key (ArgumentException)
    | EmptySequence                 // Enumerable.First on an empty dictionary (InvalidOperationException)
    | MoreThanOneMatch              // Enumerable.SingleOrDefault over two matches (InvalidOperationException)
    | InvalidCast                   // `(string)value` on a value that is not a string (InvalidCastException)
    | NoSuchColumn(name: string)    // SqlDataReader.GetOrdinal on an unknown column (IndexOutOfRangeException)
    | NullTarget                    // PropertyInfo.GetValue on a null object (TargetException)

  /** The outcome of an operation that can throw. */
  datatype Result<+T> = Ok(value: T) | Err(error: Error) {
    predicate IsFailure() {
      Err?
    }

    function PropagateFailure<U>(): Result<U>
      requires Err?
    {
      Err(error)
    }

    function Extract(): T
      requires Ok?
    {
      value
    }
  }
}
