/** Failure-compatible wrappers used across the model, and the exceptions the
    generator can raise. A C# `null` is `None`; a thrown exception is `Failure`. */
module Wrappers {

  datatype Option<+T> = None | Some(value: T) {
    function GetOr(default: T): T {
      match this
      case Some(v) => v
      case None => default
    }
  }

  datatype Result<+T, +E> = Success(value: T) | Failure(error: E) {
    predicate IsFailure() {
      Failure?
    }

    function PropagateFailure<U>(): Result<U, E>
      requires Failure?
    {
      Failure(error)
    }

    function Extract(): T
      requires Success?
    {
      value
    }
  }

  /** The .NET exceptions that escape the generator's operations. */
  datatype Exception =
    | ArgumentNull                      // ArgumentNullException
    | ArgumentEmpty                     // ArgumentException: "input cannot be empty"
    | NotImplemented(schemaType: Option<string>)  // NotImplementedException of GetTypeFromKey
    | IndexOutOfRange                   // indexing a string or array past its end
    | DuplicateKey(key: string)         // Dictionary.Add with a key already present
    | OneOfUndetermined                 // ArgumentException: the oneOf variant could not be determined
    | PropertyNotFound(key: string)     // ArgumentException: a read value has no property
    | ValueNotAssignable(property: string)  // ArgumentException of SetValue: the value's type does not fit the property
    | IncompleteJson                    // UnreachableException: the reader ran out of tokens
    | WriteNotImplemented               // NotImplementedException of the converter's Write
}
