/** Option and Result types shared by the model. A Java `null` result is `None`;
 *  a Java exception is a `Failure` carrying the exception's kind. */
module Wrappers {

  datatype Option<T> = None | Some(value: T)
  {
    predicate IsSome() { Some? }
  }

  /** The unchecked exceptions the modelled code can raise. */
  datatype Exception =
    | IndexOutOfBounds
    | NullPointer
    | NumberFormat
    | StringIndexOutOfBounds

  datatype Result<T> = Success(value: T) | Failure(error: Exception)
  {
    predicate IsFailure() { Failure? }
  }
}
