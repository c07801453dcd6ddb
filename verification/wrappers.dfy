/** Option and Result values: the model's stand-ins for C# null references and for
    exceptions that a caller turns into a failure response. */
module Wrappers {

  datatype Option<+T> = None | Some(value: T)

  datatype Result<+R, +E> = Success(value: R) | Failure(error: E)
}
