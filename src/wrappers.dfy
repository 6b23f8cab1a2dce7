/** Option and Result values used where the C# code returns a sentinel or an
    (ok, value, message) triple. */
module Wrappers {

  datatype Option<+T> = None | Some(value: T)

  datatype Result<+T> = Success(value: T) | Failure(error: string)
}
