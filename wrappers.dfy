/** Option, Result and Outcome: how the model returns the Python code's None results and exceptions. */
module Wrappers {

  datatype Option<+X> = None | Some(value: X)

  datatype Result<+R, +E> = Success(value: R) | Failure(error: E)

  datatype Outcome<+E> = Pass | Fail(error: E)
}
