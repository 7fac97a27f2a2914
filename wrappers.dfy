/** Option and Result, the shapes the model uses for "may be absent" and "may raise". */
module Wrappers {

  datatype Option<T> = None | Some(value: T)

  datatype Result<T, E> = Success(value: T) | Failure(error: E)
}
