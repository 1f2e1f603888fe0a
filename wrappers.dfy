/** Option and Result, the two outcome shapes the model uses for
    Python's `None` returns and raised lookups. */
module Wrappers {

  datatype Option<+T> = None | Some(value: T)

  datatype Result<+R, +E> = Success(value: R) | Failure(error: E)
}
