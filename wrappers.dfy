/** Optional values and results with a typed failure, used for the
    resolvers' "null" answers and thrown errors. */
module Wrappers {

  datatype Option<+T> = None | Some(value: T)

  datatype Result<+T, +E> = Ok(value: T) | Err(error: E)
}
