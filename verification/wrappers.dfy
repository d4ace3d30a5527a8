/** Optional values and results that carry an error: the model's stand-ins
    for JavaScript's `undefined` properties and thrown errors. */
module Wrappers {

  datatype Option<+T> = None | Some(value: T)

  datatype Result<+T, +E> = Ok(value: T) | Err(error: E)
}
