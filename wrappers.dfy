/** Optional values and results with an error message, used wherever the
    portal works with `null`, `undefined` or a thrown error. */
module Wrappers {

  datatype Option<T> = None | Some(value: T)

  datatype Result<T> = Ok(value: T) | Err(message: string)
}
