/** Go's `(value, error)` pairs and optional values. */
module Wrappers {

  datatype Option<T> = None | Some(value: T)

  /** A Go result pair: `Ok(v)` is `(v, nil)`, `Err(msg)` is a non-nil
      error whose message is `msg`. */
  datatype Result<T> = Ok(value: T) | Err(error: string)
}
