/** Values that may be missing, and computations that may fail. */
module Wrappers {

  datatype Option<+T> = None | Some(value: T)

  /** The value, or `default` when there is none. */
  function GetOr<T>(o: Option<T>, default: T): T {
    match o case Some(v) => v case None => default
  }

  datatype Result<+T> = Ok(value: T) | Err(error: string)
}
