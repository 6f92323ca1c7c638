/** Optional values and results whose failure is a human-readable message,
    the shape every operation of the application reports its errors in. */
module Wrappers {

  datatype Option<+T> = None | Some(value: T)

  /** A successful value, or the message of the error the source throws. */
  datatype Result<+T> = Ok(value: T) | Err(error: string)

  function Min(a: int, b: int): int { if a <= b then a else b }

}
