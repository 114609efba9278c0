/** Option and Result, used for the Python code's `None` values and error returns. */
module Wrappers {

  datatype Option<+T> = None | Some(value: T) {
    /** Python's `x or default` / `dict.get(k, default)` on an optional value. */
    function GetOr(default: T): T {
      match this
      case Some(v) => v
      case None => default
    }
  }

  datatype Result<+R, +E> = Ok(value: R) | Err(error: E)

  function Min(a: int, b: int): int { if a <= b then a else b }

  function Max(a: int, b: int): int { if a >= b then a else b }
}
