/** Small value types shared by every module: an optional value (the
    source's `null`/`undefined`) and a success-or-error result (the source's
    thrown errors and `{ ok: false, error }` returns). */
module Common {

  datatype Option<+T> = None | Some(value: T)

  datatype Result<+T, +E> = Success(value: T) | Failure(error: E)

  function Min(a: int, b: int): int
  {
    if a <= b then a else b
  }

  function Max(a: int, b: int): int
  {
    if a >= b then a else b
  }
}
