/** Optional values, results and the small integer helpers shared by the models of both source files. */
module Wrappers {

  datatype Option<+T> = None | Some(value: T)

  /** The outcome of an operation that may raise one of the source's exceptions. */
  datatype Result<+T, +E> = Ok(value: T) | Err(error: E)

  /** Math.min in JavaScript, min in Python, on two integers. */
  function Min(a: int, b: int): int {
    if a < b then a else b
  }
}
