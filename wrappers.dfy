/** Small helpers shared by the modules of the model. */
module Wrappers {

  /** A value that may be absent: JavaScript `null`, Python `None`, a failed call. */
  datatype Option<+T> = None | Some(value: T)

  function Min(a: int, b: int): int
  {
    if a <= b then a else b
  }
}
