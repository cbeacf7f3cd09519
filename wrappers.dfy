/** Absence-of-value, the role Python's `None` plays throughout the pipeline. */
module Wrappers {

  datatype Option<+T> = None | Some(value: T)

  function Min(a: int, b: int): int
  {
    if a <= b then a else b
  }
}
