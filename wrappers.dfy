/** Small value wrappers shared by the other modules. */
module Wrappers {

  /** A value that may be missing: a failed call, a raised exception. */
  datatype Option<+T> = None | Some(value: T)

  function Min(a: int, b: int): (m: int)
  {
    if a <= b then a else b
  }
}
