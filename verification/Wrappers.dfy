/** The two result shapes used across the project. */
module Wrappers {

  datatype Option<+T> = None | Some(value: T)

  /** A call that either returns a value or raises. */
  datatype Result<+T> = Ok(value: T) | Raised

  /** What happened, step by step; the last step is outermost. */
  datatype Trace<T> = Start | Then(before: Trace<T>, step: T)

  function Append<T>(first: Trace<T>, second: Trace<T>): Trace<T> {
    match second
    case Start => first
    case Then(before, step) => Then(Append(first, before), step)
  }

  function Min(a: int, b: int): int {
    if a < b then a else b
  }
}
