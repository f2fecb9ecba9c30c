/** Small helpers used throughout the model: the optional value that stands for a nullable
    column or a missing dictionary entry, and arithmetic. */
module Wrappers {
  datatype Option<+T> = None | Some(value: T)

  function Max(a: int, b: int): int { if a < b then b else a }

  function Min(a: int, b: int): int { if a < b then a else b }

  function NonNegative(x: real): real { if x < 0.0 then 0.0 else x }
}
