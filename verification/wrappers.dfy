/** Optional values and the two ways an operation can end. */
module Wrappers {

  datatype Option<+T> = None | Some(value: T)

  /** `Err` stands for a thrown error: the enclosing mutation saves nothing. */
  datatype Result<+T, +E> = Ok(value: T) | Err(error: E)

  /** An injective hash: two values have the same digest exactly when they are the same. */
  datatype Digest<+T> = Digest(preimage: T)

  function Max(a: int, b: int): int { if a < b then b else a }

  function Min(a: int, b: int): int { if a < b then a else b }

  /** `Math.max(low, Math.min(value ?? default, high))` */
  function Clamp(value: Option<int>, default: int, low: int, high: int): (r: int)
    ensures low <= high ==> low <= r <= high
    ensures value.None? && low <= default <= high ==> r == default
    ensures value.Some? && low <= value.value <= high ==> r == value.value
    ensures value.Some? && value.value <= low <= high ==> r == low
    ensures value.Some? && low <= high <= value.value ==> r == high
  {
    Max(low, Min(if value.Some? then value.value else default, high))
  }
}
