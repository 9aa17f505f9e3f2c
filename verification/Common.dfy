/** Value types shared by the models. */
module Common {

  /** A pointer that may be NULL, a timestamp that may be "no value". */
  datatype Option<+T> = None | Some(value: T)

  /** A call that returns a value or a negative error code. */
  datatype Result<+T, +E> = Success(value: T) | Failure(error: E)

  lemma Regroup<T>(a: seq<T>, b: seq<T>, c: seq<T>)
    ensures a + (b + c) == (a + b) + c
  {
  }

  function Min(x: int, y: int): int { if x <= y then x else y }

  function Max(x: int, y: int): int { if x <= y then y else x }

  /** The middle one of three integers. */
  function Median(x: int, y: int, z: int): int {
    if x <= y then (if y <= z then y else Max(x, z))
    else (if x <= z then x else Max(y, z))
  }
}
