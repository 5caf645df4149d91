/** Wrappers shared by the model: an optional value, a value-or-error result
    (the model of a thrown exception), and the `Math.min` of slice bounds. */
module Wrappers {

  function Min(a: nat, b: nat): (m: nat)
    ensures m <= a && m <= b && (m == a || m == b)
  {
    if a <= b then a else b
  }

  datatype Option<+T> = None | Some(value: T)

  datatype Result<+R, +E> = Success(value: R) | Failure(error: E)
}
