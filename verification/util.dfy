/** Small helpers shared by the chess model: an optional value and integer sign/absolute value. */
module Util {

  /** Stands in for a Java reference that may be null. */
  datatype Option<+T> = None | Some(value: T)

  /** Math.abs on the unbounded integers of the model. */
  function Abs(x: int): (r: nat)
    ensures r == x || r == -x
  {
    if x < 0 then -x else x
  }

  /** Integer.compare(a, b) as used for directions: the sign of b - a written as Sign(b - a). */
  function Sign(x: int): (r: int)
    ensures -1 <= r <= 1
    ensures (r == 1 <==> x > 0) && (r == -1 <==> x < 0) && (r == 0 <==> x == 0)
  {
    if x > 0 then 1 else if x < 0 then -1 else 0
  }
}
