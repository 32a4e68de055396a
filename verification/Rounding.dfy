/** Python's `round`: to the nearest integer, halves to the even one. */
module Rounding {

  function RoundHalfEven(x: real): (n: int)
    ensures -0.5 <= x - n as real <= 0.5
    ensures x - n as real == 0.5 || x - n as real == -0.5 ==> n % 2 == 0
  {
    var f := x.Floor;
    var d := x - f as real;
    if d < 0.5 || (d == 0.5 && f % 2 == 0) then f else f + 1
  }
}
