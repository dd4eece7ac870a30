// Python's `round` and `int` on numbers with a fraction. Binary floating point is not
// modelled: the numbers are real.

module Rounding {

  // To the nearest whole number, halves to the even one.
  function Round(x: real): int {
    var below := x.Floor;
    var rest := x - below as real;
    if rest < 0.5 then below
    else if rest > 0.5 then below + 1
    else if below % 2 == 0 then below else below + 1
  }

  // No other whole number is as near, or it is as near and odd.
  lemma RoundExactlyWhen(x: real, n: int)
    ensures Round(x) == n <==>
            && n as real - 0.5 <= x <= n as real + 0.5
            && (x == n as real - 0.5 || x == n as real + 0.5 ==> n % 2 == 0)
  {
  }

  // Towards zero.
  function Truncate(x: real): (n: int)
    ensures x >= 0.0 ==> 0.0 <= n as real <= x < n as real + 1.0
    ensures x <= 0.0 ==> n as real - 1.0 < x <= n as real <= 0.0
  {
    if x >= 0.0 then x.Floor else -(-x).Floor
  }
}
