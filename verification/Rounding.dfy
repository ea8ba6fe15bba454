/** Python's `round`, over exact reals: the nearest integer, ties to the even one. */
module Rounding {

  function PyRound(x: real): (r: int)
    ensures -0.5 <= r as real - x <= 0.5
    ensures (r as real - x == 0.5 || r as real - x == -0.5) ==> r % 2 == 0
  {
    var floor := x.Floor;
    var rest := x - floor as real;
    if rest < 0.5 || (rest == 0.5 && floor % 2 == 0) then floor else floor + 1
  }

  /** `round(x, 2)`. */
  function Round2(x: real): (r: real)
    ensures -0.005 <= r - x <= 0.005
  {
    PyRound(x * 100.0) as real / 100.0
  }

  lemma PyRoundMonotone(x: real, y: real)
    requires x <= y
    ensures PyRound(x) <= PyRound(y)
  {
    // Results in the wrong order would both be half a unit off, so x == y.
  }

  lemma PyRoundInteger(n: int)
    ensures PyRound(n as real) == n
  {
  }

  lemma Round2Monotone(x: real, y: real)
    requires x <= y
    ensures Round2(x) <= Round2(y)
  {
    PyRoundMonotone(x * 100.0, y * 100.0);
  }

  lemma Round2Integer(n: int)
    ensures Round2(n as real) == n as real
  {
    assert n as real * 100.0 == (n * 100) as real;
    PyRoundInteger(n * 100);
  }
}
