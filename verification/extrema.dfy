/** Largest and smallest element of a non-empty list of reals (`Math.max` and
    `Math.min` over a spread array), and rounding to two decimals
    (`Number(x.toFixed(2))`). */
module Extrema {

  /** The largest element: it occurs in the list and bounds every element. */
  function SeqMax(xs: seq<real>): (m: real)
    requires |xs| > 0
    ensures exists i :: 0 <= i < |xs| && xs[i] == m
    ensures forall i :: 0 <= i < |xs| ==> xs[i] <= m
  {
    if |xs| == 1 then xs[0]
    else
      var rest := SeqMax(xs[1..]);
      if xs[0] >= rest then xs[0] else rest
  }

  /** The smallest element: it occurs in the list and is below every element. */
  function SeqMin(xs: seq<real>): (m: real)
    requires |xs| > 0
    ensures exists i :: 0 <= i < |xs| && xs[i] == m
    ensures forall i :: 0 <= i < |xs| ==> m <= xs[i]
  {
    if |xs| == 1 then xs[0]
    else
      var rest := SeqMin(xs[1..]);
      if xs[0] <= rest then xs[0] else rest
  }

  /** True of a whole number of hundredths. */
  predicate IsCents(r: real) {
    (r * 100.0).Floor as real == r * 100.0
  }

  /** Rounds a non-negative value to the nearest hundredth, ties upward. */
  function RoundHalfUp2(y: real): (r: real)
    requires y >= 0.0
    ensures r >= 0.0 && IsCents(r)
    ensures y - 1.0 / 200.0 < r <= y + 1.0 / 200.0
  {
    var n := (y * 100.0 + 0.5).Floor;
    assert (n as real / 100.0) * 100.0 == n as real;
    n as real / 100.0
  }

  /** `toFixed(2)` read back as a number: the magnitude is rounded to the
      nearest hundredth with ties away from zero, and the sign is kept. The
      result is a whole number of hundredths within half a hundredth of the
      input; a tie goes to the value of larger magnitude. */
  function Round2(x: real): (r: real)
    ensures -1.0 / 200.0 <= r - x <= 1.0 / 200.0
    ensures x >= 0.0 ==> x - 1.0 / 200.0 < r
    ensures x < 0.0 ==> r < x + 1.0 / 200.0
    ensures IsCents(r)
    ensures x >= 0.0 ==> r >= 0.0
    ensures r < 0.0 ==> x < 0.0
  {
    if x < 0.0 then
      var m := RoundHalfUp2(-x);
      var n := (m * 100.0).Floor;
      assert -m * 100.0 == -(n as real);
      assert ((-m) * 100.0).Floor == -n;
      -m
    else RoundHalfUp2(x)
  }
}
