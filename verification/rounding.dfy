/**
  `round(t, 2)` on a temperature: the multiple of 0.01 closest to `t`,
  and of two equally close multiples the one with an even number of
  hundredths. The value is taken as the exact real it denotes.
 */
module Rounding {

  function Abs(x: real): real {
    if x < 0.0 then -x else x
  }

  /** Whether `x` is a whole number of hundredths. */
  predicate OnGrid(x: real) {
    (x * 100.0).Floor as real == x * 100.0
  }

  /** The number of hundredths that `round(t, 2)` keeps. */
  function Hundredths(t: real): (n: int)
    ensures Abs(n as real - t * 100.0) <= 0.5
    ensures Abs(n as real - t * 100.0) == 0.5 ==> n % 2 == 0
  {
    var scaled := t * 100.0;
    var low := scaled.Floor;
    var frac := scaled - low as real;
    if frac < 0.5 then low
    else if frac > 0.5 then low + 1
    else if low % 2 == 0 then low
    else low + 1
  }

  function Round2(t: real): (r: real)
    ensures OnGrid(r)
    ensures Abs(r - t) <= 0.005
  {
    var n := Hundredths(t);
    var r := n as real / 100.0;
    assert r * 100.0 == n as real;
    assert (r - t) * 100.0 == n as real - t * 100.0;
    r
  }

  /** No multiple of 0.01 lies closer to `t` than `Round2(t)`. */
  lemma Round2IsNearest(t: real, k: int)
    ensures Abs(Round2(t) - t) <= Abs(k as real / 100.0 - t)
  {
    var n := Hundredths(t);
    var d := t * 100.0;
    assert Abs(n as real - d) <= Abs(k as real - d) by {
      if k < n {
        assert k as real <= n as real - 1.0;
      } else if k > n {
        assert k as real >= n as real + 1.0;
      }
    }
    assert Abs(Round2(t) - t) * 100.0 == Abs(n as real - d);
    assert Abs(k as real / 100.0 - t) * 100.0 == Abs(k as real - d);
  }

  /** Rounding an already rounded value changes nothing. */
  lemma Round2Idempotent(t: real)
    ensures Round2(Round2(t)) == Round2(t)
  {
    var r := Round2(t);
    var n := Hundredths(t);
    assert r * 100.0 == n as real;
    assert Hundredths(r) == n;
  }
}
