/**
 * `Number.prototype.toFixed(2)` on exact values: the two-decimal number
 * nearest to `x`, a tie going to the larger magnitude (toFixed rounds the
 * absolute value half up and puts the sign back).
 */
module Rounding {

  /** The number of hundredths `x.toFixed(2)` shows. */
  function Cents(x: real): (n: int)
    ensures x * 100.0 - 0.5 <= n as real <= x * 100.0 + 0.5
    ensures x >= 0.0 ==> n >= 0
    ensures x <= 0.0 ==> n <= 0
    ensures x >= 0.0 ==> n as real - 0.5 <= x * 100.0 < n as real + 0.5
    ensures x < 0.0 ==> n as real - 0.5 < x * 100.0 <= n as real + 0.5
  {
    if x < 0.0 then -((-x * 100.0 + 0.5).Floor) else (x * 100.0 + 0.5).Floor
  }

  /** `Number(x.toFixed(2))`. */
  function Round2(x: real): (r: real)
    ensures -0.005 <= r - x <= 0.005
    ensures r * 100.0 == Cents(x) as real
  {
    Cents(x) as real / 100.0
  }

  /** Rounding a value that already has two decimals gives it back. */
  lemma Round2Idempotent(x: real)
    ensures Round2(Round2(x)) == Round2(x)
  {
    var n := Cents(x);
    var r := Round2(x);
    assert r * 100.0 == n as real;
    if r < 0.0 {
      assert (-r * 100.0 + 0.5).Floor == -n;
    } else {
      assert (r * 100.0 + 0.5).Floor == n;
    }
  }
}
