/**
 * `Math.Round(decimal, 2)` as .NET defines it: round to the nearest
 * hundredth, and when the value lies exactly half-way between two
 * hundredths, pick the one whose last digit is even ("banker's rounding",
 * MidpointRounding.ToEven, the default when no mode is passed).
 */
module DecimalRounding {

  /** Distance between two reals. */
  function Abs(x: real): real {
    if x < 0.0 then -x else x
  }

  /** The integer nearest to `y`; a tie goes to the even neighbour. */
  function RoundToEven(y: real): (n: int)
    ensures Abs(n as real - y) <= 0.5
    ensures Abs(n as real - y) == 0.5 ==> n % 2 == 0
  {
    var f := y.Floor;
    var frac := y - f as real;
    if frac < 0.5 then f
    else if frac > 0.5 then f + 1
    else if f % 2 == 0 then f
    else f + 1
  }

  /** The two properties of RoundToEven determine its value. */
  lemma RoundToEvenUnique(y: real, m: int)
    requires Abs(m as real - y) <= 0.5
    requires Abs(m as real - y) == 0.5 ==> m % 2 == 0
    ensures m == RoundToEven(y)
  {
  }

  /** An amount with no digits beyond the hundredths. */
  predicate IsWholeCents(x: real) {
    (x * 100.0).Floor as real == x * 100.0
  }

  /** `Math.Round(x, 2)` on a decimal. */
  function Round2(x: real): (r: real)
    ensures IsWholeCents(r)
    ensures Abs(r - x) <= 0.005
    ensures Abs(r - x) == 0.005 ==> (r * 100.0).Floor % 2 == 0
  {
    RoundToEven(x * 100.0) as real / 100.0
  }

  /** Rounding an amount that is already in whole cents leaves it as it is; so Round2 is idempotent. */
  lemma Round2KeepsWholeCents(x: real)
    requires IsWholeCents(x)
    ensures Round2(x) == x
  {
    var n := (x * 100.0).Floor;
    assert Abs(n as real - x * 100.0) == 0.0;
    RoundToEvenUnique(x * 100.0, n);
  }

  /** Rounding twice is rounding once. */
  lemma Round2Idempotent(x: real)
    ensures Round2(Round2(x)) == Round2(x)
  {
    Round2KeepsWholeCents(Round2(x));
  }
}
