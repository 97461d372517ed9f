/** The margin diagnostic `calculate_margin_difference`: how far a price lies
    below a margin target, rounded to two decimals the way Python's
    `round(x, 2)` does, to the nearest hundredth with ties to even. */
module MarginAnalyzer {

  /** Distance between two reals. */
  function Dist(a: real, b: real): (d: real)
    ensures d >= 0.0
    ensures d == 0.0 <==> a == b
  {
    if a >= b then a - b else b - a
  }

  /** The nearest integer to `y`, a tie going to the even neighbour. */
  function RoundHalfEven(y: real): (n: int)
    ensures Dist(n as real, y) <= 0.5
    ensures Dist(n as real, y) == 0.5 ==> n % 2 == 0
  {
    var f := y.Floor;
    var frac := y - f as real;
    if frac < 0.5 then f
    else if frac > 0.5 then f + 1
    else if f % 2 == 0 then f
    else f + 1
  }

  /** No integer is closer to `y` than its rounding. */
  lemma {:induction false} RoundHalfEvenNearest(y: real, k: int)
    ensures Dist(RoundHalfEven(y) as real, y) <= Dist(k as real, y)
  {
    var f := y.Floor;
    assert f as real <= y < f as real + 1.0;
    if k > f + 1 {
      assert k as real >= f as real + 2.0;
    } else if k < f {
      assert k as real <= f as real - 1.0;
    }
  }

  /** Rounding an integer gives it back. */
  lemma {:induction false} RoundHalfEvenInteger(k: int)
    ensures RoundHalfEven(k as real) == k
  {
    assert (k as real).Floor == k;
  }

  /** Rounding never reverses the order of two reals. */
  lemma {:induction false} RoundHalfEvenMonotone(y: real, z: real)
    requires y <= z
    ensures RoundHalfEven(y) <= RoundHalfEven(z)
  {
    var f, g := y.Floor, z.Floor;
    assert f <= g;
    if f < g {
      assert RoundHalfEven(y) <= f + 1 && g <= RoundHalfEven(z);
    }
  }

  /** `round(x, 2)`: the nearest multiple of 0.01, ties to the even
      hundredth. */
  function Round2(x: real): (r: real)
    ensures Dist(r, x) <= 0.005
    ensures r * 100.0 == (r * 100.0).Floor as real
  {
    (RoundHalfEven(x * 100.0) as real) / 100.0
  }

  /** No multiple of 0.01 is closer to `x` than `Round2(x)`. */
  lemma {:induction false} Round2Nearest(x: real, k: int)
    ensures Dist(Round2(x), x) <= Dist((k as real) / 100.0, x)
  {
    RoundHalfEvenNearest(x * 100.0, k);
    ScaleDist(RoundHalfEven(x * 100.0) as real, x * 100.0);
    ScaleDist(k as real, x * 100.0);
  }

  /** Distances shrink a hundredfold when both points do. */
  lemma {:induction false} ScaleDist(a: real, b: real)
    ensures Dist(a / 100.0, b / 100.0) * 100.0 == Dist(a, b)
  {
  }

  /** A value already given in hundredths is left unchanged. */
  lemma {:induction false} Round2Hundredths(k: int)
    ensures Round2((k as real) / 100.0) == (k as real) / 100.0
  {
    assert (k as real) / 100.0 * 100.0 == k as real;
    RoundHalfEvenInteger(k);
  }

  /** Rounding twice is rounding once. */
  lemma {:induction false} Round2Idempotent(x: real)
    ensures Round2(Round2(x)) == Round2(x)
  {
    Round2Hundredths(RoundHalfEven(x * 100.0));
  }

  /** Rounding never reverses the order of two reals. */
  lemma {:induction false} Round2Monotone(x: real, y: real)
    requires x <= y
    ensures Round2(x) <= Round2(y)
  {
    RoundHalfEvenMonotone(x * 100.0, y * 100.0);
  }

  /** `calculate_margin_difference`: the target minus the price, rounded to
      two decimals. */
  function MarginDifference(odds: real, marginTarget: real): (d: real)
    ensures Dist(d, marginTarget - odds) <= 0.005
  {
    Round2(marginTarget - odds)
  }

  /** A price equal to the target leaves no margin. */
  lemma {:induction false} MarginDifferenceAtTarget(odds: real)
    ensures MarginDifference(odds, odds) == 0.0
  {
    Round2Hundredths(0);
  }

  /** A longer price never leaves a larger margin against the same target. */
  lemma {:induction false} MarginDifferenceDecreasing(odds1: real, odds2: real, marginTarget: real)
    requires odds1 <= odds2
    ensures MarginDifference(odds2, marginTarget) <= MarginDifference(odds1, marginTarget)
  {
    Round2Monotone(marginTarget - odds2, marginTarget - odds1);
  }

  /** A higher target never leaves a smaller margin against the same price. */
  lemma {:induction false} MarginDifferenceIncreasingInTarget(odds: real, target1: real, target2: real)
    requires target1 <= target2
    ensures MarginDifference(odds, target1) <= MarginDifference(odds, target2)
  {
    Round2Monotone(target1 - odds, target2 - odds);
  }

  /** When price and target are both given in hundredths, as the input
      widgets step them, the difference is exact: rounding changes nothing. */
  lemma {:induction false} MarginDifferenceExact(oddsCents: int, targetCents: int)
    ensures MarginDifference((oddsCents as real) / 100.0, (targetCents as real) / 100.0)
         == ((targetCents - oddsCents) as real) / 100.0
  {
    assert (targetCents as real) / 100.0 - (oddsCents as real) / 100.0 == ((targetCents - oddsCents) as real) / 100.0;
    Round2Hundredths(targetCents - oddsCents);
  }

  /** The default home-win price against the default match-result target. */
  lemma {:induction false} MarginDifferenceDefaultHomeWin()
    ensures MarginDifference(2.50, 4.95) == 2.45
  {
    MarginDifferenceExact(250, 495);
  }
}
