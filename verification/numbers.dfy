/** Exact arithmetic the engine is built on: an exponential known only to be
    positive, the integer factorial, natural powers of a real, and finite sums
    of reals together with the algebra the other modules need about them. */
module Numbers {

  /** The exponential function. Nothing is known about it except that it is
      positive everywhere, so every property proved with it holds for the real
      exponential as well as for any other positive function. */
  type ExpFn = f: real -> real | forall x :: f(x) > 0.0 witness (x: real) => 1.0

  /** The exact integer factorial. */
  function Factorial(n: nat): (r: nat)
    ensures r >= 1
  {
    if n == 0 then 1 else n * Factorial(n - 1)
  }

  /** The factorial read as a real, the divisor of the Poisson formula.
      Kept as a function of its own so that the cast stays one term inside
      real products (see the note at `Sum`). */
  function FactorialReal(n: nat): (r: real)
    ensures r >= 1.0
  {
    Factorial(n) as real
  }

  /** `x` raised to a natural power. */
  function Pow(x: real, n: nat): (r: real)
    ensures x > 0.0 ==> r > 0.0
    ensures x >= 0.0 ==> r >= 0.0
    ensures n == 0 ==> r == 1.0
  {
    if n == 0 then 1.0 else x * Pow(x, n - 1)
  }

  /** Sum of a sequence of reals.

      A note on the style of the whole model: every finite sum here (this one,
      `JointScoreModel.Mass` and `Heatmap.MatrixSum`) is a one-line wrapper
      around the recursion that computes it (`SumLeft`, `MassLeft`,
      `MatrixSumLeft`), and the Poisson formula is spelled through the
      first-order `ScoreDistribution.MassQuotient` and `FactorialReal`. The wrappers change
      nothing in meaning; they keep a sum or quotient that appears as a factor
      of a real product one fixed term, so the solver does not unfold it while
      it reasons about the product. */
  function Sum(s: seq<real>): real
  {
    SumLeft(s)
  }

  /** Left-to-right accumulation behind `Sum`: the last element is added last. */
  function SumLeft(s: seq<real>): real
  {
    if |s| == 0 then 0.0 else SumLeft(s[..|s| - 1]) + s[|s| - 1]
  }

  /** Removing the last element takes it out of the sum. */
  lemma {:induction false} SumLast(s: seq<real>)
    requires |s| > 0
    ensures Sum(s) == Sum(s[..|s| - 1]) + s[|s| - 1]
  {
  }

  /** Every element divided by `d`. */
  function Divide(s: seq<real>, d: real): (r: seq<real>)
    requires d != 0.0
    ensures |r| == |s|
    decreases |s|
  {
    if |s| == 0 then [] else Divide(s[..|s| - 1], d) + [s[|s| - 1] / d]
  }

  ghost predicate AllPositive(s: seq<real>)
  {
    forall k :: 0 <= k < |s| ==> s[k] > 0.0
  }

  ghost predicate AllNonNegative(s: seq<real>)
  {
    forall k :: 0 <= k < |s| ==> s[k] >= 0.0
  }

  /** Real-field step used by the Poisson recurrence: multiplying the
      numerator by `m` and the denominator by `k`, then the whole by `k`,
      multiplies the original quotient by `m`. */
  lemma {:induction false} QuotientShift(e: real, p: real, m: real, k: real, f: real)
    requires k != 0.0 && f != 0.0
    ensures (e * (m * p) / (k * f)) * k == (e * p / f) * m
  {
  }

  /** One more factor of `x`. */
  lemma {:induction false} PowStep(x: real, n: nat)
    ensures Pow(x, n + 1) == x * Pow(x, n)
  {
  }

  /** One more factor in the factorial, read as reals. */
  lemma {:induction false} FactorialStep(n: nat)
    ensures FactorialReal(n + 1) == ((n + 1) as real) * FactorialReal(n)
  {
  }

  /** The sum of a concatenation is the sum of the parts. */
  lemma {:induction false} SumAppend(a: seq<real>, b: seq<real>)
    ensures Sum(a + b) == Sum(a) + Sum(b)
    decreases |b|
  {
    if |b| == 0 {
      assert a + b == a;
    } else {
      var b' := b[..|b| - 1];
      assert (a + b)[..|a + b| - 1] == a + b';
      SumLast(a + b);
      SumLast(b);
      SumAppend(a, b');
    }
  }

  /** Summing the elements one more step to the right adds that element. */
  lemma {:induction false} SumPrefixStep(s: seq<real>, n: nat)
    requires n < |s|
    ensures Sum(s[..n + 1]) == Sum(s[..n]) + s[n]
  {
    assert s[..n + 1][..n] == s[..n];
    SumLast(s[..n + 1]);
  }

  /** Each element of the result is the original element divided by `d`. */
  lemma {:induction false} DivideEntry(s: seq<real>, d: real, k: nat)
    requires d != 0.0 && k < |s|
    ensures Divide(s, d)[k] == s[k] / d
    decreases |s|
  {
    if k < |s| - 1 {
      var s' := s[..|s| - 1];
      DivideEntry(s', d, k);
      assert Divide(s, d)[k] == Divide(s', d)[k];
    }
  }

  /** Multiplication distributes over a sum already known to hold. */
  lemma {:induction false} RightDistribute(total: real, a: real, b: real, c: real)
    requires total == a + b
    ensures total * c == a * c + b * c
  {
  }

  /** Multiplication distributes over a sum already known to hold, with the
      common factor on the left. */
  lemma {:induction false} LeftDistribute(total: real, a: real, b: real, c: real)
    requires total == a + b
    ensures c * total == c * a + c * b
  {
  }

  /** Division distributes over a sum already known to hold. */
  lemma {:induction false} DivideDistribute(total: real, a: real, b: real, d: real)
    requires d != 0.0
    requires total == a + b
    ensures total / d == a / d + b / d
  {
  }

  /** A non-zero number divided by itself is 1. */
  lemma {:induction false} DivideSelf(d: real)
    requires d != 0.0
    ensures d / d == 1.0
  {
  }

  /** Anything times zero is zero. */
  lemma {:induction false} MulZero(a: real, b: real)
    requires b == 0.0
    ensures a * b == 0.0
  {
  }

  /** The product of two positive reals is positive. */
  lemma {:induction false} PositiveProduct(a: real, b: real)
    requires a > 0.0 && b > 0.0
    ensures a * b > 0.0
  {
  }

  /** Dividing every element divides the sum. */
  lemma {:induction false} SumDivide(s: seq<real>, d: real)
    requires d != 0.0
    ensures Sum(Divide(s, d)) == Sum(s) / d
    decreases |s|
  {
    if |s| > 0 {
      var s', x := s[..|s| - 1], s[|s| - 1];
      assert Divide(s, d)[..|s| - 1] == Divide(s', d);
      SumDivide(s', d);
      SumLast(s);
      SumLast(Divide(s, d));
      DivideDistribute(Sum(s), Sum(s'), x, d);
    }
  }

  /** A sum of positive terms is positive as soon as there is one term. */
  lemma {:induction false} SumPositive(s: seq<real>)
    requires AllPositive(s)
    ensures |s| > 0 ==> Sum(s) > 0.0
    ensures Sum(s) >= 0.0
    decreases |s|
  {
    if |s| > 0 {
      SumPositive(s[..|s| - 1]);
      SumLast(s);
    }
  }

  /** A sum of non-negative terms is non-negative. */
  lemma {:induction false} SumNonNegative(s: seq<real>)
    requires AllNonNegative(s)
    ensures Sum(s) >= 0.0
    decreases |s|
  {
    if |s| > 0 {
      SumNonNegative(s[..|s| - 1]);
      SumLast(s);
    }
  }
}
