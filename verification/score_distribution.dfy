/** The Poisson model of one side's goal count (`poisson_prob` and the two
    per-side probability lists of `calculate_probabilities`). */
module ScoreDistribution {
  import opened Numbers

  /** How many goal counts `range(maxGoals + 1)` enumerates: 0..maxGoals, and
      none at all when the cap is negative. */
  function GoalRange(maxGoals: int): (n: nat)
    ensures maxGoals >= 0 ==> n == maxGoals + 1
    ensures maxGoals < 0 ==> n == 0
  {
    if maxGoals < 0 then 0 else maxGoals + 1
  }

  /** Poisson probability mass of `goal` goals for a side whose expected
      number of goals is `mean`: exp(-mean) * mean^goal / goal!. */
  function PoissonProb(exp: ExpFn, mean: real, goal: nat): (p: real)
    ensures mean > 0.0 ==> p > 0.0
    ensures mean >= 0.0 ==> p >= 0.0
  {
    MassQuotient(exp(-mean), Pow(mean, goal), FactorialReal(goal))
  }

  /** The mass formula with its three parts given as numbers: e * p / f
      (kept first-order for the reason given at `Numbers.Sum`). */
  function MassQuotient(e: real, p: real, f: real): (q: real)
    requires f > 0.0
    ensures e > 0.0 && p > 0.0 ==> q > 0.0
    ensures e > 0.0 && p >= 0.0 ==> q >= 0.0
  {
    e * p / f
  }

  /** Multiplying the power by `m` and the factorial by `k` scales the mass
      by m / k. */
  lemma {:induction false} MassQuotientStep(e: real, p0: real, p1: real, f0: real, f1: real, m: real, k: real)
    requires f0 > 0.0 && k > 0.0
    requires p1 == m * p0 && f1 == k * f0
    ensures f1 > 0.0
    ensures MassQuotient(e, p1, f1) * k == MassQuotient(e, p0, f0) * m
  {
    PositiveProduct(k, f0);
    QuotientShift(e, p0, m, k, f0);
  }

  /** With no goals the mass is the exponential term alone. */
  lemma {:induction false} PoissonAtZero(exp: ExpFn, mean: real)
    ensures PoissonProb(exp, mean, 0) == exp(-mean)
  {
  }

  /** Consecutive masses differ by the factor mean / (goal + 1); this ties
      the formula to the Poisson law without knowing anything about exp. */
  lemma {:induction false} PoissonRecurrence(exp: ExpFn, mean: real, goal: nat)
    ensures PoissonProb(exp, mean, goal + 1) * ((goal + 1) as real) == PoissonProb(exp, mean, goal) * mean
  {
    PowStep(mean, goal);
    FactorialStep(goal);
    MassQuotientStep(exp(-mean), Pow(mean, goal), Pow(mean, goal + 1),
      FactorialReal(goal), FactorialReal(goal + 1), mean, (goal + 1) as real);
  }

  /** The per-side list `[poisson_prob(mean, g) for g in range(maxGoals + 1)]`. */
  function PmfTable(exp: ExpFn, mean: real, maxGoals: int): (t: seq<real>)
    ensures |t| == GoalRange(maxGoals)
  {
    PmfPrefix(exp, mean, GoalRange(maxGoals))
  }

  /** The masses of 0, 1, ..., n - 1 goals. */
  function PmfPrefix(exp: ExpFn, mean: real, n: nat): (t: seq<real>)
    ensures |t| == n
  {
    if n == 0 then [] else PmfPrefix(exp, mean, n - 1) + [PoissonProb(exp, mean, n - 1)]
  }

  /** Entry `g` of the prefix is the Poisson mass of `g` goals. */
  lemma {:induction false} PmfPrefixEntry(exp: ExpFn, mean: real, n: nat, g: nat)
    requires g < n
    ensures PmfPrefix(exp, mean, n)[g] == PoissonProb(exp, mean, g)
  {
    if g < n - 1 {
      PmfPrefixEntry(exp, mean, n - 1, g);
      assert PmfPrefix(exp, mean, n)[g] == PmfPrefix(exp, mean, n - 1)[g];
    }
  }

  /** Entry `g` of the list is the Poisson mass of `g` goals. */
  lemma {:induction false} PmfTableEntry(exp: ExpFn, mean: real, maxGoals: int, g: nat)
    requires g <= maxGoals
    ensures g < |PmfTable(exp, mean, maxGoals)|
    ensures PmfTable(exp, mean, maxGoals)[g] == PoissonProb(exp, mean, g)
  {
    PmfPrefixEntry(exp, mean, GoalRange(maxGoals), g);
  }

  /** Every entry of the list is positive when the mean is. */
  lemma {:induction false} PmfTablePositive(exp: ExpFn, mean: real, maxGoals: int)
    requires mean > 0.0
    ensures AllPositive(PmfTable(exp, mean, maxGoals))
  {
    var t := PmfTable(exp, mean, maxGoals);
    forall g | 0 <= g < |t|
      ensures t[g] > 0.0
    {
      PmfTableEntry(exp, mean, maxGoals, g);
    }
  }

  /** Dropping the last entry gives the list for the cap one lower. */
  lemma {:induction false} PmfTablePrefix(exp: ExpFn, mean: real, maxGoals: int)
    requires maxGoals >= 0
    ensures PmfTable(exp, mean, maxGoals)[..maxGoals] == PmfTable(exp, mean, maxGoals - 1)
  {
    assert PmfPrefix(exp, mean, maxGoals + 1)[..maxGoals] == PmfPrefix(exp, mean, maxGoals);
  }

  /** Raising the cap by one adds strictly positive mass when the mean is
      positive: the truncated total grows with the cap. */
  lemma {:induction false} PmfTableMassGrows(exp: ExpFn, mean: real, maxGoals: int)
    requires mean > 0.0
    requires maxGoals >= -1
    ensures Sum(PmfTable(exp, mean, maxGoals + 1)) > Sum(PmfTable(exp, mean, maxGoals))
  {
    var t := PmfTable(exp, mean, maxGoals + 1);
    assert t[..|t| - 1] == PmfTable(exp, mean, maxGoals);
  }
}
