/** The correct-score grid of `calculate_probabilities`: every pair of goal
    counts (home, away) up to the cap, listed row by row, with the product of
    the two independent per-side Poisson masses. */
module JointScoreModel {
  import opened Numbers
  import opened ScoreDistribution

  /** One entry of the grid: the `(i, j, probability)` triple. */
  datatype ScoreCell = ScoreCell(homeGoals: nat, awayGoals: nat, probability: real)

  /** Row `i` of the grid, whose home entry is `x`: away goals run over the
      whole away list `ap`. */
  function Row(i: nat, x: real, ap: seq<real>): (row: seq<ScoreCell>)
    ensures |row| == |ap|
    decreases |ap|
  {
    if |ap| == 0 then [] else Row(i, x, ap[..|ap| - 1]) + [ScoreCell(i, |ap| - 1, x * ap[|ap| - 1])]
  }

  /** The first `n` rows one after the other: the nested comprehension with
      the home index outside and the away index inside. */
  function Rows(hp: seq<real>, ap: seq<real>, n: nat): (cells: seq<ScoreCell>)
    requires n <= |hp|
  {
    if n == 0 then [] else Rows(hp, ap, n - 1) + Row(n - 1, hp[n - 1], ap)
  }

  /** The grid built from a home list and an away list: all rows. */
  function Grid(hp: seq<real>, ap: seq<real>): (cells: seq<ScoreCell>)
  {
    Rows(hp, ap, |hp|)
  }

  /** The grid for two expected-goal values and a goal cap: one cell per
      pair of goal counts, (maxGoals + 1) squared cells. */
  function CalculateProbabilities(exp: ExpFn, homeMean: real, awayMean: real, maxGoals: int): (cells: seq<ScoreCell>)
    ensures |cells| == GoalRange(maxGoals) * GoalRange(maxGoals)
  {
    GridLength(PmfTable(exp, homeMean, maxGoals), PmfTable(exp, awayMean, maxGoals));
    Grid(PmfTable(exp, homeMean, maxGoals), PmfTable(exp, awayMean, maxGoals))
  }

  /** Total probability carried by a list of cells (a wrapper around its
      recursion, as explained at `Numbers.Sum`). */
  function Mass(cells: seq<ScoreCell>): real
  {
    MassLeft(cells)
  }

  /** Left-to-right accumulation behind `Mass`. */
  function MassLeft(cells: seq<ScoreCell>): real
  {
    if |cells| == 0 then 0.0 else MassLeft(cells[..|cells| - 1]) + cells[|cells| - 1].probability
  }

  /** Cell `j` of a row pairs away goal count `j` with the product of the
      home entry and away entry `j`. */
  lemma {:induction false} RowEntry(i: nat, x: real, ap: seq<real>, j: nat)
    requires j < |ap|
    ensures Row(i, x, ap)[j] == ScoreCell(i, j, x * ap[j])
    decreases |ap|
  {
    if j < |ap| - 1 {
      var ap' := ap[..|ap| - 1];
      RowEntry(i, x, ap', j);
      assert Row(i, x, ap)[j] == Row(i, x, ap')[j];
    }
  }

  /** `n` rows of `|ap|` cells make `n * |ap|` cells. */
  lemma {:induction false} RowsLength(hp: seq<real>, ap: seq<real>, n: nat)
    requires n <= |hp|
    ensures |Rows(hp, ap, n)| == n * |ap|
  {
    if n > 0 {
      RowsLength(hp, ap, n - 1);
      assert |Rows(hp, ap, n)| == (n - 1) * |ap| + |ap|;
    }
  }

  /** The row-major index of the cell for `homeGoals` and `awayGoals` in a
      grid whose rows have `width` cells. */
  function Position(homeGoals: nat, awayGoals: nat, width: nat): nat
  {
    homeGoals * width + awayGoals
  }

  /** Row-major layout: position `Position(i, j, w)` holds the cell for `i` home
      goals and `j` away goals, `w` being the length of a row. */
  lemma {:induction false} RowsLayout(hp: seq<real>, ap: seq<real>, w: nat, n: nat, i: nat, j: nat)
    requires n <= |hp| && w == |ap|
    requires i < n && j < w
    ensures Position(i, j, w) < |Rows(hp, ap, n)|
    ensures Rows(hp, ap, n)[Position(i, j, w)] == ScoreCell(i, j, hp[i] * ap[j])
  {
    RowsLength(hp, ap, n);
    RowsLength(hp, ap, n - 1);
    var prefix := Rows(hp, ap, n - 1);
    if i < n - 1 {
      RowsLayout(hp, ap, w, n - 1, i, j);
      assert Rows(hp, ap, n)[Position(i, j, w)] == prefix[Position(i, j, w)];
    } else {
      assert Position(i, j, w) == |prefix| + j;
      RowEntry(n - 1, hp[n - 1], ap, j);
      assert Rows(hp, ap, n)[|prefix| + j] == Row(n - 1, hp[n - 1], ap)[j];
    }
  }

  /** The grid of two lists holds one cell per pair of entries. */
  lemma {:induction false} GridLength(hp: seq<real>, ap: seq<real>)
    ensures |Grid(hp, ap)| == |hp| * |ap|
  {
    RowsLength(hp, ap, |hp|);
  }

  /** Position `k` of the grid of two lists holds home index `k / |ap|` and
      away index `k % |ap|` with the product of those entries. */
  lemma {:induction false} GridPosition(hp: seq<real>, ap: seq<real>, k: nat)
    requires k < |Grid(hp, ap)|
    ensures |ap| > 0 && k / |ap| < |hp|
    ensures Grid(hp, ap)[k] == ScoreCell(k / |ap|, k % |ap|, hp[k / |ap|] * ap[k % |ap|])
  {
    GridLength(hp, ap);
    DivBound(k, |ap|, |hp|);
    RowsLayout(hp, ap, |ap|, |hp|, k / |ap|, k % |ap|);
  }

  /** A quotient by `w` of an index below `n * w` is below `n`. */
  lemma {:induction false} DivBound(k: nat, w: nat, n: nat)
    requires k < n * w
    ensures w > 0
    ensures k / w < n
    ensures k == (k / w) * w + k % w
  {
  }

  /** Each cell of the grid pairs in-range indices with the product of the
      entries they pick. */
  lemma {:induction false} GridCells(hp: seq<real>, ap: seq<real>)
    ensures forall c :: c in Grid(hp, ap) ==>
      c.homeGoals < |hp| && c.awayGoals < |ap| && c.probability == hp[c.homeGoals] * ap[c.awayGoals]
  {
    forall c | c in Grid(hp, ap)
      ensures c.homeGoals < |hp| && c.awayGoals < |ap| && c.probability == hp[c.homeGoals] * ap[c.awayGoals]
    {
      var k :| 0 <= k < |Grid(hp, ap)| && Grid(hp, ap)[k] == c;
      GridPosition(hp, ap, k);
    }
  }

  /** Positive entries give positive cells. */
  lemma {:induction false} GridPositive(hp: seq<real>, ap: seq<real>)
    requires AllPositive(hp) && AllPositive(ap)
    ensures forall c :: c in Grid(hp, ap) ==> c.probability > 0.0
  {
    GridCells(hp, ap);
    forall c | c in Grid(hp, ap)
      ensures c.probability > 0.0
    {
      PositiveProduct(hp[c.homeGoals], ap[c.awayGoals]);
    }
  }

  /** Element `i * (maxGoals + 1) + j` of the grid is the triple
      `(i, j, home_probs[i] * away_probs[j])`, the two factors being the
      per-side Poisson lists (whose entries `PmfTableEntry` identifies). */
  lemma {:induction false} CalculateProbabilitiesLayout(exp: ExpFn, homeMean: real, awayMean: real, maxGoals: int, i: nat, j: nat)
    requires i <= maxGoals && j <= maxGoals
    ensures Position(i, j, GoalRange(maxGoals)) < |CalculateProbabilities(exp, homeMean, awayMean, maxGoals)|
    ensures CalculateProbabilities(exp, homeMean, awayMean, maxGoals)[Position(i, j, GoalRange(maxGoals))]
         == ScoreCell(i, j, PmfTable(exp, homeMean, maxGoals)[i] * PmfTable(exp, awayMean, maxGoals)[j])
  {
    GridLayout(PmfTable(exp, homeMean, maxGoals), PmfTable(exp, awayMean, maxGoals), i, j);
  }

  /** The score i-j sits at position `i * (maxGoals + 1) + j` and carries
      x * y, where x = `poisson_prob(homeMean, i)` and
      y = `poisson_prob(awayMean, j)`. The two masses are named as parameters
      so that the product stays a product of two numbers for the solver. */
  lemma {:induction false} CalculateProbabilitiesPoisson(exp: ExpFn, homeMean: real, awayMean: real, maxGoals: int,
                                                         i: nat, j: nat, x: real, y: real)
    requires i <= maxGoals && j <= maxGoals
    requires x == PoissonProb(exp, homeMean, i) && y == PoissonProb(exp, awayMean, j)
    ensures Position(i, j, GoalRange(maxGoals)) < |CalculateProbabilities(exp, homeMean, awayMean, maxGoals)|
    ensures CalculateProbabilities(exp, homeMean, awayMean, maxGoals)[Position(i, j, GoalRange(maxGoals))]
         == ScoreCell(i, j, x * y)
  {
    var hp, ap := PmfTable(exp, homeMean, maxGoals), PmfTable(exp, awayMean, maxGoals);
    assert i < |hp| && hp[i] == x by {
      PmfTableEntry(exp, homeMean, maxGoals, i);
    }
    assert j < |ap| && ap[j] == y by {
      PmfTableEntry(exp, awayMean, maxGoals, j);
    }
    CellFromEntries(CalculateProbabilities(exp, homeMean, awayMean, maxGoals), hp, ap, GoalRange(maxGoals), i, j, x, y);
  }

  /** In the grid of two lists, the cell of `(i, j)` carries any two values
      known to be the entries it multiplies. */
  lemma {:induction false} CellFromEntries(cells: seq<ScoreCell>, hp: seq<real>, ap: seq<real>, w: nat,
                                           i: nat, j: nat, x: real, y: real)
    requires cells == Grid(hp, ap) && w == |ap|
    requires i < |hp| && j < w && hp[i] == x && ap[j] == y
    ensures Position(i, j, w) < |cells|
    ensures cells[Position(i, j, w)] == ScoreCell(i, j, x * y)
  {
    GridLayout(hp, ap, i, j);
  }

  /** Row-major layout of the grid of two lists. */
  lemma {:induction false} GridLayout(hp: seq<real>, ap: seq<real>, i: nat, j: nat)
    requires i < |hp| && j < |ap|
    ensures Position(i, j, |ap|) < |Grid(hp, ap)|
    ensures Grid(hp, ap)[Position(i, j, |ap|)] == ScoreCell(i, j, hp[i] * ap[j])
  {
    RowsLayout(hp, ap, |ap|, |hp|, i, j);
  }

  /** Each pair of goal counts occurs at exactly one position of the grid. */
  lemma {:induction false} CalculateProbabilitiesDistinct(exp: ExpFn, homeMean: real, awayMean: real, maxGoals: int, k: nat, l: nat)
    requires k < |CalculateProbabilities(exp, homeMean, awayMean, maxGoals)|
    requires l < |CalculateProbabilities(exp, homeMean, awayMean, maxGoals)|
    requires k != l
    ensures var cells := CalculateProbabilities(exp, homeMean, awayMean, maxGoals);
      cells[k].homeGoals != cells[l].homeGoals || cells[k].awayGoals != cells[l].awayGoals
  {
    GridDistinct(PmfTable(exp, homeMean, maxGoals), PmfTable(exp, awayMean, maxGoals), k, l);
  }

  /** Two positions of the grid of two lists hold different index pairs. */
  lemma {:induction false} GridDistinct(hp: seq<real>, ap: seq<real>, k: nat, l: nat)
    requires k < |Grid(hp, ap)| && l < |Grid(hp, ap)| && k != l
    ensures Grid(hp, ap)[k].homeGoals != Grid(hp, ap)[l].homeGoals
         || Grid(hp, ap)[k].awayGoals != Grid(hp, ap)[l].awayGoals
  {
    GridPosition(hp, ap, k);
    GridPosition(hp, ap, l);
    GridLength(hp, ap);
    DivBound(k, |ap|, |hp|);
    DivBound(l, |ap|, |hp|);
  }

  /** Every cell of the grid has goal counts within the cap and carries the
      product of the two per-side list entries for those counts. */
  lemma {:induction false} CalculateProbabilitiesCells(exp: ExpFn, homeMean: real, awayMean: real, maxGoals: int)
    ensures forall c :: c in CalculateProbabilities(exp, homeMean, awayMean, maxGoals) ==>
      c.homeGoals <= maxGoals && c.awayGoals <= maxGoals
      && c.probability == PmfTable(exp, homeMean, maxGoals)[c.homeGoals] * PmfTable(exp, awayMean, maxGoals)[c.awayGoals]
  {
    GridCells(PmfTable(exp, homeMean, maxGoals), PmfTable(exp, awayMean, maxGoals));
  }

  /** With positive expected goals every score has positive probability. */
  lemma {:induction false} CalculateProbabilitiesPositive(exp: ExpFn, homeMean: real, awayMean: real, maxGoals: int)
    requires homeMean > 0.0 && awayMean > 0.0
    ensures forall c :: c in CalculateProbabilities(exp, homeMean, awayMean, maxGoals) ==> c.probability > 0.0
  {
    PmfTablePositive(exp, homeMean, maxGoals);
    PmfTablePositive(exp, awayMean, maxGoals);
    GridPositive(PmfTable(exp, homeMean, maxGoals), PmfTable(exp, awayMean, maxGoals));
  }

  /** Appending one cell adds its probability. */
  lemma {:induction false} MassSnoc(cells: seq<ScoreCell>, c: ScoreCell)
    ensures Mass(cells + [c]) == Mass(cells) + c.probability
  {
  }

  /** A list of cells split in two carries the mass of both parts. */
  lemma {:induction false} MassAppend(a: seq<ScoreCell>, b: seq<ScoreCell>)
    ensures Mass(a + b) == Mass(a) + Mass(b)
    decreases |b|
  {
    if |b| == 0 {
      assert a + b == a;
    } else {
      assert a + b == (a + b[..|b| - 1]) + [b[|b| - 1]];
      MassSnoc(a + b[..|b| - 1], b[|b| - 1]);
      MassAppend(a, b[..|b| - 1]);
    }
  }

  /** A row carries its home entry times the whole away mass. */
  lemma {:induction false} RowMass(i: nat, x: real, ap: seq<real>)
    ensures Mass(Row(i, x, ap)) == x * Sum(ap)
    decreases |ap|
  {
    if |ap| > 0 {
      assert Mass(Row(i, x, ap)) == Mass(Row(i, x, ap[..|ap| - 1])) + x * ap[|ap| - 1] by {
        MassSnoc(Row(i, x, ap[..|ap| - 1]), ScoreCell(i, |ap| - 1, x * ap[|ap| - 1]));
      }
      assert x * Sum(ap) == x * Sum(ap[..|ap| - 1]) + x * ap[|ap| - 1] by {
        LeftDistribute(Sum(ap), Sum(ap[..|ap| - 1]), ap[|ap| - 1], x);
      }
      RowMass(i, x, ap[..|ap| - 1]);
    } else {
      MulZero(x, Sum(ap));
    }
  }

  /** The first `n` rows carry the first `n` home entries' mass times the
      away mass. */
  lemma {:induction false} RowsMassPrefix(hp: seq<real>, ap: seq<real>, n: nat)
    requires n <= |hp|
    ensures Mass(Rows(hp, ap, n)) == Sum(hp[..n]) * Sum(ap)
  {
    if n == 0 {
      assert Sum(hp[..n]) * Sum(ap) == 0.0 by {
        MulZero(Sum(ap), Sum(hp[..n]));
      }
    } else {
      RowsMassPrefix(hp, ap, n - 1);
      RowsMassStep(hp, ap, n);
    }
  }

  /** One more row adds its home entry's mass times the away mass. */
  lemma {:induction false} RowsMassStep(hp: seq<real>, ap: seq<real>, n: nat)
    requires 0 < n <= |hp|
    requires Mass(Rows(hp, ap, n - 1)) == Sum(hp[..n - 1]) * Sum(ap)
    ensures Mass(Rows(hp, ap, n)) == Sum(hp[..n]) * Sum(ap)
  {
    assert Mass(Rows(hp, ap, n)) == Mass(Rows(hp, ap, n - 1)) + Mass(Row(n - 1, hp[n - 1], ap)) by {
      MassAppend(Rows(hp, ap, n - 1), Row(n - 1, hp[n - 1], ap));
    }
    assert Mass(Row(n - 1, hp[n - 1], ap)) == hp[n - 1] * Sum(ap) by {
      RowMass(n - 1, hp[n - 1], ap);
    }
    assert Sum(hp[..n]) * Sum(ap) == Sum(hp[..n - 1]) * Sum(ap) + hp[n - 1] * Sum(ap) by {
      SumPrefixStep(hp, n - 1);
      RightDistribute(Sum(hp[..n]), Sum(hp[..n - 1]), hp[n - 1], Sum(ap));
    }
  }

  /** The grid of two lists carries home mass times away mass. */
  lemma {:induction false} GridMass(hp: seq<real>, ap: seq<real>)
    ensures Mass(Grid(hp, ap)) == Sum(hp) * Sum(ap)
  {
    assert hp[..|hp|] == hp;
    RowsMassPrefix(hp, ap, |hp|);
  }

  /** The grid is not renormalised: its total is exactly the truncated home
      mass times the truncated away mass. */
  lemma {:induction false} CalculateProbabilitiesMass(exp: ExpFn, homeMean: real, awayMean: real, maxGoals: int)
    ensures Mass(CalculateProbabilities(exp, homeMean, awayMean, maxGoals))
         == Sum(PmfTable(exp, homeMean, maxGoals)) * Sum(PmfTable(exp, awayMean, maxGoals))
  {
    GridMass(PmfTable(exp, homeMean, maxGoals), PmfTable(exp, awayMean, maxGoals));
  }

  /** With positive expected goals and a non-negative cap the grid carries
      positive mass. */
  lemma {:induction false} CalculateProbabilitiesMassPositive(exp: ExpFn, homeMean: real, awayMean: real, maxGoals: int)
    requires homeMean > 0.0 && awayMean > 0.0 && maxGoals >= 0
    ensures Mass(CalculateProbabilities(exp, homeMean, awayMean, maxGoals)) > 0.0
  {
    PmfTablePositive(exp, homeMean, maxGoals);
    PmfTablePositive(exp, awayMean, maxGoals);
    GridMassPositive(PmfTable(exp, homeMean, maxGoals), PmfTable(exp, awayMean, maxGoals));
  }

  /** Two non-empty lists of positive entries give a grid of positive mass. */
  lemma {:induction false} GridMassPositive(hp: seq<real>, ap: seq<real>)
    requires AllPositive(hp) && AllPositive(ap) && |hp| > 0 && |ap| > 0
    ensures Mass(Grid(hp, ap)) > 0.0
  {
    SumPositive(hp);
    SumPositive(ap);
    PositiveProduct(Sum(hp), Sum(ap));
    GridMass(hp, ap);
  }
}
