/** The "Poisson Probability Heatmap": a 6 x 6 matrix of home-by-away score
    probabilities, divided in place by its own total before it is drawn. */
module Heatmap {
  import opened Numbers
  import opened ScoreDistribution
  import opened JointScoreModel

  /** The heatmap covers 0..5 goals on each side. */
  const HeatmapGoals: nat := 5

  /** One matrix row: `x` times each entry of `ap`. */
  function RowValues(x: real, ap: seq<real>): (row: seq<real>)
    ensures |row| == |ap|
    decreases |ap|
  {
    if |ap| == 0 then [] else RowValues(x, ap[..|ap| - 1]) + [x * ap[|ap| - 1]]
  }

  /** The first `n` rows of the outer product of `hp` and `ap`. */
  function OuterPrefix(hp: seq<real>, ap: seq<real>, n: nat): (m: seq<seq<real>>)
    requires n <= |hp|
    ensures |m| == n
    ensures forall i :: 0 <= i < n ==> |m[i]| == |ap|
  {
    if n == 0 then [] else OuterPrefix(hp, ap, n - 1) + [RowValues(hp[n - 1], ap)]
  }

  /** The matrix whose entry `[i][j]` is `hp[i] * ap[j]`. */
  function Outer(hp: seq<real>, ap: seq<real>): (m: seq<seq<real>>)
    ensures |m| == |hp|
    ensures forall i :: 0 <= i < |hp| ==> |m[i]| == |ap|
  {
    OuterPrefix(hp, ap, |hp|)
  }

  /** The sum of all entries of a matrix (a wrapper around its recursion, as
      explained at `Numbers.Sum`). */
  function MatrixSum(m: seq<seq<real>>): real
  {
    MatrixSumLeft(m)
  }

  /** Row-by-row accumulation behind `MatrixSum`. */
  function MatrixSumLeft(m: seq<seq<real>>): real
  {
    if |m| == 0 then 0.0 else MatrixSumLeft(m[..|m| - 1]) + Sum(m[|m| - 1])
  }

  /** Every entry of the matrix divided by `d`. */
  function DivideRows(m: seq<seq<real>>, d: real): (r: seq<seq<real>>)
    requires d != 0.0
    ensures |r| == |m|
    ensures forall i :: 0 <= i < |m| ==> |r[i]| == |m[i]|
    decreases |m|
  {
    if |m| == 0 then [] else DivideRows(m[..|m| - 1], d) + [Divide(m[|m| - 1], d)]
  }

  /** `prob_matrix /= prob_matrix.sum()`: the matrix divided by its total. */
  function Renormalise(m: seq<seq<real>>): (r: seq<seq<real>>)
    requires MatrixSum(m) != 0.0
    ensures |r| == |m|
    ensures forall i :: 0 <= i < |m| ==> |r[i]| == |m[i]|
  {
    DivideRows(m, MatrixSum(m))
  }

  /** The heatmap matrix before it is renormalised: six rows (home goals
      0..5) of six entries (away goals 0..5). */
  function ProbMatrix(exp: ExpFn, homeMean: real, awayMean: real): (m: seq<seq<real>>)
    ensures |m| == HeatmapGoals + 1
    ensures forall i :: 0 <= i < |m| ==> |m[i]| == HeatmapGoals + 1
  {
    Outer(PmfTable(exp, homeMean, HeatmapGoals), PmfTable(exp, awayMean, HeatmapGoals))
  }

  /** The matrix that is drawn: still six rows of six entries. */
  function RenormalisedHeatmap(exp: ExpFn, homeMean: real, awayMean: real): (m: seq<seq<real>>)
    requires MatrixSum(ProbMatrix(exp, homeMean, awayMean)) != 0.0
    ensures |m| == HeatmapGoals + 1
    ensures forall i :: 0 <= i < |m| ==> |m[i]| == HeatmapGoals + 1
  {
    Renormalise(ProbMatrix(exp, homeMean, awayMean))
  }

  /** Dropping the last row takes its sum out of the total. */
  lemma {:induction false} MatrixSumLast(m: seq<seq<real>>)
    requires |m| > 0
    ensures MatrixSum(m) == MatrixSum(m[..|m| - 1]) + Sum(m[|m| - 1])
  {
  }

  /** Entry `j` of a row is the home factor times away entry `j`. */
  lemma {:induction false} RowValuesEntry(x: real, ap: seq<real>, j: nat)
    requires j < |ap|
    ensures RowValues(x, ap)[j] == x * ap[j]
    decreases |ap|
  {
    if j < |ap| - 1 {
      RowValuesEntry(x, ap[..|ap| - 1], j);
      assert RowValues(x, ap)[j] == RowValues(x, ap[..|ap| - 1])[j];
    }
  }

  /** Row `i` of the outer product is the row of home entry `i`. */
  lemma {:induction false} OuterPrefixRow(hp: seq<real>, ap: seq<real>, n: nat, i: nat)
    requires n <= |hp| && i < n
    ensures OuterPrefix(hp, ap, n)[i] == RowValues(hp[i], ap)
  {
    if i < n - 1 {
      OuterPrefixRow(hp, ap, n - 1, i);
      assert OuterPrefix(hp, ap, n)[i] == OuterPrefix(hp, ap, n - 1)[i];
    }
  }

  /** Each row of the outer product is as long as `ap`, and entry `[i][j]`
      is the grid cell of the same two lists at the row-major position of
      `(i, j)`. */
  lemma {:induction false} OuterMatchesGrid(hp: seq<real>, ap: seq<real>, i: nat, j: nat)
    requires i < |hp| && j < |ap|
    ensures |Outer(hp, ap)[i]| == |ap|
    ensures Position(i, j, |ap|) < |Grid(hp, ap)|
    ensures Outer(hp, ap)[i][j] == Grid(hp, ap)[Position(i, j, |ap|)].probability
  {
    OuterPrefixRow(hp, ap, |hp|, i);
    RowValuesEntry(hp[i], ap, j);
    GridLayout(hp, ap, i, j);
  }

  /** A matrix row sums to the same total as the matching grid row. */
  lemma {:induction false} RowValuesMass(i: nat, x: real, ap: seq<real>)
    ensures Sum(RowValues(x, ap)) == Mass(Row(i, x, ap))
    decreases |ap|
  {
    if |ap| > 0 {
      RowValuesMass(i, x, ap[..|ap| - 1]);
      SumLast(RowValues(x, ap));
      assert RowValues(x, ap)[..|ap| - 1] == RowValues(x, ap[..|ap| - 1]);
      MassSnoc(Row(i, x, ap[..|ap| - 1]), ScoreCell(i, |ap| - 1, x * ap[|ap| - 1]));
    }
  }

  /** The first `n` matrix rows carry the mass of the first `n` grid rows. */
  lemma {:induction false} OuterPrefixMass(hp: seq<real>, ap: seq<real>, n: nat)
    requires n <= |hp|
    ensures MatrixSum(OuterPrefix(hp, ap, n)) == Mass(Rows(hp, ap, n))
  {
    if n > 0 {
      OuterPrefixMass(hp, ap, n - 1);
      MatrixSumLast(OuterPrefix(hp, ap, n));
      assert OuterPrefix(hp, ap, n)[..n - 1] == OuterPrefix(hp, ap, n - 1);
      RowValuesMass(n - 1, hp[n - 1], ap);
      MassAppend(Rows(hp, ap, n - 1), Row(n - 1, hp[n - 1], ap));
    }
  }

  /** The outer product carries the same total as the grid. */
  lemma {:induction false} OuterMass(hp: seq<real>, ap: seq<real>)
    ensures MatrixSum(Outer(hp, ap)) == Mass(Grid(hp, ap))
  {
    OuterPrefixMass(hp, ap, |hp|);
  }

  /** Row `i` of the divided matrix is row `i` divided. */
  lemma {:induction false} DivideRowsRow(m: seq<seq<real>>, d: real, i: nat)
    requires d != 0.0 && i < |m|
    ensures DivideRows(m, d)[i] == Divide(m[i], d)
    decreases |m|
  {
    if i < |m| - 1 {
      DivideRowsRow(m[..|m| - 1], d, i);
      assert DivideRows(m, d)[i] == DivideRows(m[..|m| - 1], d)[i];
    }
  }

  /** Dividing every entry divides the total. */
  lemma {:induction false} DivideRowsSum(m: seq<seq<real>>, d: real)
    requires d != 0.0
    ensures MatrixSum(DivideRows(m, d)) == MatrixSum(m) / d
    decreases |m|
  {
    if |m| > 0 {
      var m' := m[..|m| - 1];
      DivideRowsSum(m', d);
      assert DivideRows(m, d)[..|m| - 1] == DivideRows(m', d);
      MatrixSumLast(m);
      MatrixSumLast(DivideRows(m, d));
      SumDivide(m[|m| - 1], d);
      DivideDistribute(MatrixSum(m), MatrixSum(m'), Sum(m[|m| - 1]), d);
    } else {
      assert MatrixSum(m) == 0.0;
    }
  }

  /** After dividing by the total the entries add up to exactly 1. */
  lemma {:induction false} RenormaliseSum(m: seq<seq<real>>)
    requires MatrixSum(m) != 0.0
    ensures MatrixSum(Renormalise(m)) == 1.0
  {
    DivideRowsSum(m, MatrixSum(m));
    DivideSelf(MatrixSum(m));
  }

  /** Each entry of the result is the original entry divided by the
      original total, and every row keeps its length. */
  lemma {:induction false} RenormaliseEntry(m: seq<seq<real>>, i: nat, j: nat)
    requires MatrixSum(m) != 0.0
    requires i < |m| && j < |m[i]|
    ensures |Renormalise(m)[i]| == |m[i]|
    ensures Renormalise(m)[i][j] == m[i][j] / MatrixSum(m)
  {
    DivideRowsRow(m, MatrixSum(m), i);
    DivideEntry(m[i], MatrixSum(m), j);
  }

  /** Dividing by 1 changes nothing. */
  lemma {:induction false} DivideByOne(s: seq<real>)
    ensures Divide(s, 1.0) == s
    decreases |s|
  {
    if |s| > 0 {
      DivideByOne(s[..|s| - 1]);
      assert s == s[..|s| - 1] + [s[|s| - 1]];
    }
  }

  /** Renormalising a renormalised matrix changes nothing. */
  lemma {:induction false} RenormaliseIdempotent(m: seq<seq<real>>)
    requires MatrixSum(m) != 0.0
    ensures MatrixSum(Renormalise(m)) != 0.0
    ensures Renormalise(Renormalise(m)) == Renormalise(m)
  {
    var r := Renormalise(m);
    RenormaliseSum(m);
    DivideRowsByOne(r);
  }

  /** Dividing every row by 1 changes nothing. */
  lemma {:induction false} DivideRowsByOne(m: seq<seq<real>>)
    ensures DivideRows(m, 1.0) == m
    decreases |m|
  {
    if |m| > 0 {
      DivideRowsByOne(m[..|m| - 1]);
      DivideByOne(m[|m| - 1]);
      assert m == m[..|m| - 1] + [m[|m| - 1]];
    }
  }

  /** The heatmap matrix has six rows of six entries, and entry `[i][j]` is
      the probability of the score i-j in the grid built with the same goal
      cap. */
  lemma {:induction false} ProbMatrixMatchesGrid(exp: ExpFn, homeMean: real, awayMean: real, i: nat, j: nat)
    requires i <= HeatmapGoals && j <= HeatmapGoals
    ensures |ProbMatrix(exp, homeMean, awayMean)| == HeatmapGoals + 1
    ensures |ProbMatrix(exp, homeMean, awayMean)[i]| == HeatmapGoals + 1
    ensures Position(i, j, HeatmapGoals + 1) < |CalculateProbabilities(exp, homeMean, awayMean, HeatmapGoals)|
    ensures ProbMatrix(exp, homeMean, awayMean)[i][j]
         == CalculateProbabilities(exp, homeMean, awayMean, HeatmapGoals)[Position(i, j, HeatmapGoals + 1)].probability
  {
    OuterMatchesGrid(PmfTable(exp, homeMean, HeatmapGoals), PmfTable(exp, awayMean, HeatmapGoals), i, j);
  }

  /** Before renormalising, the heatmap carries exactly the mass of the grid:
      the product of the two truncated per-side masses. */
  lemma {:induction false} ProbMatrixSum(exp: ExpFn, homeMean: real, awayMean: real)
    ensures MatrixSum(ProbMatrix(exp, homeMean, awayMean)) == Mass(CalculateProbabilities(exp, homeMean, awayMean, HeatmapGoals))
    ensures MatrixSum(ProbMatrix(exp, homeMean, awayMean))
         == Sum(PmfTable(exp, homeMean, HeatmapGoals)) * Sum(PmfTable(exp, awayMean, HeatmapGoals))
  {
    OuterMass(PmfTable(exp, homeMean, HeatmapGoals), PmfTable(exp, awayMean, HeatmapGoals));
    CalculateProbabilitiesMass(exp, homeMean, awayMean, HeatmapGoals);
  }

  /** With positive expected goals the total is positive, so the division is
      always defined. */
  lemma {:induction false} ProbMatrixSumPositive(exp: ExpFn, homeMean: real, awayMean: real)
    requires homeMean > 0.0 && awayMean > 0.0
    ensures MatrixSum(ProbMatrix(exp, homeMean, awayMean)) > 0.0
  {
    ProbMatrixSum(exp, homeMean, awayMean);
    CalculateProbabilitiesMassPositive(exp, homeMean, awayMean, HeatmapGoals);
  }

  /** The drawn heatmap sums to exactly 1. */
  lemma {:induction false} RenormalisedHeatmapSum(exp: ExpFn, homeMean: real, awayMean: real)
    requires MatrixSum(ProbMatrix(exp, homeMean, awayMean)) != 0.0
    ensures MatrixSum(RenormalisedHeatmap(exp, homeMean, awayMean)) == 1.0
  {
    RenormaliseSum(ProbMatrix(exp, homeMean, awayMean));
  }

  /** The drawn heatmap is the grid's score probabilities rescaled by the
      matrix total, which `ProbMatrixSum` shows to be the grid's total mass:
      entry `[i][j]` is the grid's probability of the score i-j divided by
      that total. */
  lemma {:induction false} RenormalisedHeatmapEntry(exp: ExpFn, homeMean: real, awayMean: real, i: nat, j: nat)
    requires MatrixSum(ProbMatrix(exp, homeMean, awayMean)) != 0.0
    requires i <= HeatmapGoals && j <= HeatmapGoals
    ensures |RenormalisedHeatmap(exp, homeMean, awayMean)| == HeatmapGoals + 1
    ensures |RenormalisedHeatmap(exp, homeMean, awayMean)[i]| == HeatmapGoals + 1
    ensures Position(i, j, HeatmapGoals + 1) < |CalculateProbabilities(exp, homeMean, awayMean, HeatmapGoals)|
    ensures RenormalisedHeatmap(exp, homeMean, awayMean)[i][j]
         == CalculateProbabilities(exp, homeMean, awayMean, HeatmapGoals)[Position(i, j, HeatmapGoals + 1)].probability
            / MatrixSum(ProbMatrix(exp, homeMean, awayMean))
  {
    RenormalisedOuterEntry(PmfTable(exp, homeMean, HeatmapGoals), PmfTable(exp, awayMean, HeatmapGoals), HeatmapGoals + 1, i, j);
  }

  /** Entry `[i][j]` of the renormalised outer product is the grid cell of
      the same two lists at the position of `(i, j)`, divided by the total. */
  lemma {:induction false} RenormalisedOuterEntry(hp: seq<real>, ap: seq<real>, w: nat, i: nat, j: nat)
    requires MatrixSum(Outer(hp, ap)) != 0.0
    requires w == |ap| && i < |hp| && j < w
    ensures |Renormalise(Outer(hp, ap))[i]| == w
    ensures Position(i, j, w) < |Grid(hp, ap)|
    ensures Renormalise(Outer(hp, ap))[i][j] == Grid(hp, ap)[Position(i, j, w)].probability / MatrixSum(Outer(hp, ap))
  {
    OuterMatchesGrid(hp, ap, i, j);
    RenormaliseEntry(Outer(hp, ap), i, j);
  }
}
