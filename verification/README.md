# Football outcome predictor: the probability-and-odds engine in Dafny

This project models the numeric engine of the Streamlit football predictor
`streamlit_app.py` and proves properties about it. The engine has five parts:

- **Scoreline model** (`score_distribution.dfy`, `joint_score_model.dfy`).
  - `poisson_prob` gives the Poisson mass exp(-mean) * mean^goal / goal!.
  - `calculate_probabilities` builds the per-side lists over 0..max_goals.
  - It then builds the row-major list of `(home goals, away goals,
    probability)` triples; each probability is the product of the two
    per-side entries.
- **Odds conversion** (`odds_converter.dfy`).
  - `odds_implied_probability` is the reciprocal of a decimal price.
  - `normalize_probs` divides a home/draw/away triple by its sum.
  - The three calls at lines 85-88 turn the three match-result prices into
    the displayed outcome probabilities.
- **Margin diagnostic** (`margin_analyzer.dfy`).
  - `calculate_margin_difference` is the margin target minus the price.
  - It is rounded as Python's `round(x, 2)` rounds: to the nearest
    hundredth, ties to the even hundredth.
- **Top correct scores** (`ranker.dfy`).
  - `sort_values("Probability", ascending=False).head(5)` picks the five
    most likely scorelines.
  - The model is a selection method: it repeatedly takes a most likely
    remaining cell.
- **Heatmap** (`heatmap.dfy`).
  - The 6 x 6 matrix of home-by-away probabilities is filled and then
    divided by its own total (`prob_matrix /= prob_matrix.sum()`).

Numbers are exact reals (`real`), and integers are unbounded. The exponential
is a parameter `exp` of type `Numbers.ExpFn`: any real function that is
positive everywhere. Every property proved here therefore holds for the real
exponential. The factorial is the exact recursive natural-number factorial,
as `math.factorial` is.

The engine has no error paths of its own. It performs no guards and raises
nothing. Where it divides, the divisor must be non-zero: `1 / odds`, the total
in `normalize_probs`, and the matrix total. Python would raise
`ZeroDivisionError` there, and numpy would produce NaN. The model therefore
states these conditions as preconditions and adds no error results.

The code has no guards, and the model follows it:
- `max_goals` is an `int`.
- A negative cap gives empty lists, because `range` is empty.
- Non-positive odds are accepted wherever the division is defined.
- Ties are ordered however pandas leaves them.

## Model

| member | source | states |
|---|---|---|
| `Numbers.Factorial` | streamlit_app.py:59 | The exact factorial is at least 1, so `poisson_prob` never divides by zero. |
| `ScoreDistribution.PoissonProb` | streamlit_app.py:58-59 | The Poisson mass of `goal` goals is positive when the mean is positive and non-negative when the mean is non-negative, for any positive exponential. |
| `ScoreDistribution.PoissonAtZero` | streamlit_app.py:58-59 | With no goals the mass is exactly exp(-mean), since mean^0 = 1 and 0! = 1. |
| `ScoreDistribution.PoissonRecurrence` | streamlit_app.py:58-59 | Consecutive masses obey the Poisson law p(g + 1) * (g + 1) = p(g) * mean, whatever the exponential. |
| `ScoreDistribution.PmfTable` | streamlit_app.py:62-63 | The per-side list has one entry per goal count in `range(max_goals + 1)`: max_goals + 1 entries, none for a negative cap. |
| `ScoreDistribution.PmfTableEntry` | streamlit_app.py:62-63 | Entry g of the per-side list is `poisson_prob(mean, g)` for every g up to the cap. |
| `ScoreDistribution.PmfTablePositive` | streamlit_app.py:58-63 | With a positive mean, as the input widgets' minimum of 0.1 ensures, every entry of the per-side list is positive. |
| `ScoreDistribution.PmfTablePrefix` | streamlit_app.py:62-63 | The list for cap n + 1 extends the list for cap n: dropping its last entry gives the shorter list. |
| `ScoreDistribution.PmfTableMassGrows` | streamlit_app.py:62-63 | With a positive mean, raising the cap by one strictly increases the truncated per-side mass. |
| `JointScoreModel.CalculateProbabilities` | streamlit_app.py:61-68 | The list holds exactly (max_goals + 1)^2 triples, one per pair of goal counts, and none for a negative cap. |
| `JointScoreModel.CalculateProbabilitiesLayout` | streamlit_app.py:64-68 | The triple at index i * (max_goals + 1) + j is (i, j, home_probs[i] * away_probs[j]): row-major order with the home count outside. |
| `JointScoreModel.CalculateProbabilitiesPoisson` | streamlit_app.py:58-68 | The triple for score i-j, at index i * (max_goals + 1) + j, carries `poisson_prob(home_mean, i) * poisson_prob(away_mean, j)`. |
| `JointScoreModel.GridLayout` | streamlit_app.py:64-68 | For any two lists, position i * len(away) + j of their grid holds (i, j, home[i] * away[j]). |
| `JointScoreModel.CalculateProbabilitiesDistinct` | streamlit_app.py:64-68 | No (home, away) pair of goal counts occurs at two positions of the list. |
| `JointScoreModel.CalculateProbabilitiesCells` | streamlit_app.py:64-68 | Every triple has both goal counts within the cap, and its probability is the product of the two per-side entries for those counts. |
| `JointScoreModel.CalculateProbabilitiesPositive` | streamlit_app.py:62-68 | With positive means every scoreline has positive probability. |
| `JointScoreModel.GridMass` | streamlit_app.py:64-68 | For any two lists, the grid's total mass is the home sum times the away sum. |
| `JointScoreModel.CalculateProbabilitiesMass` | streamlit_app.py:62-68 | The list is not renormalised: its total is exactly the truncated home mass times the truncated away mass. |
| `JointScoreModel.CalculateProbabilitiesMassPositive` | streamlit_app.py:62-68 | With positive means and a non-negative cap the total mass is positive. |
| `OddsConverter.ImpliedProbability` | streamlit_app.py:70-71 | The implied probability times the price is exactly 1. A price above 1 gives a probability strictly between 0 and 1, and the probability is positive exactly when the price is. |
| `OddsConverter.ImpliedProbabilityInvolution` | streamlit_app.py:70-71 | Converting twice gives back the original price. |
| `OddsConverter.ImpliedProbabilityDecreasing` | streamlit_app.py:70-71 | Over positive prices the map is strictly decreasing and injective: a < b exactly when 1/a > 1/b, and a = b exactly when 1/a = 1/b. |
| `OddsConverter.NormalizeProbs` | streamlit_app.py:73-75 | With a non-zero total the three outputs sum to exactly 1, and each output times the total gives back its input. |
| `OddsConverter.NormalizeProbsBounds` | streamlit_app.py:73-75 | Positive inputs give outputs strictly between 0 and 1. |
| `OddsConverter.NormalizeProbsOrder` | streamlit_app.py:73-75 | With a positive total, normalising keeps both the weak and the strict order of every pair of outcomes, in both directions. |
| `OddsConverter.NormalizeProbsIdempotent` | streamlit_app.py:73-75 | Normalising an already normalised triple changes nothing. |
| `OddsConverter.NormalizeProbsScaleInvariant` | streamlit_app.py:73-75 | Scaling all three inputs by one non-zero factor leaves the result unchanged. |
| `OddsConverter.MatchOutcomeProbabilities` | streamlit_app.py:85-88 | The displayed home, draw and away probabilities sum to exactly 1. |
| `OddsConverter.MatchOutcomeFavourite` | streamlit_app.py:85-88 | With positive prices, the shorter price gets the strictly larger displayed probability, and equal prices get equal probabilities. The converse holds as well. |
| `OddsConverter.MatchOutcomeOverround` | streamlit_app.py:85-88 | When the implied probabilities add up to more than 1 (the bookmaker's overround), each displayed probability is strictly below its implied one. |
| `MarginAnalyzer.RoundHalfEven` | streamlit_app.py:56 | The rounded integer is within 1/2 of its argument, and an exact tie rounds to the even neighbour. |
| `MarginAnalyzer.RoundHalfEvenNearest` | streamlit_app.py:56 | No integer is closer to the argument than its rounding. |
| `MarginAnalyzer.Round2` | streamlit_app.py:56 | `round(x, 2)` is a whole number of hundredths within 0.005 of x. |
| `MarginAnalyzer.Round2Nearest` | streamlit_app.py:56 | No multiple of 0.01 is closer to x than `round(x, 2)`. |
| `MarginAnalyzer.Round2Idempotent` | streamlit_app.py:56 | Rounding a rounded value changes nothing. |
| `MarginAnalyzer.Round2Monotone` | streamlit_app.py:56 | Rounding never reverses the order of two values. |
| `MarginAnalyzer.MarginDifference` | streamlit_app.py:55-56 | The margin difference lies within 0.005 of target minus price. |
| `MarginAnalyzer.MarginDifferenceAtTarget` | streamlit_app.py:55-56 | A price equal to the target gives a margin difference of exactly 0. |
| `MarginAnalyzer.MarginDifferenceDecreasing` | streamlit_app.py:55-56 | Against a fixed target, a longer price never gives a larger margin difference. |
| `MarginAnalyzer.MarginDifferenceIncreasingInTarget` | streamlit_app.py:55-56 | Against a fixed price, a higher target never gives a smaller margin difference. |
| `MarginAnalyzer.MarginDifferenceExact` | streamlit_app.py:55-56 | When price and target are whole hundredths, the difference is exactly target minus price and rounding changes nothing. |
| `MarginAnalyzer.MarginDifferenceDefaultHomeWin` | streamlit_app.py:118 | The default home-win price 2.50 against the default match-result target 4.95 gives exactly 2.45. |
| `Ranker.FirstMax` | streamlit_app.py:100 | The returned position holds a most likely remaining cell, and no earlier position holds an equally likely one. |
| `Ranker.TopScores` | streamlit_app.py:100 | Selecting k cells gives min(k, len) distinct positions of the list, in non-increasing probability order. Every cell not selected is at most as likely as every selected cell. |
| `Ranker.TopCorrectScores` | streamlit_app.py:100 | The table holds min(5, len) cells, each taken from a different row of the input (as a multiset the table is contained in the input, so cells of a list without repeats, such as the grid, are pairwise different). They come most likely first, and no cell left out is more likely than any cell shown. |
| `Heatmap.ProbMatrix` | streamlit_app.py:129-132 | The matrix filled by the double loop has six rows, home goals 0..5, of six entries each, away goals 0..5. |
| `Heatmap.OuterMatchesGrid` | streamlit_app.py:129-132 | Entry [i][j] of the matrix filled by the double loop is the probability of the triple for (i, j) in the grid of the same two lists. |
| `Heatmap.ProbMatrixMatchesGrid` | streamlit_app.py:129-132 | The heatmap matrix is 6 x 6, and entry [i][j] is the probability `calculate_probabilities` gives score i-j with the default cap of 5. |
| `Heatmap.OuterMass` | streamlit_app.py:129-132 | The matrix carries the same total as the grid of the same two lists. |
| `Heatmap.ProbMatrixSum` | streamlit_app.py:129-133 | Before dividing, the matrix total equals the grid's total mass: the truncated home mass times the truncated away mass. |
| `Heatmap.ProbMatrixSumPositive` | streamlit_app.py:133 | With positive means the total is positive, so the division at line 133 is always defined for the widgets' inputs. |
| `Heatmap.Renormalise` | streamlit_app.py:133 | Dividing a matrix by its total keeps the number of rows and the length of every row. |
| `Heatmap.RenormaliseSum` | streamlit_app.py:133 | After dividing by a non-zero total, the entries sum to exactly 1. |
| `Heatmap.RenormaliseEntry` | streamlit_app.py:133 | Each entry of the result is the original entry divided by the original total, and every row keeps its length. |
| `Heatmap.RenormaliseIdempotent` | streamlit_app.py:133 | Renormalising an already renormalised matrix changes nothing. |
| `Heatmap.RenormalisedHeatmap` | streamlit_app.py:129-133 | The drawn matrix keeps the 6 x 6 shape after the in-place division. |
| `Heatmap.RenormalisedHeatmapSum` | streamlit_app.py:129-133 | The drawn heatmap sums to exactly 1. |
| `Heatmap.RenormalisedHeatmapEntry` | streamlit_app.py:129-133 | The drawn heatmap is 6 x 6, and entry [i][j] is the grid's probability of score i-j divided by the total mass. |

## Left out

- Streamlit widgets, the sidebar, `selected_points` filtering and every `st.*` output call are user interface (lines 9-52, 84-125). The model takes their values as parameters.
- pandas DataFrame construction and formatting, and the matplotlib charts, are presentation (lines 81, 101-113, 124-125, 135-144).
- The model uses `poisson_prob` where line 132 calls `scipy.stats.poisson.pmf`. scipy is a foreign library; its pmf is the same Poisson mass in exact arithmetic.
- Floating-point semantics are left out: the model computes over exact reals. This covers `np.exp`, the divisions and the products.
- MarginAnalyzer.Round2: rounds the exact real to the nearest hundredth, ties to even. Python rounds the binary double nearest to the decimal, which can decide some ties the other way.
- ScoreDistribution.PoissonProb: `exp` is known only to be positive. Statements that need its actual values are not proved. Examples are each mass being at most 1, or the per-side mass approaching 1 as the cap grows.
- The ranking's order among equally likely cells is left out. pandas' default sort is not stable, so the code promises no order between ties. The contracts state only properties that hold under every tie order; the method happens to take the earliest cell among equals.
- The `margin_differences` dictionary (lines 117-123) is five calls of the modelled margin function. Only the default home-win call is stated on its own.
- Over/under, both-teams-to-score and aggregate outcome probabilities are not computed by the code, so they are not modelled.
- Division by zero is left out. That covers the `ZeroDivisionError` of `1 / odds` and of `normalize_probs`, and the NaN matrix of numpy. The model makes the non-zero divisor a precondition.
