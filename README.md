# NJ public golf course rankings — a Dafny model

This project models the scoring-and-ranking pipeline of the NJ public golf rankings
scripts and the table logic of their reporting script, and proves what each step
computes.

The ranking script runs four steps over the ratings table, in this order:

1. **Golf quality.** `golf_quality` is the row-wise mean of `layout_score`,
   `difficulty_score` and `conditions_score`.
2. **Value score.** The price curve is sorted by `sat_noon_price_usd`. Then each course's
   `sat_noon_price` is interpolated over it, the way NumPy's `interp` does: piecewise-linear
   between control points and flat beyond the first and last ones. A missing price gives a
   missing score, except over a one-point curve: there NumPy returns the point's value for
   every input, a missing one included.
3. **Blend.** `value_quality = 0.7 * golf_quality + 0.3 * value_score`, and
   `composite_score` is a copy of it.
4. **Ranking.** A sorted copy of the table is made, best `composite_score` first, and
   `rank_position` is set to 1..N down that copy.

Each step first checks that the columns it reads are present, and raises a key error if one
is not. Steps 1–3 assign their columns into the caller's table in place. The model therefore
has a `Frame` class: a list of column labels plus an array of `Course` records. The three
scoring steps are methods that rewrite those records. Ranking returns a fresh `Frame`.

The reporting script reads the ranked table back. It checks that seven columns are present,
and offers two views: "most undervalued" and "most overpriced". Each view sorts by two keys,
keeps `head(top_n)` and selects a fixed list of columns. These are pure functions over a
`Table` value.

Numbers are `real`. A missing (NaN) cell is `None` in an `Option<real>`.

Modules, one per source component:

- `Wrappers`: the `Option`, `Result` and `Outcome` types.
- `Sorting`: a sort by any total preorder, with proofs that the result is sorted and is a
  permutation of the input; `Top` takes the first k rows of it.
- `Courses`: the column names, the `Course` record, report cells, the errors, and the
  column-presence checks.
- `Scores`: the per-row arithmetic of `src/generate_ranking.py`.
- `Ranking`: the table-level steps of `src/generate_ranking.py`, and their composition.
- `Analysis`: `notebooks/analysis.py`.

Behaviour the model follows from the code, where a reader might assume otherwise:

- `.mean(axis=1)` skips missing cells. A row with one or two missing sub-scores gets the mean
  of the remaining ones. `golf_quality` is missing only when all three are missing.
- `rank_courses` sorts with pandas' default algorithm, which is not stable. `Ranking.RankCourses`
  and `Ranking.GenerateRanking` promise only `Ranking.IsRankingOf`: the result is sorted (missing
  composites last), numbered 1..N, and apart from the rank a permutation of the input. They say
  nothing about the order of tied rows. `Ranking.RankedRows` is one such ranking. It keeps tied
  rows in input order, which is one order pandas may produce.
- The two report views sort by two keys, which pandas does stably. The model's sort is stable too,
  so rows tied on both keys keep their input order in the model as in the script.
- The comment above the missing-price check says those rows are dropped. The code only warns,
  and the warning says their `value_score` will be missing. With two or more curve points it
  is. With a one-point curve NumPy gives such a row the point's value, and the model does too.
- `head(n)` with a negative `n` keeps all but the last `-n` rows. The model keeps that case.

## Model

| member | source | states |
|---|---|---|
| `Courses.RequireColumns` | src/generate_ranking.py:71-73 | passes exactly when every required column is present; otherwise fails with a key error naming a required column that is absent |
| `Courses.RequireColumnsNamesFirstMissing` | src/generate_ranking.py:130-132 | the column named in the error is the first absent column in listed order; the check passes exactly when the in-order list of absent columns is empty |
| `Courses.FilterColumns` | notebooks/analysis.py:64 | keeps the listed names that are present (or absent) in the table's columns, in listed order and with each name kept as often as it is listed |
| `Courses.WithColumn` | src/generate_ranking.py:75 | assigning a column keeps every existing label in its place and adds the new label at the end only if it was not there |
| `Sorting.Sort` | src/generate_ranking.py:155 | the sorted rows are a permutation of the input (same multiset) and every earlier row may precede every later one under the order |
| `Sorting.Top` | notebooks/analysis.py:153-154 | the first k rows after sorting: k rows, sorted, drawn from the input, and no row left out ranks strictly ahead of a kept one |
| `Scores.PresentValuesCount` | src/generate_ranking.py:75-79 | the present values keep each value exactly as often as it occurs among the cells, so the mean counts repeated scores |
| `Scores.MeanSkippingMissing` | src/generate_ranking.py:75-79 | the row mean skips missing cells and is missing exactly when every cell is missing |
| `Scores.MeanWithinBounds` | src/generate_ranking.py:75-79 | the mean lies within any bounds that every present sub-score respects |
| `Scores.GolfQuality` | src/generate_ranking.py:75-79 | defines golf_quality as the skip-missing mean of layout, difficulty and conditions; characterised by `Scores.GolfQualityMissing`, `Scores.GolfQualityOfCompleteRow`, `Scores.GolfQualitySkipsMissingLayout` and `Scores.MeanWithinBounds` |
| `Scores.GolfQualityMissing` | src/generate_ranking.py:75-79 | golf_quality is missing exactly when all three sub-scores are missing |
| `Scores.GolfQualityOfCompleteRow` | src/generate_ranking.py:75-79 | with all three sub-scores present, golf_quality is (layout + difficulty + conditions) / 3 |
| `Scores.GolfQualitySkipsMissingLayout` | src/generate_ranking.py:75-79 | with layout missing and the other two present, golf_quality is their mean, (difficulty + conditions) / 2 |
| `Scores.SortCurve` | src/generate_ranking.py:110-113 | the sorted curve holds the same points with prices non-decreasing, and strictly increasing when no two points share a price |
| `Scores.SortKeepsDistinctIncreasing` | src/generate_ranking.py:110-113 | sorting a curve whose prices are pairwise distinct yields strictly increasing prices |
| `Scores.Interp` | src/generate_ranking.py:117-118 | defines NumPy's interp over a curve of increasing prices; `Scores.InterpBetween` and `Scores.InterpClamped` together fix its value at every price |
| `Scores.InterpBetween` | src/generate_ranking.py:117-118 | for a price between two neighbouring control points (ends included), value_score is v0 + (v1 - v0)(p - p0)/(p1 - p0) |
| `Scores.InterpAtControlPoint` | src/generate_ranking.py:117-118 | at a control point's own price, value_score is that point's value |
| `Scores.InterpClamped` | src/generate_ranking.py:117-118 | at or below the lowest curve price value_score is the first point's value; at or above the highest it is the last point's value |
| `Scores.InterpWithinValues` | src/generate_ranking.py:117-118 | every interpolated value lies within any bounds that all curve values respect, so between the curve's minimum and maximum value |
| `Scores.ValueFor` | src/generate_ranking.py:115-118 | a row's value_score is missing exactly when its price is missing and the curve has more than one point; a present price gets the interpolated value; over a one-point curve every row gets that point's value |
| `Scores.Blend` | src/generate_ranking.py:137-139 | the blend is present exactly when both inputs are, and lies between the smaller and the larger of golf_quality and value_score |
| `Scores.BlendMonotone` | src/generate_ranking.py:137-139 | raising golf_quality or value_score never lowers the blend |
| `Ranking.ValueScoreCheck` | src/generate_ranking.py:96-104 | the value step's checks in order (curve columns, ratings price column, then a non-empty curve): it passes exactly when all three hold, and otherwise fails with one of their three errors |
| `Ranking.ComputeGolfQuality` | src/generate_ranking.py:69-80 | fails with the first missing sub-score column and leaves the table unchanged; otherwise every row gains golf_quality, the skip-missing mean of its sub-scores, and nothing else changes |
| `Ranking.ComputeValueScore` | src/generate_ranking.py:83-121 | fails, table unchanged, when the curve lacks its price or value column, then when the ratings lack the price column, then when the curve is empty; the warning is raised exactly when some price is missing and the column checks passed; otherwise each row's value_score is its price interpolated over the price-sorted curve, as `Scores.ValueFor` gives it: missing for a missing price unless the curve has a single point |
| `Ranking.ComputeCompositeScores` | src/generate_ranking.py:124-146 | fails with the first missing input column, table unchanged; otherwise each row's value_quality is 0.7 golf_quality + 0.3 value_score and composite_score equals value_quality |
| `Ranking.RanksAhead` | src/generate_ranking.py:155 | defines the ranking order: composite_score descending, missing composites last; `Ranking.RanksAheadIsTotalPreorder` proves it a total preorder |
| `Ranking.RanksAheadIsTotalPreorder` | src/generate_ranking.py:155 | the ranking order is total and transitive, so sorting by it is well defined |
| `Ranking.RankedRows` | src/generate_ranking.py:154-156 | one ranking of the rows (`Ranking.IsRankingOf`): sorted by composite_score descending with missing composites last, rank_position at index i is i + 1, and apart from rank_position a permutation of the input rows; tied rows keep input order |
| `Ranking.UnrankedKeepsPermutation` | src/generate_ranking.py:155-156 | overwriting rank_position on both sides preserves a permutation between two tables |
| `Ranking.HigherCompositeRanksFirst` | src/generate_ranking.py:154-156 | in any ranking of the rows, a row with a strictly higher composite_score, or a present composite against a missing one, gets a smaller rank_position |
| `Ranking.RankedSingleRow` | src/generate_ranking.py:155-156 | a one-row table is ranked 1 |
| `Ranking.RankCourses` | src/generate_ranking.py:149-157 | fails exactly when composite_score is absent; otherwise returns a fresh table whose columns gain rank_position and whose rows are a ranking of the caller's rows (`Ranking.IsRankingOf`: sorted, numbered 1..N, a permutation apart from rank, tie order unstated), leaving the caller's table untouched |
| `Ranking.ScoresStayOnScale` | src/generate_ranking.py:69-146 | when the sub-scores and the curve values share a scale, golf_quality, value_score and composite_score stay on it, and composite_score equals value_quality |
| `Ranking.ExampleCurveIsSorted` | src/generate_ranking.py:110-111 | the example curve (0, 10), (100, 0) is already in price order, so sorting leaves it unchanged |
| `Ranking.ExampleScores` | src/generate_ranking.py:75-156 | on the example curve a course at price 50 with sub-scores 8, 7, 9 gets golf_quality 8, value_score 5, value_quality = composite_score = 7.1 and rank 1 |
| `Ranking.WorkedExample` | src/generate_ranking.py:167-180 | the same course scored over the example curve after the script's price sort gets golf_quality 8, value_score 5, value_quality = composite_score = 7.1 and rank 1 |
| `Ranking.GenerateRanking` | src/generate_ranking.py:167-180 | the run fails exactly when a step's checks fail, with that step's error; otherwise the result has the five derived columns and its rows are a ranking (`Ranking.IsRankingOf`) of the scored input rows, tie order unstated; the missing-price warning is raised exactly when the checks before the empty-curve test pass and some input price is missing |
| `Analysis.LoadRankedCourses` | notebooks/analysis.py:55-66 | fails exactly when a required column is absent, listing exactly the absent required columns in their listed order; otherwise returns the table unchanged |
| `Analysis.HeadCount` | notebooks/analysis.py:154 | head(n) keeps at most the table's row count |
| `Analysis.ReportColumns` | notebooks/analysis.py:141-150 | every selected label is a column of the table |
| `Analysis.ReportColumnsRepeatPrice` | notebooks/analysis.py:141-150 | without a county column the price label is selected twice; with one, county and price are each selected once |
| `Analysis.Project` | notebooks/analysis.py:155 | selecting columns gives one cell per requested label |
| `Analysis.ProjectAll` | notebooks/analysis.py:155 | selecting columns keeps one report row per course |
| `Analysis.Selected` | notebooks/analysis.py:152-155 | the kept courses are min(top_n, N) rows for top_n >= 0 (all but the last -top_n for a negative one), sorted by the view's order, a sub-multiset of the input rows (no course repeated or invented), and no left-out row ranks strictly ahead of a kept one |
| `Analysis.ProjectedRowsComeFromTable` | notebooks/analysis.py:155 | projecting rows taken from the table gives rows of the projected table |
| `Analysis.Selection` | notebooks/analysis.py:152-156 | fails exactly when a sort key is absent, naming the first; otherwise the report has the selected labels and its rows are the cells of `Analysis.Selected`'s courses (a sub-multiset of the input), each an input row's cells unchanged |
| `Analysis.MoreUndervalued` | notebooks/analysis.py:153 | defines the undervalued order: value_score descending, then composite_score descending, missing values last in each key; `Analysis.MoreUndervaluedIsTotalPreorder` and `Analysis.UndervaluedOrder` characterise it |
| `Analysis.MoreOverpriced` | notebooks/analysis.py:180 | defines the overpriced order: value_score ascending, then price descending, missing values last in each key; `Analysis.MoreOverpricedIsTotalPreorder` and `Analysis.OverpricedOrder` characterise it |
| `Analysis.MoreUndervaluedIsTotalPreorder` | notebooks/analysis.py:153 | the undervalued order is total and transitive |
| `Analysis.MoreOverpricedIsTotalPreorder` | notebooks/analysis.py:180 | the overpriced order is total and transitive |
| `Analysis.UndervaluedOrder` | notebooks/analysis.py:153 | in the undervalued order, value_score is non-increasing (missing last) and ties on value_score are ordered by composite_score descending |
| `Analysis.OverpricedOrder` | notebooks/analysis.py:180 | in the overpriced order, value_score is non-decreasing (missing last) and ties on value_score are ordered by price descending |
| `Analysis.GetMostUndervalued` | notebooks/analysis.py:133-157 | fails exactly when value_score or composite_score is absent; otherwise the report has the selected labels and its rows are the kept courses, a sub-multiset of the input, highest value_score first, ties by higher composite_score |
| `Analysis.GetMostOverpriced` | notebooks/analysis.py:160-184 | fails exactly when value_score or the price is absent; otherwise the report has the selected labels and its rows are the kept courses, a sub-multiset of the input, lowest value_score first, ties by higher price |

## Left out

- Reading the two input files, their existence checks, writing the output file and creating its directory are file I/O. `load_data`, `save_results` and the read in `load_ranked_courses` are not modelled: the parsed table is a parameter.
- The progress and warning messages are console output. The missing-price warning is the `warn` result of `Ranking.ComputeValueScore`.
- Rounding the four score columns to 3 decimals before writing is cosmetic float formatting.
- The plots, `print_summary` and `main` of the reporting script are presentation only.
- IEEE floating point is not modelled: arithmetic is exact over `real`, and NaN is `None`. The `astype(float)` coercions are dropped.
- Columns outside the known schema, which pandas carries through unchanged, are not represented in `Course`.
- `compute_value_score`'s `price_col` and `output_col` parameters are fixed at their defaults, the only values the script passes.
- Curve points with a missing price or value are not modelled: curve points are pairs of reals.
- Ranking.ComputeValueScore: requires the curve's prices to be pairwise distinct, because with a repeated price NumPy's result depends on its sort and search internals.
- Ranking.GenerateRanking: requires pairwise distinct curve prices, for the same reason.
- Ranking.RankCourses: does not state the order of rows whose composite_score ties, because pandas' default sort is not stable.
- Analysis.GetMostUndervalued: rows that tie on both keys keep their input order, as pandas' stable multi-key sort gives. This follows from the model's stable sort, and no lemma states it on its own.
- Analysis.GetMostOverpriced: rows that tie on both keys keep their input order, as pandas' stable multi-key sort gives. This follows from the model's stable sort, and no lemma states it on its own.
- Ranking.GenerateRanking: does not state what the caller's table holds after a failed run; the steps that ran before the failure have already written their columns into it.
- The sort algorithm is a model choice: a stable insertion sort, not pandas' quicksort or lexsort. For the ranking step only sortedness, numbering and permutation are claimed.
