/** The ranking script: each step assigns new columns to the caller's table in place,
    then the ranking step builds a sorted copy and numbers its rows. */
module Ranking {
  import opened Wrappers
  import opened Sorting
  import opened Courses
  import opened Scores

  const SubScoreColumns := [LayoutColumn, DifficultyColumn, ConditionsColumn]
  const BlendInputColumns := [GolfQualityColumn, ValueScoreColumn]
  const CurvePriceColumn := "sat_noon_price_usd"
  const CurveValueColumn := "value_score"

  /** The price-to-value lookup table, in file order. */
  datatype Curve = Curve(columns: seq<string>, points: seq<Point>)

  /** A data frame: its column labels in order, and its rows. */
  class Frame {
    var columns: seq<string>
    const rows: array<Course>

    constructor (columns: seq<string>, rows: seq<Course>)
      ensures this.columns == columns && this.rows[..] == rows && fresh(this.rows)
    {
      this.columns := columns;
      this.rows := new Course[|rows|](i requires 0 <= i < |rows| => rows[i]);
    }
  }

  // ---------------------------------------------------------------- golf quality

  method ComputeGolfQuality(df: Frame) returns (out: Outcome<Error>)
    modifies df, df.rows
    ensures out == RequireColumns(SubScoreColumns, old(df.columns))
    ensures out.Fail? ==> df.columns == old(df.columns) && df.rows[..] == old(df.rows[..])
    ensures out.Pass? ==> df.columns == WithColumn(old(df.columns), GolfQualityColumn)
    ensures out.Pass? ==> forall i | 0 <= i < df.rows.Length ::
      df.rows[i] == old(df.rows[i]).(golfQuality := GolfQuality(old(df.rows[i])))
  {
    out := RequireColumns(SubScoreColumns, df.columns);
    if out.Fail? {
      return;
    }
    var i := 0;
    while i < df.rows.Length
      invariant 0 <= i <= df.rows.Length
      invariant df.columns == old(df.columns)
      invariant forall k | 0 <= k < i :: df.rows[k] == old(df.rows[k]).(golfQuality := GolfQuality(old(df.rows[k])))
      invariant forall k | i <= k < df.rows.Length :: df.rows[k] == old(df.rows[k])
    {
      df.rows[i] := df.rows[i].(golfQuality := GolfQuality(df.rows[i]));
      i := i + 1;
    }
    df.columns := WithColumn(df.columns, GolfQualityColumn);
  }

  // ---------------------------------------------------------------- value score

  /** The checks of the value-score step, in the order the script makes them. */
  function ValueScoreCheck(columns: seq<string>, curve: Curve): (o: Outcome<Error>)
    ensures o.Pass? <==> CurvePriceColumn in curve.columns && CurveValueColumn in curve.columns
                         && PriceColumn in columns && curve.points != []
    ensures o.Fail? ==> o.error in {MissingCurveColumns, MissingColumn(PriceColumn), EmptyCurve}
  {
    if !(CurvePriceColumn in curve.columns && CurveValueColumn in curve.columns) then Fail(MissingCurveColumns)
    else if PriceColumn !in columns then Fail(MissingColumn(PriceColumn))
    else if curve.points == [] then Fail(EmptyCurve)
    else Pass
  }

  /** Fills value_score by interpolating each price over the price-sorted curve. `warn` is the
      missing-price warning, given once the column checks have passed. */
  method ComputeValueScore(df: Frame, curve: Curve) returns (out: Outcome<Error>, warn: bool)
    requires DistinctPrices(curve.points)
    modifies df, df.rows
    ensures out == ValueScoreCheck(old(df.columns), curve)
    ensures warn <==> ((out.Pass? || out == Fail(EmptyCurve)) &&
                       exists i | 0 <= i < df.rows.Length :: old(df.rows[i]).price.None?)
    ensures out.Fail? ==> df.columns == old(df.columns) && df.rows[..] == old(df.rows[..])
    ensures out.Pass? ==> df.columns == WithColumn(old(df.columns), ValueScoreColumn)
    ensures out.Pass? ==> var sorted := SortCurve(curve.points);
      sorted != [] && Increasing(sorted) &&
      forall i | 0 <= i < df.rows.Length ::
        df.rows[i] == old(df.rows[i]).(valueScore := ValueFor(old(df.rows[i]).price, sorted))
  {
    warn := false;
    if !(CurvePriceColumn in curve.columns && CurveValueColumn in curve.columns) {
      return Fail(MissingCurveColumns), warn;
    }
    if PriceColumn !in df.columns {
      return Fail(MissingColumn(PriceColumn)), warn;
    }
    warn := exists i | 0 <= i < df.rows.Length :: df.rows[i].price.None?;
    var sorted := SortCurve(curve.points);
    if sorted == [] {
      return Fail(EmptyCurve), warn;
    }
    var i := 0;
    while i < df.rows.Length
      invariant 0 <= i <= df.rows.Length
      invariant df.columns == old(df.columns)
      invariant forall k | 0 <= k < i :: df.rows[k] == old(df.rows[k]).(valueScore := ValueFor(old(df.rows[k]).price, sorted))
      invariant forall k | i <= k < df.rows.Length :: df.rows[k] == old(df.rows[k])
    {
      df.rows[i] := df.rows[i].(valueScore := ValueFor(df.rows[i].price, sorted));
      i := i + 1;
    }
    df.columns := WithColumn(df.columns, ValueScoreColumn);
    out := Pass;
  }

  // ---------------------------------------------------------------- composite

  method ComputeCompositeScores(df: Frame) returns (out: Outcome<Error>)
    modifies df, df.rows
    ensures out == RequireColumns(BlendInputColumns, old(df.columns))
    ensures out.Fail? ==> df.columns == old(df.columns) && df.rows[..] == old(df.rows[..])
    ensures out.Pass? ==> df.columns == WithColumn(WithColumn(old(df.columns), ValueQualityColumn), CompositeColumn)
    ensures out.Pass? ==> forall i | 0 <= i < df.rows.Length ::
      var b := Blend(old(df.rows[i]).golfQuality, old(df.rows[i]).valueScore);
      df.rows[i] == old(df.rows[i]).(valueQuality := b, composite := b)
  {
    out := RequireColumns(BlendInputColumns, df.columns);
    if out.Fail? {
      return;
    }
    var i := 0;
    while i < df.rows.Length
      invariant 0 <= i <= df.rows.Length
      invariant df.columns == old(df.columns)
      invariant forall k | 0 <= k < i ::
        var b := Blend(old(df.rows[k]).golfQuality, old(df.rows[k]).valueScore);
        df.rows[k] == old(df.rows[k]).(valueQuality := b, composite := b)
      invariant forall k | i <= k < df.rows.Length :: df.rows[k] == old(df.rows[k])
    {
      var b := Blend(df.rows[i].golfQuality, df.rows[i].valueScore);
      df.rows[i] := df.rows[i].(valueQuality := b);
      df.rows[i] := df.rows[i].(composite := df.rows[i].valueQuality);
      i := i + 1;
    }
    df.columns := WithColumn(WithColumn(df.columns, ValueQualityColumn), CompositeColumn);
  }

  // ---------------------------------------------------------------- ranking

  /** Descending by composite_score, missing composites last. */
  predicate RanksAhead(a: Course, b: Course)
  {
    NoLaterDescending(a.composite, b.composite)
  }

  lemma RanksAheadIsTotalPreorder()
    ensures TotalPreorder(RanksAhead)
  {
  }

  /** Rows with the rank column blanked, to compare tables before and after ranking. */
  function Unranked(rows: seq<Course>): (u: seq<Course>)
    ensures |u| == |rows|
  {
    seq(|rows|, i requires 0 <= i < |rows| => rows[i].(rank := 0))
  }

  lemma MultisetWithout<T>(s: seq<T>, k: nat)
    requires k < |s|
    ensures multiset(s) == multiset(s[..k] + s[k + 1..]) + multiset{s[k]}
  {
    assert s == s[..k] + [s[k]] + s[k + 1..];
  }

  lemma CancelOne<T>(m: multiset<T>, n: multiset<T>, x: T)
    requires m + multiset{x} == n + multiset{x}
    ensures m == n
  {
    assert m == (m + multiset{x}) - multiset{x};
    assert n == (n + multiset{x}) - multiset{x};
  }

  lemma UnrankedWithout(s: seq<Course>, k: nat)
    requires k < |s|
    ensures multiset(Unranked(s)) == multiset(Unranked(s[..k] + s[k + 1..])) + multiset{s[k].(rank := 0)}
  {
    var u := Unranked(s);
    MultisetWithout(u, k);
    assert u[..k] + u[k + 1..] == Unranked(s[..k] + s[k + 1..]);
  }

  lemma {:induction false} UnrankedKeepsPermutation(a: seq<Course>, b: seq<Course>)
    requires multiset(a) == multiset(b)
    ensures multiset(Unranked(a)) == multiset(Unranked(b))
    decreases |a|
  {
    if a == [] {
      assert |b| == |multiset(b)| == 0;
    } else {
      var x := a[0];
      assert x in multiset(b);
      var k :| 0 <= k < |b| && b[k] == x;
      var a', b' := a[..0] + a[1..], b[..k] + b[k + 1..];
      assert multiset(a') == multiset(b') by {
        MultisetWithout(b, k);
        MultisetWithout(a, 0);
        CancelOne(multiset(a'), multiset(b'), x);
      }
      UnrankedKeepsPermutation(a', b');
      UnrankedWithout(a, 0);
      UnrankedWithout(b, k);
    }
  }

  /** What sorting by composite_score and numbering gives, whatever the sort does with ties:
      `ranked` is sorted best first, numbered 1..N, and apart from the rank column a
      permutation of `rows`. */
  ghost predicate IsRankingOf(ranked: seq<Course>, rows: seq<Course>)
  {
    && |ranked| == |rows|
    && Sorted(ranked, RanksAhead)
    && (forall i | 0 <= i < |ranked| :: ranked[i].rank == i + 1)
    && multiset(Unranked(ranked)) == multiset(Unranked(rows))
  }

  /** One ranking of `rows`: sorted by composite_score, best first, numbered 1..N.
      The model's sort keeps tied rows in input order, which is one order pandas may give. */
  function RankedRows(rows: seq<Course>): (ranked: seq<Course>)
    ensures |ranked| == |rows|
    ensures Sorted(ranked, RanksAhead)
    ensures forall i | 0 <= i < |ranked| :: ranked[i].rank == i + 1
    ensures multiset(Unranked(ranked)) == multiset(Unranked(rows))
    ensures IsRankingOf(ranked, rows)
  {
    RanksAheadIsTotalPreorder();
    var order := Sort(rows, RanksAhead);
    var ranked := seq(|order|, i requires 0 <= i < |order| => order[i].(rank := i + 1));
    assert Unranked(ranked) == Unranked(order);
    UnrankedKeepsPermutation(order, rows);
    ranked
  }

  /** A strictly higher composite_score always earns a smaller (better) rank,
      and a present composite ranks ahead of a missing one. */
  lemma HigherCompositeRanksFirst(ranked: seq<Course>, rows: seq<Course>, i: nat, j: nat)
    requires IsRankingOf(ranked, rows)
    requires i < |ranked| && j < |ranked|
    requires (ranked[i].composite.Some? && ranked[j].composite.None?) ||
      (ranked[i].composite.Some? && ranked[j].composite.Some? && ranked[i].composite.value > ranked[j].composite.value)
    ensures ranked[i].rank < ranked[j].rank
  {
  }

  method RankCourses(df: Frame) returns (out: Result<Frame, Error>)
    ensures out.Failure? <==> CompositeColumn !in df.columns
    ensures out.Failure? ==> out.error == MissingColumn(CompositeColumn)
    ensures out.Success? ==> fresh(out.value) && fresh(out.value.rows)
    ensures out.Success? ==> out.value.columns == WithColumn(df.columns, RankColumn)
    ensures out.Success? ==> IsRankingOf(out.value.rows[..], df.rows[..])
  {
    if CompositeColumn !in df.columns {
      return Failure(MissingColumn(CompositeColumn));
    }
    RanksAheadIsTotalPreorder();
    var order := Sort(df.rows[..], RanksAhead);
    var sorted := new Frame(df.columns, order);
    var i := 0;
    while i < sorted.rows.Length
      invariant 0 <= i <= sorted.rows.Length == |order|
      invariant sorted.columns == df.columns
      invariant forall k | 0 <= k < i :: sorted.rows[k] == order[k].(rank := k + 1)
      invariant forall k | i <= k < sorted.rows.Length :: sorted.rows[k] == order[k]
    {
      sorted.rows[i] := sorted.rows[i].(rank := i + 1);
      i := i + 1;
    }
    sorted.columns := WithColumn(sorted.columns, RankColumn);
    assert sorted.rows[..] == RankedRows(df.rows[..]);
    return Success(sorted);
  }

  // ---------------------------------------------------------------- whole pipeline

  /** One row after the three scoring steps (before ranking). */
  function Scored(c: Course, curve: seq<Point>): Course
    requires curve != [] && Increasing(curve)
  {
    var b := Blend(GolfQuality(c), ValueFor(c.price, curve));
    c.(golfQuality := GolfQuality(c), valueScore := ValueFor(c.price, curve), valueQuality := b, composite := b)
  }

  /** When the sub-scores and the curve's values all lie on one scale, so do the
      derived golf_quality, value_score and composite_score. */
  lemma ScoresStayOnScale(c: Course, curve: seq<Point>, lo: real, hi: real)
    requires curve != [] && Increasing(curve)
    requires forall x | x in [c.layout, c.difficulty, c.conditions] && x.Some? :: lo <= x.value <= hi
    requires forall p | p in curve :: lo <= p.value <= hi
    ensures var s := Scored(c, curve);
      && (s.golfQuality.Some? ==> lo <= s.golfQuality.value <= hi)
      && (s.valueScore.Some? ==> lo <= s.valueScore.value <= hi)
      && (s.composite.Some? ==> lo <= s.composite.value <= hi)
      && s.composite == s.valueQuality
  {
    MeanWithinBounds([c.layout, c.difficulty, c.conditions], lo, hi);
    assert curve[0] in curve;
    if c.price.Some? {
      InterpWithinValues(c.price.value, curve, lo, hi);
    }
  }

  lemma ExampleCurveIsSorted()
    ensures SortCurve([Point(0.0, 10.0), Point(100.0, 0.0)]) == [Point(0.0, 10.0), Point(100.0, 0.0)]
  {
    var curve := [Point(0.0, 10.0), Point(100.0, 0.0)];
    PriceNoLaterIsTotalPreorder();
    assert curve[1..] == [Point(100.0, 0.0)];
    assert curve[1..][1..] == [];
    assert Sort(curve[1..], PriceNoLater) == [Point(100.0, 0.0)];
  }

  /** A table of one row ranks it first. */
  lemma RankedSingleRow(c: Course)
    ensures RankedRows([c]) == [c.(rank := 1)]
  {
    RanksAheadIsTotalPreorder();
    assert [c][1..] == [];
    assert Sort([c], RanksAhead) == [c];
  }

  /** The scores of the example course on the example curve, taken as already sorted. */
  lemma ExampleScores()
    ensures var a := Course("A", "", Some(50.0), Some(8.0), Some(7.0), Some(9.0), None, None, None, None, 0);
      RankedRows([Scored(a, [Point(0.0, 10.0), Point(100.0, 0.0)])])
        == [a.(golfQuality := Some(8.0), valueScore := Some(5.0), valueQuality := Some(7.1), composite := Some(7.1), rank := 1)]
  {
    var curve := [Point(0.0, 10.0), Point(100.0, 0.0)];
    var a := Course("A", "", Some(50.0), Some(8.0), Some(7.0), Some(9.0), None, None, None, None, 0);
    GolfQualityOfCompleteRow(a);
    assert Interp(50.0, curve) == 5.0;
    RankedSingleRow(Scored(a, curve));
  }

  /** One course at price 50 with sub-scores 8, 7, 9 on a two-point curve from (0, 10) to (100, 0),
      sorted by price as the script does: golf_quality 8, value_score 5 (the midpoint),
      composite 0.7*8 + 0.3*5 = 7.1, rank 1. */
  lemma WorkedExample()
    ensures var a := Course("A", "", Some(50.0), Some(8.0), Some(7.0), Some(9.0), None, None, None, None, 0);
      var sorted := SortCurve([Point(0.0, 10.0), Point(100.0, 0.0)]);
      && sorted != [] && Increasing(sorted)
      && RankedRows([Scored(a, sorted)])
        == [a.(golfQuality := Some(8.0), valueScore := Some(5.0), valueQuality := Some(7.1), composite := Some(7.1), rank := 1)]
  {
    ExampleCurveIsSorted();
    ExampleScores();
  }

  /** The checks the whole run makes before it can succeed, in order. */
  function PipelineCheck(columns: seq<string>, curve: Curve): Outcome<Error>
  {
    var quality := RequireColumns(SubScoreColumns, columns);
    if quality.Fail? then quality else ValueScoreCheck(WithColumn(columns, GolfQualityColumn), curve)
  }

  /** The script's main run without file I/O, messages and output rounding. */
  method GenerateRanking(ratings: Frame, curve: Curve) returns (out: Result<Frame, Error>, warn: bool)
    requires DistinctPrices(curve.points)
    modifies ratings, ratings.rows
    ensures out.Failure? <==> PipelineCheck(old(ratings.columns), curve).Fail?
    ensures out.Failure? ==> out.error == PipelineCheck(old(ratings.columns), curve).error
    ensures warn <==> ((PipelineCheck(old(ratings.columns), curve).Pass? || PipelineCheck(old(ratings.columns), curve) == Fail(EmptyCurve)) &&
                       exists i | 0 <= i < ratings.rows.Length :: old(ratings.rows[i]).price.None?)
    ensures out.Success? ==>
      var sorted := SortCurve(curve.points);
      && sorted != [] && Increasing(sorted)
      && out.value.columns == WithColumn(WithColumn(WithColumn(WithColumn(WithColumn(
           old(ratings.columns), GolfQualityColumn), ValueScoreColumn), ValueQualityColumn), CompositeColumn), RankColumn)
      && IsRankingOf(out.value.rows[..], seq(ratings.rows.Length, i requires 0 <= i < ratings.rows.Length =>
           Scored(old(ratings.rows[i]), sorted)))
  {
    warn := false;
    var step := ComputeGolfQuality(ratings);
    if step.Fail? {
      return Failure(step.error), warn;
    }
    step, warn := ComputeValueScore(ratings, curve);
    if step.Fail? {
      return Failure(step.error), warn;
    }
    var sorted := SortCurve(curve.points);
    step := ComputeCompositeScores(ratings);
    assert step.Pass?;
    var scored := seq(ratings.rows.Length, i requires 0 <= i < ratings.rows.Length => Scored(old(ratings.rows[i]), sorted));
    assert ratings.rows[..] == scored;
    out := RankCourses(ratings);
  }
}
