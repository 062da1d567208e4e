/** The reporting script's table logic: the schema check on load and the two
    "top N under a two-key order" views, without its plots and console output. */
module Analysis {
  import opened Wrappers
  import opened Sorting
  import opened Courses

  const RequiredColumns := [CourseColumn, PriceColumn, GolfQualityColumn, ValueScoreColumn,
                            ValueQualityColumn, CompositeColumn, RankColumn]

  /** The ranked table as read back from the output file. */
  datatype Table = Table(columns: seq<string>, rows: seq<Course>)

  /** A report view: the chosen column labels and one row of cells per selected course. */
  datatype Report = Report(columns: seq<string>, rows: seq<seq<Cell>>)

  /** The sanity check after reading: fail listing every required column that is absent. */
  function LoadRankedCourses(t: Table): (r: Result<Table, Error>)
    ensures r.Failure? <==> exists c :: c in RequiredColumns && c !in t.columns
    ensures r.Success? ==> r.value == t
    ensures r.Failure? ==> r.error.MissingColumns?
    ensures r.Failure? ==> forall c :: c in r.error.columns <==> c in RequiredColumns && c !in t.columns
    ensures r.Failure? ==> Subsequence(r.error.columns, RequiredColumns)
  {
    var missing := FilterColumns(RequiredColumns, t.columns, false);
    if missing != [] then Failure(MissingColumns(missing)) else Success(t)
  }

  /** How many rows pandas' head(n) keeps: the first n, or for a negative n all but the last -n. */
  function HeadCount(length: nat, n: int): (k: nat)
    ensures k <= length
  {
    if n >= 0 then (if n < length then n else length)
    else if length + n > 0 then length + n else 0
  }

  /** The labels a report asks for: the region column if there is one and the price otherwise,
      then the price again, keeping only labels the table has, duplicates included. */
  function ReportColumns(columns: seq<string>): (r: seq<string>)
    ensures forall c | c in r :: c in columns
  {
    var wanted := [CourseColumn, if CountyColumn in columns then CountyColumn else PriceColumn, PriceColumn,
                   GolfQualityColumn, ValueScoreColumn, CompositeColumn, RankColumn];
    FilterColumns(wanted, columns, true)
  }

  /** Without a region column the price is listed twice and both copies stay. */
  lemma ReportColumnsRepeatPrice(columns: seq<string>)
    ensures PriceColumn in columns && CountyColumn !in columns ==> multiset(ReportColumns(columns))[PriceColumn] == 2
    ensures CountyColumn in columns ==> multiset(ReportColumns(columns))[CountyColumn] == 1
    ensures CountyColumn in columns && PriceColumn in columns ==> multiset(ReportColumns(columns))[PriceColumn] == 1
  {
    var wanted := [CourseColumn, if CountyColumn in columns then CountyColumn else PriceColumn, PriceColumn,
                   GolfQualityColumn, ValueScoreColumn, CompositeColumn, RankColumn];
    if CountyColumn in columns {
      assert multiset(wanted)[CountyColumn] == 1;
      assert multiset(wanted)[PriceColumn] == 1;
    } else {
      assert multiset(wanted)[PriceColumn] == 2;
    }
  }

  /** The cells of `c` under the labels `columns`, in that order. */
  function Project(c: Course, columns: seq<string>): (cells: seq<Cell>)
    ensures |cells| == |columns|
  {
    seq(|columns|, j requires 0 <= j < |columns| => Field(c, columns[j]))
  }

  /** The cells of each course under the labels `columns`. */
  function ProjectAll(courses: seq<Course>, columns: seq<string>): (cells: seq<seq<Cell>>)
    ensures |cells| == |courses|
  {
    seq(|courses|, i requires 0 <= i < |courses| => Project(courses[i], columns))
  }

  /** The courses a view keeps: sort under `before`, then head(topN). */
  function Selected(t: Table, before: (Course, Course) -> bool, topN: int): (top: seq<Course>)
    requires TotalPreorder(before)
    ensures |top| == HeadCount(|t.rows|, topN)
    ensures topN >= 0 ==> |top| == if topN < |t.rows| then topN else |t.rows|
    ensures Sorted(top, before)
    ensures multiset(top) <= multiset(t.rows)
    ensures forall i | 0 <= i < |top| :: top[i] in t.rows
    ensures forall x, y | x in multiset(t.rows) - multiset(top) && y in top :: before(y, x)
  {
    var top := Top(t.rows, before, HeadCount(|t.rows|, topN));
    assert forall i | 0 <= i < |top| :: top[i] in t.rows by {
      forall i | 0 <= i < |top| ensures top[i] in t.rows {
        assert top[i] in multiset(top);
      }
    }
    top
  }

  lemma ProjectedRowsComeFromTable(top: seq<Course>, rows: seq<Course>, columns: seq<string>)
    requires forall i | 0 <= i < |top| :: top[i] in rows
    ensures forall cells | cells in ProjectAll(top, columns) :: cells in ProjectAll(rows, columns)
  {
    forall cells | cells in ProjectAll(top, columns) ensures cells in ProjectAll(rows, columns) {
      var i :| 0 <= i < |top| && ProjectAll(top, columns)[i] == cells;
      var k :| 0 <= k < |rows| && rows[k] == top[i];
      assert ProjectAll(rows, columns)[k] == cells;
    }
  }

  /** Sort by `keys` under `before`, keep head(topN), then select the report's columns.
      Sorting by a key the table lacks raises on the first such key. */
  function Selection(t: Table, keys: seq<string>, before: (Course, Course) -> bool, topN: int): (r: Result<Report, Error>)
    requires TotalPreorder(before)
    ensures r.Failure? <==> exists k :: k in keys && k !in t.columns
    ensures r.Failure? ==> r.error == RequireColumns(keys, t.columns).error
    ensures r.Success? ==> r.value.columns == ReportColumns(t.columns)
    ensures r.Success? ==> r.value.rows == ProjectAll(Selected(t, before, topN), r.value.columns)
    ensures r.Success? ==> forall cells | cells in r.value.rows :: cells in ProjectAll(t.rows, r.value.columns)
  {
    var check := RequireColumns(keys, t.columns);
    if check.Fail? then
      Failure(check.error)
    else
      var columns := ReportColumns(t.columns);
      var top := Selected(t, before, topN);
      ProjectedRowsComeFromTable(top, t.rows, columns);
      Success(Report(columns, ProjectAll(top, columns)))
  }

  /** Undervalued first: higher value_score, then higher composite_score; missing values last. */
  predicate MoreUndervalued(a: Course, b: Course)
  {
    && NoLaterDescending(a.valueScore, b.valueScore)
    && (NoLaterDescending(b.valueScore, a.valueScore) ==> NoLaterDescending(a.composite, b.composite))
  }

  /** Overpriced first: lower value_score, then higher price; missing values last. */
  predicate MoreOverpriced(a: Course, b: Course)
  {
    && NoLaterAscending(a.valueScore, b.valueScore)
    && (NoLaterAscending(b.valueScore, a.valueScore) ==> NoLaterDescending(a.price, b.price))
  }

  lemma MoreUndervaluedIsTotalPreorder()
    ensures TotalPreorder(MoreUndervalued)
  {
  }

  lemma MoreOverpricedIsTotalPreorder()
    ensures TotalPreorder(MoreOverpriced)
  {
  }

  lemma UndervaluedOrder(top: seq<Course>)
    requires Sorted(top, MoreUndervalued)
    ensures forall i, j | 0 <= i < j < |top| ::
      && NoLaterDescending(top[i].valueScore, top[j].valueScore)
      && (top[i].valueScore == top[j].valueScore ==> NoLaterDescending(top[i].composite, top[j].composite))
  {
    forall i, j | 0 <= i < j < |top|
      ensures NoLaterDescending(top[i].valueScore, top[j].valueScore)
      ensures top[i].valueScore == top[j].valueScore ==> NoLaterDescending(top[i].composite, top[j].composite)
    {
      assert MoreUndervalued(top[i], top[j]);
    }
  }

  lemma OverpricedOrder(top: seq<Course>)
    requires Sorted(top, MoreOverpriced)
    ensures forall i, j | 0 <= i < j < |top| ::
      && NoLaterAscending(top[i].valueScore, top[j].valueScore)
      && (top[i].valueScore == top[j].valueScore ==> NoLaterDescending(top[i].price, top[j].price))
  {
    forall i, j | 0 <= i < j < |top|
      ensures NoLaterAscending(top[i].valueScore, top[j].valueScore)
      ensures top[i].valueScore == top[j].valueScore ==> NoLaterDescending(top[i].price, top[j].price)
    {
      assert MoreOverpriced(top[i], top[j]);
    }
  }

  /** Most undervalued first; ties on value_score go to the higher composite_score. */
  function GetMostUndervalued(t: Table, topN: int): (r: Result<Report, Error>)
    ensures r.Failure? <==> ValueScoreColumn !in t.columns || CompositeColumn !in t.columns
    ensures r.Success? ==> r.value.columns == ReportColumns(t.columns)
    ensures r.Success? ==>
      var top := (MoreUndervaluedIsTotalPreorder(); Selected(t, MoreUndervalued, topN));
      && r.value.rows == ProjectAll(top, r.value.columns)
      && multiset(top) <= multiset(t.rows)
      && forall i, j | 0 <= i < j < |top| ::
           && NoLaterDescending(top[i].valueScore, top[j].valueScore)
           && (top[i].valueScore == top[j].valueScore ==> NoLaterDescending(top[i].composite, top[j].composite))
  {
    MoreUndervaluedIsTotalPreorder();
    UndervaluedOrder(Selected(t, MoreUndervalued, topN));
    Selection(t, [ValueScoreColumn, CompositeColumn], MoreUndervalued, topN)
  }

  /** Most overpriced first; ties on value_score go to the higher price. */
  function GetMostOverpriced(t: Table, topN: int): (r: Result<Report, Error>)
    ensures r.Failure? <==> ValueScoreColumn !in t.columns || PriceColumn !in t.columns
    ensures r.Success? ==> r.value.columns == ReportColumns(t.columns)
    ensures r.Success? ==>
      var top := (MoreOverpricedIsTotalPreorder(); Selected(t, MoreOverpriced, topN));
      && r.value.rows == ProjectAll(top, r.value.columns)
      && multiset(top) <= multiset(t.rows)
      && forall i, j | 0 <= i < j < |top| ::
           && NoLaterAscending(top[i].valueScore, top[j].valueScore)
           && (top[i].valueScore == top[j].valueScore ==> NoLaterDescending(top[i].price, top[j].price))
  {
    MoreOverpricedIsTotalPreorder();
    OverpricedOrder(Selected(t, MoreOverpriced, topN));
    Selection(t, [ValueScoreColumn, PriceColumn], MoreOverpriced, topN)
  }
}
