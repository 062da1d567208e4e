/** The table schema both scripts share: column names, one course row, cell values,
    the errors they raise, and the column-presence checks. */
module Courses {
  import opened Wrappers

  const CourseColumn := "course"
  const CountyColumn := "county"
  const PriceColumn := "sat_noon_price"
  const LayoutColumn := "layout_score"
  const DifficultyColumn := "difficulty_score"
  const ConditionsColumn := "conditions_score"
  const GolfQualityColumn := "golf_quality"
  const ValueScoreColumn := "value_score"
  const ValueQualityColumn := "value_quality"
  const CompositeColumn := "composite_score"
  const RankColumn := "rank_position"

  /** One row of the ratings table. A field whose column the table lacks holds an
      arbitrary value that nothing reads; `None` is a missing (NaN) cell. */
  datatype Course = Course(
    name: string,
    county: string,
    price: Option<real>,
    layout: Option<real>,
    difficulty: Option<real>,
    conditions: Option<real>,
    golfQuality: Option<real>,
    valueScore: Option<real>,
    valueQuality: Option<real>,
    composite: Option<real>,
    rank: int)

  /** A cell of a report. */
  datatype Cell = Text(text: string) | Number(number: Option<real>) | Integer(integer: int)

  /** The cell of `c` under the column named `column`; columns outside the schema read as missing. */
  function Field(c: Course, column: string): Cell
  {
    if column == CourseColumn then Text(c.name)
    else if column == CountyColumn then Text(c.county)
    else if column == PriceColumn then Number(c.price)
    else if column == LayoutColumn then Number(c.layout)
    else if column == DifficultyColumn then Number(c.difficulty)
    else if column == ConditionsColumn then Number(c.conditions)
    else if column == GolfQualityColumn then Number(c.golfQuality)
    else if column == ValueScoreColumn then Number(c.valueScore)
    else if column == ValueQualityColumn then Number(c.valueQuality)
    else if column == CompositeColumn then Number(c.composite)
    else if column == RankColumn then Integer(c.rank)
    else Number(None)
  }

  /** What the scripts raise. */
  datatype Error =
    | MissingColumn(column: string)        // KeyError naming one absent column
    | MissingCurveColumns                  // KeyError: the curve lacks its price or value column
    | EmptyCurve                           // ValueError: interpolation over no sample points
    | MissingColumns(columns: seq<string>) // KeyError listing every absent required column

  /** `sub` keeps some of the entries of `s`, in the order they have in `s`. */
  ghost predicate Subsequence<T>(sub: seq<T>, s: seq<T>)
    decreases |s|
  {
    if sub == [] then true
    else if s == [] then false
    else (sub[0] == s[0] && Subsequence(sub[1..], s[1..])) || Subsequence(sub, s[1..])
  }

  /** The entries of `names` that are present in `columns` (`present`) or absent from them
      (`!present`), in listed order and with repeated entries kept. */
  function FilterColumns(names: seq<string>, columns: seq<string>, present: bool): (r: seq<string>)
    ensures Subsequence(r, names)
    ensures forall c :: multiset(r)[c] == if (c in columns) == present then multiset(names)[c] else 0
    ensures forall c :: c in r <==> c in names && (c in columns) == present
  {
    if names == [] then []
    else
      assert names == [names[0]] + names[1..];
      var rest := FilterColumns(names[1..], columns, present);
      if (names[0] in columns) == present then [names[0]] + rest else rest
  }

  /** The source's loop over required columns: raise on the first one that is absent. */
  function RequireColumns(required: seq<string>, columns: seq<string>): (o: Outcome<Error>)
    ensures o.Pass? <==> forall c | c in required :: c in columns
    ensures o.Fail? ==> o.error.MissingColumn? && o.error.column in required && o.error.column !in columns
  {
    if required == [] then Pass
    else if required[0] !in columns then Fail(MissingColumn(required[0]))
    else RequireColumns(required[1..], columns)
  }

  /** The error names the FIRST absent column: the head of the in-order list of absent ones. */
  lemma {:induction false} RequireColumnsNamesFirstMissing(required: seq<string>, columns: seq<string>)
    ensures RequireColumns(required, columns).Pass? <==> FilterColumns(required, columns, false) == []
    ensures RequireColumns(required, columns).Fail? ==>
      RequireColumns(required, columns).error == MissingColumn(FilterColumns(required, columns, false)[0])
  {
    if required != [] && required[0] in columns {
      RequireColumnsNamesFirstMissing(required[1..], columns);
    }
  }

  /** Assigning a column: a new name is appended, an existing one keeps its place. */
  function WithColumn(columns: seq<string>, c: string): (r: seq<string>)
    ensures c in r
    ensures |columns| <= |r| <= |columns| + 1
    ensures r[..|columns|] == columns
    ensures forall d | d in columns :: d in r
    ensures forall d | d in r :: d in columns || d == c
    ensures c in columns ==> r == columns
  {
    if c in columns then columns else columns + [c]
  }

  /** Key order for a descending sort with missing values last: `x` may come before `y`. */
  predicate NoLaterDescending(x: Option<real>, y: Option<real>)
  {
    y.None? || (x.Some? && x.value >= y.value)
  }

  /** Key order for an ascending sort with missing values last: `x` may come before `y`. */
  predicate NoLaterAscending(x: Option<real>, y: Option<real>)
  {
    y.None? || (x.Some? && x.value <= y.value)
  }
}
