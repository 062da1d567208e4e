/** The per-row arithmetic of the ranking script: the mean of the three sub-scores,
    NumPy-style piecewise-linear interpolation over the price curve, and the weighted blend. */
module Scores {
  import opened Wrappers
  import opened Sorting
  import opened Courses

  const GolfQualityWeight: real := 0.7
  const ValueScoreWeight: real := 0.3

  // ---------------------------------------------------------------- golf quality

  /** The values of the cells that are not missing, in order. */
  function PresentValues(xs: seq<Option<real>>): (vs: seq<real>)
    ensures |vs| <= |xs|
    ensures forall v :: v in vs <==> Some(v) in xs
    ensures vs == [] <==> forall x | x in xs :: x.None?
  {
    if xs == [] then []
    else
      assert xs == [xs[0]] + xs[1..];
      var rest := PresentValues(xs[1..]);
      if xs[0].Some? then [xs[0].value] + rest else rest
  }

  /** Each present value is kept exactly as often as it occurs. */
  lemma {:induction false} PresentValuesCount(xs: seq<Option<real>>, v: real)
    ensures multiset(PresentValues(xs))[v] == multiset(xs)[Some(v)]
    decreases |xs|
  {
    if xs != [] {
      PresentValuesCount(xs[1..], v);
      assert xs == [xs[0]] + xs[1..];
      assert multiset(xs) == multiset{xs[0]} + multiset(xs[1..]);
      if xs[0].Some? {
        assert PresentValues(xs) == [xs[0].value] + PresentValues(xs[1..]);
        assert multiset(PresentValues(xs)) == multiset{xs[0].value} + multiset(PresentValues(xs[1..]));
      }
    }
  }

  function Sum(vs: seq<real>): real
  {
    if vs == [] then 0.0 else vs[0] + Sum(vs[1..])
  }

  lemma {:induction false} SumBounds(vs: seq<real>, lo: real, hi: real)
    requires forall v | v in vs :: lo <= v <= hi
    ensures |vs| as real * lo <= Sum(vs) <= |vs| as real * hi
  {
    if vs != [] {
      var rest := vs[1..];
      assert forall v | v in rest :: v in vs;
      SumBounds(rest, lo, hi);
      assert vs[0] in vs;
      assert Sum(vs) == vs[0] + Sum(rest);
      assert |vs| as real == |rest| as real + 1.0;
      SumStep(vs[0], Sum(rest), |rest| as real, lo, hi);
    }
  }

  lemma SumStep(x: real, total: real, n: real, lo: real, hi: real)
    requires lo <= x <= hi
    requires n * lo <= total <= n * hi
    ensures (n + 1.0) * lo <= x + total <= (n + 1.0) * hi
  {
    assert (n + 1.0) * lo == n * lo + lo;
    assert (n + 1.0) * hi == n * hi + hi;
  }

  /** A row-wise mean that skips missing cells: missing only when every cell is. */
  function MeanSkippingMissing(xs: seq<Option<real>>): (m: Option<real>)
    ensures m.None? <==> forall x | x in xs :: x.None?
  {
    var vs := PresentValues(xs);
    if vs == [] then None else Some(Sum(vs) / |vs| as real)
  }

  /** The mean lies within any bounds that hold for every present cell. */
  lemma MeanWithinBounds(xs: seq<Option<real>>, lo: real, hi: real)
    requires forall x | x in xs && x.Some? :: lo <= x.value <= hi
    ensures MeanSkippingMissing(xs).Some? ==> lo <= MeanSkippingMissing(xs).value <= hi
  {
    var vs := PresentValues(xs);
    if vs != [] {
      forall v | v in vs ensures lo <= v <= hi {
        assert Some(v) in xs;
      }
      AverageWithinBounds(vs, lo, hi);
    }
  }

  lemma AverageWithinBounds(vs: seq<real>, lo: real, hi: real)
    requires vs != []
    requires forall v | v in vs :: lo <= v <= hi
    ensures lo <= Sum(vs) / |vs| as real <= hi
  {
    SumBounds(vs, lo, hi);
    DivideBounds(Sum(vs), |vs| as real, lo, hi);
  }

  lemma DivideBounds(total: real, n: real, lo: real, hi: real)
    requires n > 0.0
    requires n * lo <= total <= n * hi
    ensures lo <= total / n <= hi
  {
    assert total / n * n == total;
  }

  /** golf_quality: the mean of layout, difficulty and conditions, skipping missing ones. */
  function GolfQuality(c: Course): Option<real>
  {
    MeanSkippingMissing([c.layout, c.difficulty, c.conditions])
  }

  /** golf_quality is missing exactly when all three sub-scores are. */
  lemma GolfQualityMissing(c: Course)
    ensures GolfQuality(c).None? <==> c.layout.None? && c.difficulty.None? && c.conditions.None?
  {
    var xs := [c.layout, c.difficulty, c.conditions];
    assert xs[0] == c.layout && xs[1] == c.difficulty && xs[2] == c.conditions;
  }

  lemma GolfQualityOfCompleteRow(c: Course)
    requires c.layout.Some? && c.difficulty.Some? && c.conditions.Some?
    ensures GolfQuality(c) == Some((c.layout.value + c.difficulty.value + c.conditions.value) / 3.0)
  {
    var xs := [c.layout, c.difficulty, c.conditions];
    assert xs[1..] == [c.difficulty, c.conditions];
    assert xs[1..][1..] == [c.conditions];
    assert PresentValues(xs[1..][1..]) == [c.conditions.value];
    assert PresentValues(xs[1..]) == [c.difficulty.value, c.conditions.value];
    var vs := [c.layout.value, c.difficulty.value, c.conditions.value];
    assert PresentValues(xs) == vs;
    var tail1, tail2 := [c.difficulty.value, c.conditions.value], [c.conditions.value];
    assert vs[1..] == tail1 && tail1[1..] == tail2 && tail2[1..] == [];
    assert Sum(tail2) == c.conditions.value;
    assert Sum(tail1) == c.difficulty.value + c.conditions.value;
  }

  lemma GolfQualitySkipsMissingLayout(c: Course)
    requires c.layout.None? && c.difficulty.Some? && c.conditions.Some?
    ensures GolfQuality(c) == Some((c.difficulty.value + c.conditions.value) / 2.0)
  {
    var xs := [c.layout, c.difficulty, c.conditions];
    assert xs[1..] == [c.difficulty, c.conditions];
    assert xs[1..][1..] == [c.conditions];
    assert PresentValues(xs[1..][1..]) == [c.conditions.value];
    assert PresentValues(xs[1..]) == [c.difficulty.value, c.conditions.value];
    var vs := [c.difficulty.value, c.conditions.value];
    assert PresentValues(xs) == vs;
    var tail := [c.conditions.value];
    assert vs[1..] == tail && tail[1..] == [];
    assert Sum(tail) == c.conditions.value;
  }

  // ---------------------------------------------------------------- price curve

  /** A control point of the price-to-value curve. */
  datatype Point = Point(price: real, value: real)

  predicate DistinctPrices(points: seq<Point>)
  {
    forall i, j | 0 <= i < j < |points| :: points[i].price != points[j].price
  }

  predicate Increasing(points: seq<Point>)
  {
    forall i, j | 0 <= i < j < |points| :: points[i].price < points[j].price
  }

  predicate PriceNoLater(p: Point, q: Point)
  {
    p.price <= q.price
  }

  lemma PriceNoLaterIsTotalPreorder()
    ensures TotalPreorder(PriceNoLater)
  {
  }

  lemma {:induction false} InsertKeepsIncreasing(x: Point, s: seq<Point>)
    requires Increasing(s)
    requires forall p | p in s :: p.price != x.price
    ensures Increasing(Insert(x, s, PriceNoLater))
    decreases |s|
  {
    if s == [] || PriceNoLater(x, s[0]) {
      forall j | 0 <= j < |s| ensures x.price < s[j].price {
        assert s[j] in s;
        assert s[0].price <= s[j].price;
      }
      IncreasingCons(x, s);
    } else {
      var rest := Insert(x, s[1..], PriceNoLater);
      assert forall p | p in s[1..] :: p in s;
      InsertKeepsIncreasing(x, s[1..]);
      forall j | 0 <= j < |rest| ensures s[0].price < rest[j].price {
        assert rest[j] in multiset(rest);
        if rest[j] != x {
          assert rest[j] in multiset(s[1..]);
          var k :| 0 <= k < |s[1..]| && s[1..][k] == rest[j];
          assert s[k + 1] == rest[j];
        }
      }
      IncreasingCons(s[0], rest);
    }
  }

  lemma IncreasingCons(head: Point, tail: seq<Point>)
    requires Increasing(tail)
    requires forall j | 0 <= j < |tail| :: head.price < tail[j].price
    ensures Increasing([head] + tail)
  {
    var r := [head] + tail;
    forall i, j | 0 <= i < j < |r| ensures r[i].price < r[j].price {
      if i == 0 {
        assert r[j] == tail[j - 1];
      } else {
        assert r[i] == tail[i - 1] && r[j] == tail[j - 1];
      }
    }
  }

  lemma {:induction false} SortKeepsDistinctIncreasing(points: seq<Point>)
    ensures TotalPreorder(PriceNoLater)
    ensures DistinctPrices(points) ==> Increasing(Sort(points, PriceNoLater))
    decreases |points|
  {
    PriceNoLaterIsTotalPreorder();
    if points != [] && DistinctPrices(points) {
      var rest := Sort(points[1..], PriceNoLater);
      SortKeepsDistinctIncreasing(points[1..]);
      forall p | p in rest ensures p.price != points[0].price {
        assert p in multiset(points[1..]);
        var k :| 0 <= k < |points[1..]| && points[1..][k] == p;
        assert points[k + 1] == p;
      }
      InsertKeepsIncreasing(points[0], rest);
    }
  }

  /** The curve sorted by price, as the script does before interpolating. */
  function SortCurve(points: seq<Point>): (sorted: seq<Point>)
    ensures multiset(sorted) == multiset(points)
    ensures forall i, j | 0 <= i < j < |sorted| :: sorted[i].price <= sorted[j].price
    ensures DistinctPrices(points) ==> Increasing(sorted)
  {
    PriceNoLaterIsTotalPreorder();
    SortKeepsDistinctIncreasing(points);
    Sort(points, PriceNoLater)
  }

  /** The straight line through `p` and `q`, read at `x`. */
  function Lerp(p: Point, q: Point, x: real): real
    requires p.price < q.price
  {
    p.value + (q.value - p.value) * (x - p.price) / (q.price - p.price)
  }

  /** NumPy's interp of one price over a curve with increasing prices: flat at both ends,
      linear between neighbouring control points. */
  function Interp(x: real, points: seq<Point>): real
    requires points != [] && Increasing(points)
    decreases |points|
  {
    if |points| == 1 || x <= points[0].price then points[0].value
    else if x <= points[1].price then Lerp(points[0], points[1], x)
    else Interp(x, points[1..])
  }

  /** Between two neighbouring control points (ends included) the curve is their straight line. */
  lemma {:induction false} InterpBetween(x: real, points: seq<Point>, k: nat)
    requires Increasing(points)
    requires k + 1 < |points|
    requires points[k].price <= x <= points[k + 1].price
    ensures Interp(x, points) == Lerp(points[k], points[k + 1], x)
    decreases k
  {
    if k == 0 {
      if x <= points[0].price {
        assert x == points[0].price;
        LerpAtStart(points[0], points[1]);
      }
    } else {
      assert points[0].price < points[k].price;
      assert points[1].price <= points[k].price;
      if x <= points[1].price {
        assert k == 1 && x == points[1].price;
        LerpAtStart(points[1], points[2]);
      } else {
        var rest := points[1..];
        assert rest[k - 1] == points[k] && rest[k] == points[k + 1];
        InterpBetween(x, rest, k - 1);
        assert Interp(x, points) == Interp(x, rest);
      }
    }
  }

  lemma LerpAtStart(p: Point, q: Point)
    requires p.price < q.price
    ensures Lerp(p, q, p.price) == p.value
  {
    var x := p.price;
    assert x - p.price == 0.0;
    assert (q.value - p.value) * (x - p.price) == 0.0;
  }

  lemma LerpAtEnd(p: Point, q: Point)
    requires p.price < q.price
    ensures Lerp(p, q, q.price) == q.value
  {
    var d := q.price - p.price;
    assert (q.value - p.value) * d / d == q.value - p.value;
  }

  /** At a control point's own price the result is that point's value. */
  lemma InterpAtControlPoint(points: seq<Point>, k: nat)
    requires Increasing(points)
    requires k < |points|
    ensures Interp(points[k].price, points) == points[k].value
  {
    if k + 1 < |points| {
      InterpBetween(points[k].price, points, k);
      LerpAtStart(points[k], points[k + 1]);
    } else {
      InterpClamped(points[k].price, points);
    }
  }

  /** Below the cheapest control point the value is the first point's, above the dearest the last's. */
  lemma {:induction false} InterpClamped(x: real, points: seq<Point>)
    requires points != [] && Increasing(points)
    ensures x <= points[0].price ==> Interp(x, points) == points[0].value
    ensures x >= points[|points| - 1].price ==> Interp(x, points) == points[|points| - 1].value
    decreases |points|
  {
    if |points| > 1 && x >= points[|points| - 1].price {
      assert points[1].price <= points[|points| - 1].price;
      if x <= points[1].price {
        assert |points| == 2 && x == points[1].price;
        LerpAtEnd(points[0], points[1]);
      } else {
        var rest := points[1..];
        assert rest[|rest| - 1] == points[|points| - 1];
        InterpClamped(x, rest);
        assert Interp(x, points) == Interp(x, rest);
      }
    }
  }

  lemma LerpWithin(p: Point, q: Point, x: real, lo: real, hi: real)
    requires p.price < q.price
    requires p.price <= x <= q.price
    requires lo <= p.value <= hi && lo <= q.value <= hi
    ensures lo <= Lerp(p, q, x) <= hi
  {
    var t := (x - p.price) / (q.price - p.price);
    FractionWithinUnit(x - p.price, q.price - p.price);
    assert (q.value - p.value) * (x - p.price) / (q.price - p.price) == (q.value - p.value) * t;
    assert Lerp(p, q, x) == (1.0 - t) * p.value + t * q.value;
    ScaleKeepsOrder(1.0 - t, lo, p.value);
    ScaleKeepsOrder(1.0 - t, p.value, hi);
    ScaleKeepsOrder(t, lo, q.value);
    ScaleKeepsOrder(t, q.value, hi);
    assert (1.0 - t) * lo + t * lo == lo;
    assert (1.0 - t) * hi + t * hi == hi;
  }

  lemma ScaleKeepsOrder(a: real, x: real, y: real)
    requires 0.0 <= a && x <= y
    ensures a * x <= a * y
  {
    assert a * y - a * x == a * (y - x);
  }

  lemma FractionWithinUnit(u: real, d: real)
    requires 0.0 <= u <= d && d > 0.0
    ensures 0.0 <= u / d <= 1.0
  {
    assert u / d * d == u;
  }

  /** Every interpolated value lies within the range of the curve's values. */
  lemma {:induction false} InterpWithinValues(x: real, points: seq<Point>, lo: real, hi: real)
    requires points != [] && Increasing(points)
    requires forall p | p in points :: lo <= p.value <= hi
    ensures lo <= Interp(x, points) <= hi
    decreases |points|
  {
    assert points[0] in points;
    if |points| == 1 || x <= points[0].price {
    } else if x <= points[1].price {
      assert points[1] in points;
      LerpWithin(points[0], points[1], x, lo, hi);
    } else {
      InterpWithinValues(x, points[1..], lo, hi);
    }
  }

  /** value_score of one row, as NumPy's interp gives it: a missing price gives a missing score,
      except over a one-point curve, where NumPy returns that point's value for every input. */
  function ValueFor(price: Option<real>, curve: seq<Point>): (v: Option<real>)
    requires curve != [] && Increasing(curve)
    ensures v.None? <==> price.None? && |curve| > 1
    ensures price.Some? ==> v == Some(Interp(price.value, curve))
    ensures |curve| == 1 ==> v == Some(curve[0].value)
  {
    if |curve| == 1 then Some(curve[0].value)
    else if price.None? then None
    else Some(Interp(price.value, curve))
  }

  // ---------------------------------------------------------------- blend

  /** value_quality: 0.7 of golf quality plus 0.3 of value score; missing if either is. */
  function Blend(golfQuality: Option<real>, valueScore: Option<real>): (b: Option<real>)
    ensures b.Some? <==> golfQuality.Some? && valueScore.Some?
    ensures b.Some? ==> Min(golfQuality.value, valueScore.value) <= b.value <= Max(golfQuality.value, valueScore.value)
  {
    if golfQuality.Some? && valueScore.Some? then
      Some(GolfQualityWeight * golfQuality.value + ValueScoreWeight * valueScore.value)
    else None
  }

  function Min(a: real, b: real): real { if a <= b then a else b }
  function Max(a: real, b: real): real { if a <= b then b else a }

  /** Raising either input never lowers the blend. */
  lemma BlendMonotone(g: real, v: real, g': real, v': real)
    requires g <= g' && v <= v'
    ensures Blend(Some(g), Some(v)).value <= Blend(Some(g'), Some(v')).value
  {
  }
}
