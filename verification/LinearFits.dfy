/**
 The one-pass accumulator of means, variances and covariance, and the line it fits.
 Arithmetic is over the reals.
 */
module LinearFits {

  datatype Point = Point(x: real, y: real)

  // A product, under a name that keeps it apart from the linear reasoning
  function Times(a: real, b: real): real {
    a * b
  }

  // ---------------------------------------------------------------- batch definitions

  function SumX(ps: seq<Point>): real {
    if ps == [] then 0.0 else SumX(ps[..|ps| - 1]) + ps[|ps| - 1].x
  }

  function SumY(ps: seq<Point>): real {
    if ps == [] then 0.0 else SumY(ps[..|ps| - 1]) + ps[|ps| - 1].y
  }

  function Count(ps: seq<Point>): real {
    |ps| as real
  }

  function MeanX(ps: seq<Point>): real
    requires ps != []
  {
    SumX(ps) / Count(ps)
  }

  function MeanY(ps: seq<Point>): real
    requires ps != []
  {
    SumY(ps) / Count(ps)
  }

  // The sums of squared deviations from a point, and of the products of the deviations
  function SquaresX(ps: seq<Point>, a: real): real {
    if ps == [] then 0.0
    else SquaresX(ps[..|ps| - 1], a) + Times(ps[|ps| - 1].x - a, ps[|ps| - 1].x - a)
  }

  function SquaresY(ps: seq<Point>, b: real): real {
    if ps == [] then 0.0
    else SquaresY(ps[..|ps| - 1], b) + Times(ps[|ps| - 1].y - b, ps[|ps| - 1].y - b)
  }

  function Products(ps: seq<Point>, a: real, b: real): real {
    if ps == [] then 0.0
    else Products(ps[..|ps| - 1], a, b) + Times(ps[|ps| - 1].x - a, ps[|ps| - 1].y - b)
  }

  // ---------------------------------------------------------------- moving the origin

  // A sum of products about a point, by the sums about zero
  predicate Shifted(shifted: real, q: real, sx: real, sy: real, n: real, a: real, b: real) {
    shifted == q - a * sy - b * sx + n * (a * b)
  }

  lemma ShiftedStep(shifted: real, q: real, sx: real, sy: real, n: real, a: real, b: real, x: real, y: real)
    requires Shifted(shifted, q, sx, sy, n, a, b)
    ensures Shifted(shifted + Times(x - a, y - b), q + Times(x - 0.0, y - 0.0), sx + x, sy + y, n + 1.0, a, b)
  {
  }

  lemma {:induction false} ShiftedSums(ps: seq<Point>, a: real, b: real)
    ensures Shifted(SquaresX(ps, a), SquaresX(ps, 0.0), SumX(ps), SumX(ps), Count(ps), a, a)
    ensures Shifted(SquaresY(ps, b), SquaresY(ps, 0.0), SumY(ps), SumY(ps), Count(ps), b, b)
    ensures Shifted(Products(ps, a, b), Products(ps, 0.0, 0.0), SumX(ps), SumY(ps), Count(ps), a, b)
  {
    if ps == [] {
      hide Times;
    } else {
      hide Times, Shifted;
      var rest, x, y := ps[..|ps| - 1], ps[|ps| - 1].x, ps[|ps| - 1].y;
      ShiftedSums(rest, a, b);
      ShiftedStep(SquaresX(rest, a), SquaresX(rest, 0.0), SumX(rest), SumX(rest), Count(rest), a, a, x, x);
      ShiftedStep(SquaresY(rest, b), SquaresY(rest, 0.0), SumY(rest), SumY(rest), Count(rest), b, b, y, y);
      ShiftedStep(Products(rest, a, b), Products(rest, 0.0, 0.0), SumX(rest), SumY(rest), Count(rest), a, b, x, y);
    }
  }

  // ---------------------------------------------------------------- one more point

  // Two means a and b over n points with the sum q of products have the covariance c.
  predicate Moment(n: real, a: real, b: real, c: real, q: real) {
    c * n == q - n * (a * b)
  }

  predicate IsMean(a: real, n: real, sum: real) {
    a * n == sum
  }

  // The updates of a mean and of a covariance
  function NextMean(n: real, a: real, x: real): real
    requires n >= 0.0
  {
    a + (x - a) / (n + 1.0)
  }

  function Step(c: real, k: real, dx: real, dy: real, n: real): real
    requires n > 0.0
  {
    c + (k * dx * dy - c) / n
  }

  function NextMoment(n: real, a: real, b: real, c: real, x: real, y: real): real
    requires n >= 0.0
  {
    Step(c, n / (n + 1.0), x - a, y - b, n + 1.0)
  }

  // The update of a mean is exact.
  lemma MeanGrows(n: real, a: real, sum: real, x: real)
    requires n >= 0.0 && IsMean(a, n, sum)
    ensures IsMean(NextMean(n, a, x), n + 1.0, sum + x)
  {
    var u := (x - a) / (n + 1.0);
    assert u * (n + 1.0) == x - a;
    assert (a + u) * (n + 1.0) == a * n + a + u * (n + 1.0);
  }

  // The update of a covariance, which uses the deviations from the old means, is exact.
  lemma MomentGrows(n: real, a: real, b: real, c: real, q: real, x: real, y: real)
    requires n >= 0.0 && Moment(n, a, b, c, q)
    ensures Moment(n + 1.0, NextMean(n, a, x), NextMean(n, b, y), NextMoment(n, a, b, c, x, y), q + Times(x - 0.0, y - 0.0))
  {
    var m := n + 1.0;
    var u, v := (x - a) / m, (y - b) / m;
    assert x - a == u * m && y - b == v * m;
    StepTimes(c, n, x - a, y - b, u, v);
    hide Moment, Step;
    MomentAlgebra(n, a, b, c, q, u, v);
    MomentIs(m, a + u, b + v, Step(c, n / m, x - a, y - b, m), q + Times(x - 0.0, y - 0.0));
  }

  lemma StepTimes(c: real, n: real, dx: real, dy: real, u: real, v: real)
    requires n >= 0.0 && dx == u * (n + 1.0) && dy == v * (n + 1.0)
    ensures var m := n + 1.0; Step(c, n / m, dx, dy, m) * m == c * m + (n * (u * v) * m - c)
  {
    var m := n + 1.0;
    var k := n / m;
    assert k * m == n;
    assert k * dx * dy == k * m * (u * v) * m by {
      assert k * (u * m) * (v * m) == k * m * (u * v) * m;
    }
    var e := n * (u * v) * m;
    var w := (e - c) / m;
    assert w * m == e - c;
    assert (c + w) * m == c * m + w * m;
  }

  lemma MomentIs(n: real, a: real, b: real, c: real, q: real)
    requires c * n == q - n * (a * b)
    ensures Moment(n, a, b, c, q)
  {
  }

  lemma MomentAlgebra(n: real, a: real, b: real, c: real, q: real, u: real, v: real)
    requires Moment(n, a, b, c, q)
    ensures var m := n + 1.0;
      c * m + (n * (u * v) * m - c) == q + Times(a + u * m - 0.0, b + v * m - 0.0) - m * ((a + u) * (b + v))
  {
    var m := n + 1.0;
    assert (a + u * m) * (b + v * m) == a * b + a * (v * m) + b * (u * m) + u * v * (m * m);
    assert m * ((a + u) * (b + v)) == m * (a * b) + a * (v * m) + b * (u * m) + u * v * m;
    assert u * v * (m * m) == u * v * m * n + u * v * m;
    assert m * (a * b) == n * (a * b) + a * b;
    assert n * (u * v) * m == u * v * m * n;
  }

  // ---------------------------------------------------------------- the accumulator

  datatype Summary = Summary(n: real, avx: real, avy: real, varx: real, covxy: real, vary: real)

  // What the six numbers are after some points, without a division
  predicate Summarises(s: Summary, ps: seq<Point>) {
    && s.n == Count(ps)
    && IsMean(s.avx, s.n, SumX(ps)) && IsMean(s.avy, s.n, SumY(ps))
    && Moment(s.n, s.avx, s.avx, s.varx, SquaresX(ps, 0.0))
    && Moment(s.n, s.avy, s.avy, s.vary, SquaresY(ps, 0.0))
    && Moment(s.n, s.avx, s.avy, s.covxy, Products(ps, 0.0, 0.0))
  }

  // The sums of points with one more
  lemma SumsGrow(ps: seq<Point>, p: Point)
    ensures SumX(ps + [p]) == SumX(ps) + p.x && SumY(ps + [p]) == SumY(ps) + p.y
    ensures SquaresX(ps + [p], 0.0) == SquaresX(ps, 0.0) + Times(p.x - 0.0, p.x - 0.0)
    ensures SquaresY(ps + [p], 0.0) == SquaresY(ps, 0.0) + Times(p.y - 0.0, p.y - 0.0)
    ensures Products(ps + [p], 0.0, 0.0) == Products(ps, 0.0, 0.0) + Times(p.x - 0.0, p.y - 0.0)
    ensures Count(ps + [p]) == Count(ps) + 1.0 && Count(ps) >= 0.0
  {
    hide Times;
    assert (ps + [p])[..|ps + [p]| - 1] == ps;
  }

  // One turn of the accumulator
  function Added(s: Summary, x: real, y: real): Summary
    requires s.n >= 0.0
  {
    Summary(s.n + 1.0, NextMean(s.n, s.avx, x), NextMean(s.n, s.avy, y), NextMoment(s.n, s.avx, s.avx, s.varx, x, x),
            NextMoment(s.n, s.avx, s.avy, s.covxy, x, y), NextMoment(s.n, s.avy, s.avy, s.vary, y, y))
  }

  lemma SummaryGrows(s: Summary, ps: seq<Point>, p: Point)
    requires Summarises(s, ps)
    ensures s.n >= 0.0 && Summarises(Added(s, p.x, p.y), ps + [p])
  {
    hide Times, IsMean, Moment, NextMean, NextMoment, SumX, SumY, SquaresX, SquaresY, Products;
    SumsGrow(ps, p);
    MeanGrows(s.n, s.avx, SumX(ps), p.x);
    MeanGrows(s.n, s.avy, SumY(ps), p.y);
    MomentGrows(s.n, s.avx, s.avx, s.varx, SquaresX(ps, 0.0), p.x, p.x);
    MomentGrows(s.n, s.avy, s.avy, s.vary, SquaresY(ps, 0.0), p.y, p.y);
    MomentGrows(s.n, s.avx, s.avy, s.covxy, Products(ps, 0.0, 0.0), p.x, p.y);
  }

  // The batch quantities: means, population variances and covariance
  predicate IsBatch(s: Summary, ps: seq<Point>)
    requires ps != []
  {
    && s.n == Count(ps) && s.avx == MeanX(ps) && s.avy == MeanY(ps)
    && s.varx == SquaresX(ps, MeanX(ps)) / Count(ps)
    && s.vary == SquaresY(ps, MeanY(ps)) / Count(ps)
    && s.covxy == Products(ps, MeanX(ps), MeanY(ps)) / Count(ps)
  }

  lemma MeanIs(a: real, n: real, sum: real)
    requires n > 0.0 && IsMean(a, n, sum)
    ensures a == sum / n
  {
  }

  lemma MomentIsCovariance(n: real, a: real, b: real, c: real, q: real, sx: real, sy: real, shifted: real)
    requires n > 0.0 && IsMean(a, n, sx) && IsMean(b, n, sy)
    requires Moment(n, a, b, c, q) && Shifted(shifted, q, sx, sy, n, a, b)
    ensures c == shifted / n
  {
    assert a * sy == n * (a * b) && b * sx == n * (a * b);
    assert shifted == c * n;
  }

  lemma SummaryIsBatch(s: Summary, ps: seq<Point>)
    requires Summarises(s, ps) && ps != []
    ensures IsBatch(s, ps)
  {
    hide Times, IsMean, Moment, Shifted, SumX, SumY, SquaresX, SquaresY, Products;
    MeanIs(s.avx, s.n, SumX(ps));
    MeanIs(s.avy, s.n, SumY(ps));
    ShiftedSums(ps, s.avx, s.avy);
    MomentIsCovariance(s.n, s.avx, s.avx, s.varx, SquaresX(ps, 0.0), SumX(ps), SumX(ps), SquaresX(ps, s.avx));
    MomentIsCovariance(s.n, s.avy, s.avy, s.vary, SquaresY(ps, 0.0), SumY(ps), SumY(ps), SquaresY(ps, s.avy));
    MomentIsCovariance(s.n, s.avx, s.avy, s.covxy, Products(ps, 0.0, 0.0), SumX(ps), SumY(ps), Products(ps, s.avx, s.avy));
  }

  class LinFit {
    var avx: real
    var avy: real
    var varx: real
    var covxy: real
    var vary: real
    var n: real
    ghost var points: seq<Point>

    function Value(): Summary
      reads this
    {
      Summary(n, avx, avy, varx, covxy, vary)
    }

    ghost predicate Valid()
      reads this
    {
      Summarises(Value(), points)
    }

    constructor ()
      ensures Valid() && points == []
    {
      avx, avy, varx, covxy, vary, n := 0.0, 0.0, 0.0, 0.0, 0.0, 0.0;
      points := [];
    }

    // LinFit::add
    method Add(x: real, y: real)
      requires Valid()
      modifies this
      ensures Valid() && points == old(points) + [Point(x, y)]
      ensures IsBatch(Value(), points)
    {
      ghost var p, s := Point(x, y), Value();
      SummaryGrows(s, points, p);
      hide IsBatch, Summarises, Step;
      var k := n;
      n := n + 1.0;
      k := k / n;
      var dx := x - avx;
      var dy := y - avy;
      varx := Step(varx, k, dx, dx, n);
      covxy := Step(covxy, k, dx, dy, n);
      vary := Step(vary, k, dy, dy, n);
      avx := avx + dx / n;
      avy := avy + dy / n;
      points := points + [p];
      assert varx == NextMoment(s.n, s.avx, s.avx, s.varx, x, x);
      assert covxy == NextMoment(s.n, s.avx, s.avy, s.covxy, x, y);
      assert vary == NextMoment(s.n, s.avy, s.avy, s.vary, y, y);
      assert avx == NextMean(s.n, s.avx, x) && avy == NextMean(s.n, s.avy, y);
      hide NextMean, NextMoment;
      SummaryIsBatch(Added(s, x, y), points);
    }

    // LinFit::slope, which divides by a variance
    function Slope(): real
      requires n >= 2.0 ==> varx != 0.0
      reads this
    {
      if n >= 2.0 then covxy / varx else 0.0
    }

    // LinFit::intercept
    function Intercept(): real
      requires n >= 2.0 ==> varx != 0.0
      reads this
    {
      avy - Slope() * avx
    }
  }

  // ---------------------------------------------------------------- variance and ties

  predicate Varies(ps: seq<Point>) {
    exists i :: 0 <= i < |ps| && ps[i].x != ps[0].x
  }

  lemma PositiveProduct(a: real, b: real)
    requires a > 0.0 && b > 0.0
    ensures Times(a, b) > 0.0
  {
  }

  lemma SquareOf(d: real)
    ensures Times(d, d) >= 0.0
    ensures d != 0.0 ==> Times(d, d) > 0.0
  {
    if d > 0.0 {
      PositiveProduct(d, d);
    } else if d < 0.0 {
      PositiveProduct(-d, -d);
      assert Times(-d, -d) == Times(d, d);
    }
  }

  lemma {:induction false} SquaresAreZero(ps: seq<Point>, a: real)
    ensures SquaresX(ps, a) >= 0.0
    ensures SquaresX(ps, a) == 0.0 <==> forall i :: 0 <= i < |ps| ==> ps[i].x == a
  {
    if ps == [] {
    } else {
      var rest, x := ps[..|ps| - 1], ps[|ps| - 1].x;
      SquaresAreZero(rest, a);
      SquareOf(x - a);
      assert x == a ==> Times(x - a, x - a) == 0.0;
      assert forall i :: 0 <= i < |rest| ==> rest[i] == ps[i];
    }
  }

  lemma {:induction false} MeanOfEqual(ps: seq<Point>, a: real)
    requires forall i :: 0 <= i < |ps| ==> ps[i].x == a
    ensures IsMean(a, Count(ps), SumX(ps))
  {
    if ps != [] {
      MeanOfEqual(ps[..|ps| - 1], a);
      assert Count(ps) == Count(ps[..|ps| - 1]) + 1.0;
    }
  }

  // The variance is positive exactly if the x differ.
  lemma VarianceIsPositive(ps: seq<Point>)
    requires ps != []
    ensures SquaresX(ps, MeanX(ps)) >= 0.0
    ensures SquaresX(ps, MeanX(ps)) > 0.0 <==> Varies(ps)
  {
    SquaresAreZero(ps, MeanX(ps));
    if !Varies(ps) {
      MeanOfEqual(ps, ps[0].x);
      MeanIs(ps[0].x, Count(ps), SumX(ps));
    }
    hide SquaresX, SumX;
  }

  // ---------------------------------------------------------------- the fitted line

  datatype Line = Line(intercept: real, slope: real)

  function Residual(p: Point, l: Line): real {
    p.y - (l.intercept + l.slope * p.x)
  }

  // The squared error of a line, and the moments of its residuals
  function SquaredError(ps: seq<Point>, l: Line): real {
    if ps == [] then 0.0
    else SquaredError(ps[..|ps| - 1], l) + Times(Residual(ps[|ps| - 1], l), Residual(ps[|ps| - 1], l))
  }

  function ResidualSum(ps: seq<Point>, l: Line): real {
    if ps == [] then 0.0 else ResidualSum(ps[..|ps| - 1], l) + Residual(ps[|ps| - 1], l)
  }

  function ResidualMoment(ps: seq<Point>, l: Line): real {
    if ps == [] then 0.0
    else ResidualMoment(ps[..|ps| - 1], l) + Times(Residual(ps[|ps| - 1], l), ps[|ps| - 1].x)
  }

  // The two moments of the residuals, by the sums of the points
  predicate ResidualsAre(sum: real, moment: real, sx: real, sy: real, sxx: real, sxy: real, n: real, l: Line) {
    && sum == sy - n * l.intercept - l.slope * sx
    && moment == sxy - l.intercept * sx - l.slope * sxx
  }

  lemma ResidualStep(sum: real, moment: real, sx: real, sy: real, sxx: real, sxy: real, n: real, l: Line, p: Point)
    requires ResidualsAre(sum, moment, sx, sy, sxx, sxy, n, l)
    ensures ResidualsAre(sum + Residual(p, l), moment + Times(Residual(p, l), p.x), sx + p.x, sy + p.y,
                         sxx + Times(p.x - 0.0, p.x - 0.0), sxy + Times(p.x - 0.0, p.y - 0.0), n + 1.0, l)
  {
  }

  lemma {:induction false} ResidualSums(ps: seq<Point>, l: Line)
    ensures ResidualsAre(ResidualSum(ps, l), ResidualMoment(ps, l), SumX(ps), SumY(ps), SquaresX(ps, 0.0),
                         Products(ps, 0.0, 0.0), Count(ps), l)
  {
    if ps == [] {
      hide Times;
    } else {
      hide Times, Residual, ResidualsAre;
      var rest := ps[..|ps| - 1];
      ResidualSums(rest, l);
      ResidualStep(ResidualSum(rest, l), ResidualMoment(rest, l), SumX(rest), SumY(rest), SquaresX(rest, 0.0),
                   Products(rest, 0.0, 0.0), Count(rest), l, ps[|ps| - 1]);
    }
  }

  // The line of some slope through a point
  function Through(a: real, b: real, slope: real): Line {
    Line(b - slope * a, slope)
  }

  // The line through the means whose slope is the covariance over the variance
  function Fitted(ps: seq<Point>): Line
    requires Varies(ps)
  {
    VarianceIsPositive(ps);
    Through(MeanX(ps), MeanY(ps), Products(ps, MeanX(ps), MeanY(ps)) / SquaresX(ps, MeanX(ps)))
  }

  lemma FittedMoments(n: real, a: real, b: real, sx: real, sy: real, sxx: real, sxy: real, v: real, c: real, l: Line,
                      sum: real, moment: real)
    requires IsMean(a, n, sx) && IsMean(b, n, sy)
    requires Shifted(v, sxx, sx, sx, n, a, a) && Shifted(c, sxy, sx, sy, n, a, b)
    requires v != 0.0 && l == Through(a, b, c / v)
    requires ResidualsAre(sum, moment, sx, sy, sxx, sxy, n, l)
    ensures sum == 0.0 && moment == 0.0
  {
    var s := c / v;
    var ab, aa := n * (a * b), n * (a * a);
    assert s * v == c;
    assert a * sx == aa && a * sy == ab && b * sx == ab;
    assert sxx == v + aa && sxy == c + ab;
    assert l.intercept == b - s * a && l.slope == s;
    assert (b - s * a) * sx == ab - s * aa by {
      assert (b - s * a) * sx == b * sx - s * (a * sx);
    }
    assert s * sxx == s * v + s * aa;
    assert n * (b - s * a) + s * sx == sy by {
      assert n * (b - s * a) == n * b - s * (n * a);
      assert s * sx == s * (n * a);
    }
  }

  // The residuals of the fitted line sum to zero and are orthogonal to x.
  lemma FittedResiduals(ps: seq<Point>)
    requires Varies(ps)
    ensures ResidualSum(ps, Fitted(ps)) == 0.0 && ResidualMoment(ps, Fitted(ps)) == 0.0
  {
    var a, b, l := MeanX(ps), MeanY(ps), Fitted(ps);
    VarianceIsPositive(ps);
    hide Times, Shifted, ResidualsAre, SumX, SumY, SquaresX, SquaresY, Products, ResidualSum, ResidualMoment, IsMean;
    MeansAre(ps);
    ResidualSums(ps, l);
    ShiftedSums(ps, a, b);
    FittedMoments(Count(ps), a, b, SumX(ps), SumY(ps), SquaresX(ps, 0.0), Products(ps, 0.0, 0.0), SquaresX(ps, a),
                  Products(ps, a, b), l, ResidualSum(ps, l), ResidualMoment(ps, l));
  }

  lemma MeansAre(ps: seq<Point>)
    requires ps != []
    ensures IsMean(MeanX(ps), Count(ps), SumX(ps)) && IsMean(MeanY(ps), Count(ps), SumY(ps))
  {
    hide SumX, SumY;
  }

  // A lower bound for the squared error of a line that is off by some intercept and slope
  function ErrorBound(error: real, sum: real, moment: real, di: real, ds: real): real {
    error - 2.0 * (di * sum) - 2.0 * (ds * moment)
  }

  function Off(r: real, di: real, ds: real, x: real): real {
    r - (di + ds * x)
  }

  lemma ErrorStep(r: real, di: real, ds: real, x: real, error: real, sum: real, moment: real)
    ensures ErrorBound(error, sum, moment, di, ds) + Times(Off(r, di, ds, x), Off(r, di, ds, x))
      >= ErrorBound(error + Times(r, r), sum + r, moment + Times(r, x), di, ds)
  {
    var d := di + ds * x;
    SquareOf(d);
    assert (r - d) * (r - d) == r * r - 2.0 * (r * d) + d * d;
    assert r * d == di * r + ds * (r * x);
    assert di * (sum + r) == di * sum + di * r;
    assert ds * (moment + r * x) == ds * moment + ds * (r * x);
  }

  lemma {:induction false} ErrorElsewhere(ps: seq<Point>, l: Line, k: Line)
    ensures SquaredError(ps, k) >= ErrorBound(SquaredError(ps, l), ResidualSum(ps, l), ResidualMoment(ps, l),
                                              k.intercept - l.intercept, k.slope - l.slope)
  {
    if ps == [] {
    } else {
      hide Times, Residual, ErrorBound, Off;
      var rest, p := ps[..|ps| - 1], ps[|ps| - 1];
      ErrorElsewhere(rest, l, k);
      ResidualElsewhere(p, l, k);
      ErrorStep(Residual(p, l), k.intercept - l.intercept, k.slope - l.slope, p.x, SquaredError(rest, l),
                ResidualSum(rest, l), ResidualMoment(rest, l));
    }
  }

  lemma ResidualElsewhere(p: Point, l: Line, k: Line)
    ensures Residual(p, k) == Off(Residual(p, l), k.intercept - l.intercept, k.slope - l.slope, p.x)
  {
  }

  // No line has a smaller squared error than the fitted one.
  lemma FitIsOptimal(ps: seq<Point>, l: Line)
    requires Varies(ps)
    ensures SquaredError(ps, Fitted(ps)) <= SquaredError(ps, l)
  {
    FittedResiduals(ps);
    ErrorElsewhere(ps, Fitted(ps), l);
    hide Fitted, SquaredError, ResidualSum, ResidualMoment;
  }

  // What the accumulator offers as a line is that line.
  lemma SummaryIsFitted(s: Summary, ps: seq<Point>)
    requires ps != [] && IsBatch(s, ps) && Varies(ps)
    ensures s.n >= 2.0 && s.varx > 0.0
    ensures Through(s.avx, s.avy, s.covxy / s.varx) == Fitted(ps)
  {
    hide Through, SquaresX, Products, MeanX, MeanY;
    VarianceIsPositive(ps);
    Ratios(Products(ps, MeanX(ps), MeanY(ps)), SquaresX(ps, MeanX(ps)), Count(ps));
  }

  lemma Ratios(c: real, v: real, n: real)
    requires v > 0.0 && n > 0.0
    ensures v / n > 0.0 && c / n / (v / n) == c / v
  {
    var w := v / n;
    assert w * n == v;
    assert c / n / w * v == c / n / w * w * n == c / n * n == c;
  }
}
