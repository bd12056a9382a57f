/**
 The series that the guide log analysis builds before its spectrum: rebuilt positions,
 detrended residuals, drifts, and the rotation of the residuals.
 */
module GuideLogs {
  import opened LinearFits

  datatype Row = Row(t: real, raraw: real, decraw: real, raguide: real)

  // ---------------------------------------------------------------- rebuilt position

  function Guided(rows: seq<Row>): real {
    if rows == [] then 0.0 else Guided(rows[..|rows| - 1]) + rows[|rows| - 1].raguide
  }

  // The first loop of computeSpectrum: each raw position less the guide moves before it, or
  // as it is if those are not to be undone.
  method RebuildPositions(rows: seq<Row>, undo: bool) returns (rapos: seq<real>)
    ensures |rapos| == |rows|
    ensures forall i :: 0 <= i < |rows| ==> rapos[i] == rows[i].raraw - if undo then Guided(rows[..i]) else 0.0
  {
    rapos := [];
    var prevRaraw, prevRaguide, pos := 0.0, 0.0, 0.0;
    var i := 0;
    assert rows[..0] == [];
    while i < |rows|
      invariant 0 <= i <= |rows| == |rapos| + |rows| - i
      invariant forall j :: 0 <= j < i ==> rapos[j] == rows[j].raraw - if undo then Guided(rows[..j]) else 0.0
      invariant pos - prevRaraw - prevRaguide == -if undo then Guided(rows[..i]) else 0.0
    {
      assert rows[..i + 1][..i] == rows[..i];
      var move := rows[i].raraw - prevRaraw - prevRaguide;
      pos := pos + move;
      prevRaraw := rows[i].raraw;
      prevRaguide := if undo then rows[i].raguide else 0.0;
      rapos := rapos + [pos];
      i := i + 1;
    }
  }

  function RaDrift(rows: seq<Row>): real
    requires rows != []
  {
    var dt := rows[|rows| - 1].t - rows[0].t;
    if dt > 0.0 then (rows[|rows| - 1].raraw - rows[0].raraw - Guided(rows)) / dt * 60.0 else 0.0
  }

  predicate AreRebuilt(rows: seq<Row>, rapos: seq<real>) {
    |rapos| == |rows| && forall i :: 0 <= i < |rows| ==> rapos[i] == rows[i].raraw - Guided(rows[..i])
  }

  // The drift of a series of positions, per minute
  function Drift(rows: seq<Row>, rapos: seq<real>): real
    requires rows != [] && |rapos| == |rows|
  {
    var dt := rows[|rows| - 1].t - rows[0].t;
    if dt > 0.0 then (rapos[|rapos| - 1] - rapos[0]) / dt * 60.0 else 0.0
  }

  // The drift takes off the last guide move, too, which no position shows yet. So over a
  // stretch of time it is that of the rebuilt positions exactly if the last row has no move.
  lemma RaDriftIsRebuilt(rows: seq<Row>, rapos: seq<real>)
    requires rows != [] && AreRebuilt(rows, rapos)
    ensures var last, dt := rows[|rows| - 1], rows[|rows| - 1].t - rows[0].t;
      && (dt > 0.0 ==> RaDrift(rows) == Drift(rows, rapos) - last.raguide / dt * 60.0)
      && (RaDrift(rows) == Drift(rows, rapos) <==> dt <= 0.0 || last.raguide == 0.0)
  {
    assert rows[..0] == [];
    var dt := rows[|rows| - 1].t - rows[0].t;
    if dt > 0.0 {
      PerMinute(rapos[|rapos| - 1] - rapos[0], rows[|rows| - 1].raguide, dt);
    }
  }

  lemma PerMinute(u: real, g: real, dt: real)
    requires dt > 0.0
    ensures (u - g) / dt * 60.0 == u / dt * 60.0 - g / dt * 60.0
    ensures g / dt * 60.0 == 0.0 <==> g == 0.0
  {
    assert (u - g) / dt == u / dt - g / dt;
    assert g / dt * dt == g;
  }

  // A star that stays in place, guided once at the end, is said to drift.
  lemma StillStarDrifts()
    ensures var rows := [Row(0.0, 0.0, 0.0, 0.0), Row(60.0, 0.0, 0.0, 1.0)];
      AreRebuilt(rows, [0.0, 0.0]) && Drift(rows, [0.0, 0.0]) == 0.0 && RaDrift(rows) == -1.0
  {
    var rows := [Row(0.0, 0.0, 0.0, 0.0), Row(60.0, 0.0, 0.0, 1.0)];
    assert rows[..0] == [] && rows[..1] == [rows[0]] && [rows[0]][..0] == [];
    assert Guided(rows[..1]) == 0.0;
    assert Guided(rows) == 1.0;
  }

  // ---------------------------------------------------------------- detrending

  function Timed(rows: seq<Row>, ys: seq<real>): (ps: seq<Point>)
    requires |ys| == |rows|
    ensures |ps| == |rows| && forall i :: 0 <= i < |rows| ==> ps[i] == Point(rows[i].t, ys[i])
  {
    seq(|rows|, i requires 0 <= i < |rows| => Point(rows[i].t, ys[i]))
  }

  function Sum(ys: seq<real>): real {
    if ys == [] then 0.0 else Sum(ys[..|ys| - 1]) + ys[|ys| - 1]
  }

  function SumTimes(ps: seq<Point>, ys: seq<real>): real
    requires |ys| == |ps|
  {
    if ys == [] then 0.0 else SumTimes(ps[..|ps| - 1], ys[..|ys| - 1]) + Times(ys[|ys| - 1], ps[|ps| - 1].x)
  }

  lemma {:induction false} ResidualsSum(ps: seq<Point>, l: Line, rac: seq<real>)
    requires |rac| == |ps| && forall i :: 0 <= i < |ps| ==> rac[i] == Residual(ps[i], l)
    ensures Sum(rac) == ResidualSum(ps, l) && SumTimes(ps, rac) == ResidualMoment(ps, l)
  {
    if ps != [] {
      hide Residual, Times;
      ResidualsSum(ps[..|ps| - 1], l, rac[..|rac| - 1]);
    }
  }

  // A pass of the accumulator over all points
  method FitAll(ps: seq<Point>) returns (fit: LinFit)
    requires ps != []
    ensures fresh(fit) && fit.Valid() && fit.points == ps && IsBatch(fit.Value(), ps)
  {
    fit := new LinFit();
    var i := 0;
    while i < |ps|
      invariant 0 <= i <= |ps| && fresh(fit)
      invariant fit.Valid() && fit.points == ps[..i]
      invariant i > 0 ==> IsBatch(fit.Value(), ps[..i])
    {
      hide IsBatch;
      assert ps[..i + 1] == ps[..i] + [Point(ps[i].x, ps[i].y)];
      fit.Add(ps[i].x, ps[i].y);
      i := i + 1;
    }
    assert ps[..i] == ps;
  }

  // The detrending of computeSpectrum. When the times vary, what is left sums to zero and is
  // orthogonal to them.
  method Detrend(rows: seq<Row>, rapos: seq<real>) returns (rac: seq<real>)
    requires |rapos| == |rows| && Varies(Timed(rows, rapos))
    ensures |rac| == |rows| && Sum(rac) == 0.0 && SumTimes(Timed(rows, rapos), rac) == 0.0
    ensures forall i :: 0 <= i < |rows| ==> rac[i] == Residual(Timed(rows, rapos)[i], Fitted(Timed(rows, rapos)))
  {
    ghost var ps := Timed(rows, rapos);
    var fit := FitAll(Timed(rows, rapos));
    SummaryIsFitted(fit.Value(), ps);
    ghost var l := Fitted(ps);
    assert l == Through(fit.avx, fit.avy, fit.Slope()) == Line(fit.Intercept(), fit.Slope());
    hide IsBatch, Fitted, Varies;
    rac := [];
    var i := 0;
    while i < |rows|
      invariant 0 <= i <= |rows| == |rac| + |rows| - i
      invariant forall j :: 0 <= j < i ==> rac[j] == Residual(ps[j], l)
    {
      rac := rac + [rapos[i] - (fit.Intercept() + fit.Slope() * rows[i].t)];
      i := i + 1;
    }
    hide Residual;
    ResidualsSum(ps, l, rac);
    FittedResiduals(ps);
  }

  // ---------------------------------------------------------------- declination drift

  function DecPoints(rows: seq<Row>): (ps: seq<Point>)
    ensures |ps| == |rows| && forall i :: 0 <= i < |rows| ==> ps[i] == Point(rows[i].t, rows[i].decraw)
  {
    seq(|rows|, i requires 0 <= i < |rows| => Point(rows[i].t, rows[i].decraw))
  }

  predicate Lowered(ps: seq<Point>, qs: seq<Point>, k: real) {
    |qs| == |ps| && forall i :: 0 <= i < |ps| ==> qs[i] == Point(ps[i].x, ps[i].y - k)
  }

  lemma {:induction false} LoweredSums(ps: seq<Point>, qs: seq<Point>, k: real, a: real, b: real)
    requires Lowered(ps, qs, k)
    ensures SumX(qs) == SumX(ps) && SquaresX(qs, a) == SquaresX(ps, a)
    ensures Products(qs, a, b - k) == Products(ps, a, b)
  {
    if ps != [] {
      hide Times;
      LoweredSums(ps[..|ps| - 1], qs[..|qs| - 1], k, a, b);
      assert qs[|qs| - 1].y - (b - k) == ps[|ps| - 1].y - b;
    }
  }

  lemma {:induction false} LoweredMean(ps: seq<Point>, qs: seq<Point>, k: real, b: real)
    requires Lowered(ps, qs, k) && IsMean(b, Count(ps), SumY(ps))
    ensures IsMean(b - k, Count(qs), SumY(qs))
  {
    LoweredSumY(ps, qs, k);
  }

  lemma {:induction false} LoweredSumY(ps: seq<Point>, qs: seq<Point>, k: real)
    requires Lowered(ps, qs, k)
    ensures SumY(qs) == SumY(ps) - k * Count(ps)
  {
    if ps != [] {
      LoweredSumY(ps[..|ps| - 1], qs[..|qs| - 1], k);
      assert Count(ps) == Count(ps[..|ps| - 1]) + 1.0;
    }
  }

  // Lowering all points by the same amount leaves the slope of the fit.
  lemma LoweredSlope(ps: seq<Point>, qs: seq<Point>, k: real)
    requires Varies(ps) && Lowered(ps, qs, k)
    ensures Varies(qs) && Fitted(qs).slope == Fitted(ps).slope
  {
    VariesToo(ps, qs, k);
    MeansAre(ps);
    LoweredMean(ps, qs, k, MeanY(ps));
    MeanIs(MeanY(ps) - k, Count(qs), SumY(qs));
    LoweredSums(ps, qs, k, MeanX(ps), MeanY(ps));
    hide Lowered, Varies, SumX, SumY, SquaresX, Products, IsMean;
  }

  lemma VariesToo(ps: seq<Point>, qs: seq<Point>, k: real)
    requires Varies(ps) && Lowered(ps, qs, k)
    ensures Varies(qs)
  {
    var i :| 0 <= i < |ps| && ps[i].x != ps[0].x;
    assert qs[i].x != qs[0].x;
  }

  // The declination drift per minute is 60 times the slope of raw declination on time.
  method DecDrift(rows: seq<Row>) returns (drift: real)
    requires Varies(DecPoints(rows))
    ensures drift == Fitted(DecPoints(rows)).slope * 60.0
  {
    ghost var ps, k := DecPoints(rows), rows[0].decraw;
    var fit := new LinFit();
    var yAccum, prevY := 0.0, rows[0].decraw;
    hide IsBatch;
    fit.Add(rows[0].t, yAccum);
    var i := 1;
    while i < |rows|
      invariant 1 <= i <= |rows| && fresh(fit)
      invariant yAccum == rows[i - 1].decraw - k && prevY == rows[i - 1].decraw
      invariant fit.Valid() && Lowered(ps[..i], fit.points, k) && fit.points != []
      invariant IsBatch(fit.Value(), fit.points)
    {
      yAccum := yAccum + (rows[i].decraw - prevY);
      fit.Add(rows[i].t, yAccum);
      prevY := rows[i].decraw;
      i := i + 1;
    }
    assert ps[..i] == ps;
    LoweredSlope(ps, fit.points, k);
    SummaryIsFitted(fit.Value(), fit.points);
    return fit.Slope() * 60.0;
  }

  // ---------------------------------------------------------------- rotation

  function Rotated(p: Point, a: real, b: real, c: real, s: real): Point {
    var dr, dd := p.x - a, p.y - b;
    Point(dr * c + dd * s, dd * c - dr * s)
  }

  predicate AreRotated(ps: seq<Point>, qs: seq<Point>, a: real, b: real, c: real, s: real) {
    |qs| == |ps| && forall i :: 0 <= i < |ps| ==> qs[i] == Rotated(ps[i], a, b, c, s)
  }

  lemma RotationKeepsSquares(p: Point, a: real, b: real, c: real, s: real)
    requires c * c + s * s == 1.0
    ensures var q := Rotated(p, a, b, c, s);
      Times(q.x - 0.0, q.x - 0.0) + Times(q.y - 0.0, q.y - 0.0) == Times(p.x - a, p.x - a) + Times(p.y - b, p.y - b)
  {
    var x, y := p.x - a, p.y - b;
    assert (x * c + y * s) * (x * c + y * s) == x * x * (c * c) + y * y * (s * s) + 2.0 * (x * c * (y * s));
    assert (y * c - x * s) * (y * c - x * s) == y * y * (c * c) + x * x * (s * s) - 2.0 * (x * c * (y * s));
    assert x * x * (c * c) + x * x * (s * s) == x * x * (c * c + s * s) == x * x;
    assert y * y * (c * c) + y * y * (s * s) == y * y * (c * c + s * s) == y * y;
  }

  lemma {:induction false} RotationKeepsSum(ps: seq<Point>, qs: seq<Point>, a: real, b: real, c: real, s: real)
    requires AreRotated(ps, qs, a, b, c, s) && c * c + s * s == 1.0
    ensures SquaresX(qs, 0.0) + SquaresY(qs, 0.0) == SquaresX(ps, a) + SquaresY(ps, b)
  {
    if ps != [] {
      hide Times, Rotated;
      RotationKeepsSum(ps[..|ps| - 1], qs[..|qs| - 1], a, b, c, s);
      RotationKeepsSquares(ps[|ps| - 1], a, b, c, s);
    }
  }

  // The sums of the rotated points, by the sums of the deviations
  predicate SumsTurn(qx: real, qy: real, dx: real, dy: real, c: real, s: real) {
    qx == dx * c + dy * s && qy == dy * c - dx * s
  }

  lemma SumsTurnStep(qx: real, qy: real, dx: real, dy: real, c: real, s: real, p: Point, a: real, b: real)
    requires SumsTurn(qx, qy, dx, dy, c, s)
    ensures var q := Rotated(p, a, b, c, s); SumsTurn(qx + q.x, qy + q.y, dx + (p.x - a), dy + (p.y - b), c, s)
  {
  }

  function DeviationsX(ps: seq<Point>, a: real): real {
    if ps == [] then 0.0 else DeviationsX(ps[..|ps| - 1], a) + (ps[|ps| - 1].x - a)
  }

  function DeviationsY(ps: seq<Point>, b: real): real {
    if ps == [] then 0.0 else DeviationsY(ps[..|ps| - 1], b) + (ps[|ps| - 1].y - b)
  }

  lemma {:induction false} RotatedSums(ps: seq<Point>, qs: seq<Point>, a: real, b: real, c: real, s: real)
    requires AreRotated(ps, qs, a, b, c, s)
    ensures SumsTurn(SumX(qs), SumY(qs), DeviationsX(ps, a), DeviationsY(ps, b), c, s)
  {
    if ps == [] {
    } else {
      hide Rotated, SumsTurn;
      var rest, last := ps[..|ps| - 1], qs[..|qs| - 1];
      RotatedSums(rest, last, a, b, c, s);
      SumsTurnStep(SumX(last), SumY(last), DeviationsX(rest, a), DeviationsY(rest, b), c, s, ps[|ps| - 1], a, b);
    }
  }

  lemma {:induction false} DeviationsAre(ps: seq<Point>, a: real, b: real)
    ensures DeviationsX(ps, a) == SumX(ps) - a * Count(ps) && DeviationsY(ps, b) == SumY(ps) - b * Count(ps)
  {
    if ps != [] {
      DeviationsAre(ps[..|ps| - 1], a, b);
      assert Count(ps) == Count(ps[..|ps| - 1]) + 1.0;
    }
  }

  // Turned about their means by any angle, the residuals keep their total variance.
  lemma RotationKeepsVariance(ps: seq<Point>, qs: seq<Point>, fit: Summary, fitxy: Summary, c: real, s: real)
    requires ps != [] && IsBatch(fit, ps) && AreRotated(ps, qs, fit.avx, fit.avy, c, s) && IsBatch(fitxy, qs)
    requires c * c + s * s == 1.0
    ensures fitxy.avx == 0.0 && fitxy.avy == 0.0
    ensures fitxy.varx + fitxy.vary == fit.varx + fit.vary
  {
    var a, b := fit.avx, fit.avy;
    assert Count(qs) == Count(ps) > 0.0;
    hide AreRotated, SumX, SumY, SquaresX, SquaresY;
    RotationKeepsSum(ps, qs, a, b, c, s);
    RotatedSumsAreZero(ps, qs, c, s);
    assert MeanX(qs) == 0.0 && MeanY(qs) == 0.0;
    hide MeanX, MeanY, Count;
    Halves(SquaresX(qs, 0.0), SquaresY(qs, 0.0), SquaresX(ps, a), SquaresY(ps, b), Count(ps));
  }

  lemma RotatedSumsAreZero(ps: seq<Point>, qs: seq<Point>, c: real, s: real)
    requires ps != [] && AreRotated(ps, qs, MeanX(ps), MeanY(ps), c, s)
    ensures SumX(qs) == 0.0 && SumY(qs) == 0.0
  {
    hide *;
    var a, b := MeanX(ps), MeanY(ps);
    RotatedSums(ps, qs, a, b, c, s);
    DeviationsAreZero(ps);
    ZeroSumsTurn(SumX(qs), SumY(qs), c, s);
  }

  lemma DeviationsAreZero(ps: seq<Point>)
    requires ps != []
    ensures DeviationsX(ps, MeanX(ps)) == 0.0 && DeviationsY(ps, MeanY(ps)) == 0.0
  {
    DeviationsAre(ps, MeanX(ps), MeanY(ps));
    MeansAre(ps);
    hide SumX, SumY, DeviationsX, DeviationsY, MeanX, MeanY, Count;
  }

  lemma ZeroSumsTurn(qx: real, qy: real, c: real, s: real)
    requires SumsTurn(qx, qy, 0.0, 0.0, c, s)
    ensures qx == 0.0 && qy == 0.0
  {
  }

  lemma Halves(u: real, v: real, x: real, y: real, n: real)
    requires n > 0.0 && u + v == x + y
    ensures u / n + v / n == x / n + y / n
  {
    assert u / n + v / n == (u + v) / n && x / n + y / n == (x + y) / n;
  }

  // Turned by the angle whose tangent is the slope, the fitted line becomes an axis.
  lemma FittedLineIsAxis(p: Point, fit: Summary, c: real, s: real)
    requires fit.varx > 0.0 && c * fit.covxy == s * fit.varx
    requires (p.y - fit.avy) * fit.varx == fit.covxy * (p.x - fit.avx)
    ensures Rotated(p, fit.avx, fit.avy, c, s).y == 0.0
  {
    var dx, dy := p.x - fit.avx, p.y - fit.avy;
    var turned := dy * c - dx * s;
    assert turned * fit.varx == c * (dy * fit.varx) - dx * (s * fit.varx);
    assert c * (dy * fit.varx) == c * (fit.covxy * dx);
    assert dx * (s * fit.varx) == dx * (c * fit.covxy);
    assert turned * fit.varx == 0.0;
    assert turned == turned * fit.varx / fit.varx;
  }

  function Residuals(rows: seq<Row>): (ps: seq<Point>)
    ensures |ps| == |rows| && forall i :: 0 <= i < |rows| ==> ps[i] == Point(rows[i].raraw, rows[i].decraw)
  {
    seq(|rows|, i requires 0 <= i < |rows| => Point(rows[i].raraw, rows[i].decraw))
  }

  // The statistics of the residuals and of the residuals turned by an angle, given by its
  // cosine and sine.
  method ResidualStats(rows: seq<Row>, ct: real, st: real) returns (fit: LinFit, fitxy: LinFit)
    requires rows != [] && ct * ct + st * st == 1.0
    ensures IsBatch(fit.Value(), Residuals(rows))
    ensures AreRotated(Residuals(rows), fitxy.points, fit.avx, fit.avy, ct, st) && fitxy.points != []
    ensures IsBatch(fitxy.Value(), fitxy.points)
    ensures fitxy.avx == 0.0 && fitxy.avy == 0.0 && fitxy.varx + fitxy.vary == fit.varx + fit.vary
  {
    hide *;
    fit := FitAll(Residuals(rows));
    fitxy := FitTurned(Residuals(rows), fit.avx, fit.avy, ct, st);
    SummaryOf(fit);
    SummaryOf(fitxy);
    RotationKeepsVariance(Residuals(rows), fitxy.points, fit.Value(), fitxy.Value(), ct, st);
  }

  lemma SummaryOf(fit: LinFit)
    ensures fit.Value() == Summary(fit.n, fit.avx, fit.avy, fit.varx, fit.covxy, fit.vary)
  {
  }

  // A pass of the accumulator over the points turned about a centre
  method FitTurned(ps: seq<Point>, a: real, b: real, ct: real, st: real) returns (fit: LinFit)
    requires ps != []
    ensures fresh(fit) && fit.points != [] && AreRotated(ps, fit.points, a, b, ct, st) && IsBatch(fit.Value(), fit.points)
  {
    fit := new LinFit();
    hide IsBatch, Rotated;
    var i := 0;
    while i < |ps|
      invariant 0 <= i <= |ps| && fresh(fit)
      invariant fit.Valid() && AreRotated(ps[..i], fit.points, a, b, ct, st)
      invariant i > 0 ==> IsBatch(fit.Value(), fit.points)
    {
      var dr := ps[i].x - a;
      var dd := ps[i].y - b;
      RotatedIs(ps[i], a, b, ct, st);
      fit.Add(dr * ct + dd * st, dd * ct - dr * st);
      i := i + 1;
    }
    assert ps[..i] == ps;
  }

  lemma RotatedIs(p: Point, a: real, b: real, c: real, s: real)
    ensures var dr, dd := p.x - a, p.y - b; Rotated(p, a, b, c, s) == Point(dr * c + dd * s, dd * c - dr * s)
  {
  }
}
