/**
 The star statistics after an extraction: a running mean and spread of the star sizes, over
 the image and in each of its zones.
 */
module StarZones {
  import opened LinearFits

  datatype Star = Star(x: real, y: real, hfr: real, theta: real, a: real, b: real)

  // ---------------------------------------------------------------- zones

  // A C conversion to an integer, of a number that is not negative
  function Truncate(x: real): int {
    x.Floor
  }

  // The image in zones by zones parts, numbered line by line
  datatype Grid = Grid(zones: nat, width: int, height: int)

  predicate Inside(g: Grid, s: Star) {
    0.0 <= s.x < g.width as real && 0.0 <= s.y < g.height as real
  }

  // Which of the parts of a side a coordinate falls into
  function Part(zones: nat, x: real, size: int): (p: int)
    requires zones > 0 && 0.0 <= x < size as real
    ensures 0 <= p < zones
  {
    PartIsInRange(zones as real, x, size as real);
    Truncate(zones as real * x / size as real)
  }

  function ZoneOf(g: Grid, s: Star): (z: nat)
    requires g.zones > 0 && Inside(g, s)
    ensures z < g.zones * g.zones
  {
    var column, line := Part(g.zones, s.x, g.width), Part(g.zones, s.y, g.height);
    ZoneIsInRange(g.zones, line, column);
    line * g.zones + column
  }

  lemma LessByFactor(q: real, n: real, w: real)
    requires w > 0.0 && Times(q, w) < Times(n, w)
    ensures q < n
  {
    if q > n {
      PositiveProduct(q - n, w);
    }
  }

  lemma PartIsInRange(n: real, x: real, w: real)
    requires 0.0 <= x < w && n > 0.0
    ensures 0.0 <= n * x / w < n
  {
    var q := n * x / w;
    assert q * w == n * x;
    PositiveProduct(n, w - x);
    assert n * w - n * x > 0.0;
    LessByFactor(q, n, w);
    if x > 0.0 {
      PositiveProduct(n, x);
      LessByFactor(0.0, q, w);
    }
  }

  lemma ZoneIsInRange(zones: nat, line: int, column: int)
    requires 0 <= line < zones && 0 <= column < zones
    ensures 0 <= line * zones + column < zones * zones
  {
    assert (line + 1) * zones <= zones * zones;
  }

  // A part of a side covers the coordinates from its own share of it on to the next.
  predicate Covers(zones: nat, p: int, x: real, size: int) {
    p as real * size as real <= zones as real * x < (p + 1) as real * size as real
  }

  lemma PartCovers(zones: nat, x: real, size: int, p: int)
    requires zones > 0 && 0.0 <= x < size as real
    ensures Part(zones, x, size) == p <==> Covers(zones, p, x, size)
  {
    FloorOfQuotient(zones as real * x, size as real, p);
  }

  lemma FloorOfQuotient(a: real, w: real, p: int)
    requires w > 0.0
    ensures (a / w).Floor == p <==> p as real * w <= a < (p + 1) as real * w
  {
    var q := a / w;
    assert q * w == a;
    FloorIs(q, p);
    SameOrder(p as real, q, w);
    LessByOrder(a, q, (p + 1) as real, w);
  }

  lemma LessByOrder(a: real, q: real, n: real, w: real)
    requires w > 0.0 && q * w == a
    ensures a < n * w <==> q < n
  {
    SameOrder(n, q, w);
  }

  lemma FloorIs(q: real, p: int)
    ensures q.Floor == p <==> p as real <= q < (p + 1) as real
  {
    assert q.Floor as real <= q < (q.Floor + 1) as real;
  }

  lemma SameOrder(a: real, b: real, w: real)
    requires w > 0.0
    ensures a <= b <==> a * w <= b * w
  {
    if a < b {
      PositiveProduct(b - a, w);
    } else if a > b {
      PositiveProduct(a - b, w);
    }
  }

  // Zones are rectangles, numbered along the lines and line by line.
  lemma ZoneIsRectangle(g: Grid, s: Star, z: nat)
    requires g.zones > 0 && Inside(g, s) && z < g.zones * g.zones
    ensures ZoneOf(g, s) == z <==>
      Covers(g.zones, z % g.zones, s.x, g.width) && Covers(g.zones, z / g.zones, s.y, g.height)
  {
    var column, line := Part(g.zones, s.x, g.width), Part(g.zones, s.y, g.height);
    PartCovers(g.zones, s.x, g.width, z % g.zones);
    PartCovers(g.zones, s.y, g.height, z / g.zones);
    hide Part, Covers;
    LineAndColumn(g.zones, line, column, z);
  }

  lemma LineAndColumn(zones: nat, line: nat, column: nat, z: nat)
    requires column < zones
    ensures line * zones + column == z <==> z % zones == column && z / zones == line
  {
    if line * zones + column == z {
      assert z / zones == line by {
        QuotientIs(zones, line, column);
      }
    }
  }

  lemma QuotientIs(zones: nat, line: nat, column: nat)
    requires column < zones
    ensures (line * zones + column) / zones == line && (line * zones + column) % zones == column
  {
    var z := line * zones + column;
    var q := z / zones;
    assert z == q * zones + z % zones;
    ProductStep(q, line, zones);
    ProductStep(line, q, zones);
  }

  lemma ProductStep(a: nat, b: nat, n: nat)
    ensures a < b ==> a * n + n <= b * n
  {
    if a < b {
      var d: nat := b - a - 1;
      NotNegative(d, n);
      assert (a + 1 + d) * n == a * n + n + d * n;
    }
  }

  lemma NotNegative(a: nat, b: nat)
    ensures a * b >= 0
  {
  }

  // The stars of the upper right of four zones are those of zone 1.
  lemma UpperRightIsOne()
    ensures ZoneOf(Grid(2, 100, 100), Star(75.0, 25.0, 0.0, 0.0, 0.0, 0.0)) == 1
  {
    ZoneIsRectangle(Grid(2, 100, 100), Star(75.0, 25.0, 0.0, 0.0, 0.0, 0.0), 1);
  }

  predicate AllInside(g: Grid, stars: seq<Star>) {
    g.zones > 0 && forall i :: 0 <= i < |stars| ==> Inside(g, stars[i])
  }

  // The stars of a zone, in their order
  function Members(g: Grid, stars: seq<Star>, z: nat): (ms: seq<Star>)
    requires AllInside(g, stars)
    ensures |ms| <= |stars|
  {
    if stars == [] then []
    else
      var s := stars[|stars| - 1];
      Members(g, stars[..|stars| - 1], z) + if ZoneOf(g, s) == z then [s] else []
  }

  // ---------------------------------------------------------------- batch definitions

  // Sizes with angles, and the two axes, as points
  function Sizes(stars: seq<Star>): (ps: seq<Point>)
    ensures |ps| == |stars| && forall i :: 0 <= i < |stars| ==> ps[i] == Point(stars[i].hfr, stars[i].theta)
  {
    seq(|stars|, i requires 0 <= i < |stars| => Point(stars[i].hfr, stars[i].theta))
  }

  function Axes(stars: seq<Star>): (ps: seq<Point>)
    ensures |ps| == |stars| && forall i :: 0 <= i < |stars| ==> ps[i] == Point(stars[i].a, stars[i].b)
  {
    seq(|stars|, i requires 0 <= i < |stars| => Point(stars[i].a, stars[i].b))
  }

  // ---------------------------------------------------------------- running values

  // The sum m2 of squared deviations from a mean a, with q the sum of squares
  predicate Spread(n: real, a: real, m2: real, q: real) {
    m2 == q - n * (a * a)
  }

  lemma SpreadIsBatch(n: real, a: real, m2: real, q: real, sx: real, squares: real)
    requires IsMean(a, n, sx) && Spread(n, a, m2, q) && Shifted(squares, q, sx, sx, n, a, a)
    ensures m2 == squares
  {
    assert a * sx == n * (a * a);
  }

  // Welford's update: the deviation from the old mean times that from the new one
  function NextSpread(m2: real, x: real, a: real, next: real): real {
    m2 + (x - a) * (x - next)
  }

  lemma SpreadGrows(n: real, a: real, sum: real, m2: real, q: real, x: real)
    requires n >= 0.0 && IsMean(a, n, sum) && Spread(n, a, m2, q)
    ensures Spread(n + 1.0, NextMean(n, a, x), NextSpread(m2, x, a, NextMean(n, a, x)), q + Times(x - 0.0, x - 0.0))
  {
    var m := n + 1.0;
    var u := (x - a) / m;
    assert x - a == u * m;
    SpreadAlgebra(n, a, u);
    assert NextMean(n, a, x) == a + u && x - (a + u) == u * n;
    assert (x - a) * (x - (a + u)) == u * m * (u * n);
    assert Times(x - 0.0, x - 0.0) == (a + u * m) * (a + u * m);
  }

  lemma SpreadAlgebra(n: real, a: real, u: real)
    ensures var m := n + 1.0;
      u * m * (u * n) - n * (a * a) == (a + u * m) * (a + u * m) - m * ((a + u) * (a + u))
  {
    var m := n + 1.0;
    assert (a + u * m) * (a + u * m) == a * a + 2.0 * (a * u * m) + u * u * (m * m);
    assert m * ((a + u) * (a + u)) == m * (a * a) + 2.0 * (a * u * m) + u * u * m;
    assert u * u * (m * m) == u * u * m * n + u * u * m;
    assert u * m * (u * n) == u * u * m * n;
    assert m * (a * a) == n * (a * a) + a * a;
  }

  // A quotient of doubles, which is a number only if the divisor is not zero
  datatype Quotient = NoNumber | Number(value: real)

  function Ratio(a: real, b: real): (q: Quotient)
    ensures q.NoNumber? <==> b == 0.0
    ensures q.Number? ==> q.value * b == a
  {
    if b == 0.0 then NoNumber else Number(a / b)
  }

  // The average as the zones compute it
  function Average(n: real, a: real, x: real): real
    requires n >= 0.0
  {
    (n * a + x) / (n + 1.0)
  }

  // With nothing before it, it is the new value, whatever the average was.
  lemma AverageIsMean(n: real, a: real, sum: real, x: real)
    requires n >= 0.0 && (n > 0.0 ==> IsMean(a, n, sum)) && (n == 0.0 ==> sum == 0.0)
    ensures IsMean(Average(n, a, x), n + 1.0, sum + x)
    ensures n > 0.0 ==> Average(n, a, x) == NextMean(n, a, x)
    ensures n == 0.0 ==> Average(n, a, x) == x
  {
    var m := n + 1.0;
    var v := (n * a + x) / m;
    assert v * m == n * a + x;
    assert n == 0.0 ==> n * a == 0.0;
    var u := (x - a) / m;
    assert u * m == x - a;
    assert (a + u) * m == a * m + u * m;
    assert a * m == n * a + a;
    assert (a + u) * m == v * m;
    SameProduct(a + u, v, m);
  }

  lemma SameProduct(a: real, b: real, m: real)
    requires m > 0.0 && a * m == b * m
    ensures a == b
  {
    assert a * m / m == b * m / m;
  }

  // What the lists hold for one zone
  datatype Zone = Zone(count: int, hfr: real, m2: real, theta: real, a: real, b: real)

  function ZoneAdd(z: Zone, s: Star): Zone
    requires z.count >= 0
  {
    var n := z.count as real;
    var hfr := Average(n, z.hfr, s.hfr);
    Zone(z.count + 1, hfr, NextSpread(z.m2, s.hfr, z.hfr, hfr), Average(n, z.theta, s.theta), Average(n, z.a, s.a),
         Average(n, z.b, s.b))
  }

  // The averages of a zone mean something once there is a star in it; before they are what
  // they were at the start.
  predicate ZoneHolds(z: Zone, start: Zone, ms: seq<Star>) {
    && z.count == |ms| && start.m2 == 0.0
    && (ms == [] ==> z == start)
    && (ms != [] ==>
          var n := Count(Sizes(ms));
          && IsMean(z.hfr, n, SumX(Sizes(ms))) && IsMean(z.theta, n, SumY(Sizes(ms)))
          && IsMean(z.a, n, SumX(Axes(ms))) && IsMean(z.b, n, SumY(Axes(ms)))
          && Spread(n, z.hfr, z.m2, SquaresX(Sizes(ms), 0.0)))
  }

  lemma StarAdded(ms: seq<Star>, s: Star)
    ensures Sizes(ms + [s]) == Sizes(ms) + [Point(s.hfr, s.theta)] && Axes(ms + [s]) == Axes(ms) + [Point(s.a, s.b)]
    ensures Count(Sizes(ms)) == |ms| as real == Count(Axes(ms))
    ensures ms == [] ==>
      SumX(Sizes(ms)) == SumY(Sizes(ms)) == SumX(Axes(ms)) == SumY(Axes(ms)) == SquaresX(Sizes(ms), 0.0) == 0.0
  {
  }

  lemma ZoneGrows(z: Zone, start: Zone, ms: seq<Star>, s: Star)
    requires ZoneHolds(z, start, ms)
    ensures z.count >= 0 && ZoneHolds(ZoneAdd(z, s), start, ms + [s])
  {
    var n := z.count as real;
    var ps, qs := Sizes(ms), Axes(ms);
    hide Sizes, Axes, IsMean, Spread, SumX, SumY, SquaresX, SquaresY, Average, NextMean, NextSpread, Times;
    StarAdded(ms, s);
    SumsGrow(ps, Point(s.hfr, s.theta));
    SumsGrow(qs, Point(s.a, s.b));
    AverageIsMean(n, z.hfr, SumX(ps), s.hfr);
    AverageIsMean(n, z.theta, SumY(ps), s.theta);
    AverageIsMean(n, z.a, SumX(qs), s.a);
    AverageIsMean(n, z.b, SumY(qs), s.b);
    if ms == [] {
      FirstSpread(z.hfr, s.hfr);
    } else {
      SpreadGrows(n, z.hfr, SumX(ps), z.m2, SquaresX(ps, 0.0), s.hfr);
    }
  }

  lemma FirstSpread(a: real, x: real)
    ensures Spread(1.0, x, NextSpread(0.0, x, a, x), 0.0 + Times(x - 0.0, x - 0.0))
  {
  }

  // So they are the batch quantities of the stars in the zone.
  lemma ZoneIsBatch(z: Zone, start: Zone, ms: seq<Star>)
    requires ZoneHolds(z, start, ms) && ms != []
    ensures z.hfr == MeanX(Sizes(ms)) && z.theta == MeanY(Sizes(ms))
    ensures z.a == MeanX(Axes(ms)) && z.b == MeanY(Axes(ms))
    ensures z.m2 == SquaresX(Sizes(ms), MeanX(Sizes(ms)))
  {
    var ps, qs := Sizes(ms), Axes(ms);
    var n := Count(ps);
    hide Sizes, Axes, IsMean, Spread, SumX, SumY, SquaresX, SquaresY, Shifted;
    MeanIs(z.hfr, n, SumX(ps));
    MeanIs(z.theta, n, SumY(ps));
    MeanIs(z.a, n, SumX(qs));
    MeanIs(z.b, n, SumY(qs));
    ShiftedSums(ps, z.hfr, z.theta);
    SpreadIsBatch(n, z.hfr, z.m2, SquaresX(ps, 0.0), SumX(ps), SquaresX(ps, z.hfr));
  }

  // ---------------------------------------------------------------- counts

  function Total(counts: seq<int>): int {
    if counts == [] then 0 else counts[0] + Total(counts[1..])
  }

  lemma {:induction false} TotalGrows(counts: seq<int>, k: nat)
    requires k < |counts|
    ensures Total(counts[k := counts[k] + 1]) == Total(counts) + 1
  {
    if k == 0 {
      assert counts[0 := counts[0] + 1][1..] == counts[1..];
    } else {
      TotalGrows(counts[1..], k - 1);
      assert counts[k := counts[k] + 1][1..] == counts[1..][k - 1 := counts[k] + 1];
    }
  }

  lemma {:induction false} TotalOfZeros(counts: seq<int>)
    requires forall i :: 0 <= i < |counts| ==> counts[i] == 0
    ensures Total(counts) == 0
  {
    if counts != [] {
      TotalOfZeros(counts[1..]);
    }
  }

  lemma MembersGrow(g: Grid, stars: seq<Star>, i: nat, z: nat)
    requires AllInside(g, stars) && i < |stars|
    ensures Members(g, stars[..i + 1], z) ==
      if ZoneOf(g, stars[i]) == z then Members(g, stars[..i], z) + [stars[i]] else Members(g, stars[..i], z)
  {
    assert stars[..i + 1][..i] == stars[..i];
    hide ZoneOf;
  }

  // Every zone has the stars that fall into it.
  predicate ZonesHold(g: Grid, zs: seq<Zone>, starts: seq<Zone>, stars: seq<Star>)
    requires AllInside(g, stars)
  {
    && |zs| == |starts| == g.zones * g.zones
    && forall z :: 0 <= z < |zs| ==> ZoneHolds(zs[z], starts[z], Members(g, stars, z))
  }

  lemma ZonesGrow(g: Grid, zs: seq<Zone>, starts: seq<Zone>, stars: seq<Star>, i: nat)
    requires AllInside(g, stars) && i < |stars| && ZonesHold(g, zs, starts, stars[..i])
    ensures var k := ZoneOf(g, stars[i]);
      k < |zs| && zs[k].count >= 0 && ZonesHold(g, zs[k := ZoneAdd(zs[k], stars[i])], starts, stars[..i + 1])
  {
    var k := ZoneOf(g, stars[i]);
    var next := zs[k := ZoneAdd(zs[k], stars[i])];
    ZoneGrows(zs[k], starts[k], Members(g, stars[..i], k), stars[i]);
    hide ZoneHolds, ZoneOf, ZoneAdd;
    forall z | 0 <= z < |next| ensures ZoneHolds(next[z], starts[z], Members(g, stars[..i + 1], z)) {
      MembersGrow(g, stars, i, z);
    }
  }

  function Zeros(n: nat): (zs: seq<real>)
    ensures |zs| == n && forall i :: 0 <= i < n ==> zs[i] == 0.0
  {
    seq(n, _ => 0.0)
  }

  // ---------------------------------------------------------------- the whole image

  // Mean and spread of the sizes of the first i stars
  ghost predicate OverallHolds(stars: seq<Star>, i: nat, mean: real, m2: real)
    requires i <= |stars|
  {
    var ps := Sizes(stars)[..i];
    IsMean(mean, i as real, SumX(ps)) && Spread(i as real, mean, m2, SquaresX(ps, 0.0)) && (i == 0 ==> mean == 0.0)
  }

  lemma OverallStarts(stars: seq<Star>)
    ensures OverallHolds(stars, 0, 0.0, 0.0)
  {
  }

  lemma OverallGrows(stars: seq<Star>, i: nat, mean: real, m2: real)
    requires i < |stars| && OverallHolds(stars, i, mean, m2)
    ensures var x := stars[i].hfr; var next := mean + (x - mean) / (i + 1) as real;
      OverallHolds(stars, i + 1, next, NextSpread(m2, x, mean, next))
  {
    var ps, x := Sizes(stars), stars[i].hfr;
    SumsGrow(ps[..i], ps[i]);
    assert ps[..i] + [ps[i]] == ps[..i + 1];
    assert mean + (x - mean) / (i + 1) as real == NextMean(i as real, mean, x);
    hide IsMean, Spread, SumX, SumY, SquaresX, SquaresY, Products, Times, NextMean, NextSpread;
    MeanGrows(i as real, mean, SumX(ps[..i]), x);
    SpreadGrows(i as real, mean, SumX(ps[..i]), m2, SquaresX(ps[..i], 0.0), x);
  }

  lemma OverallIsBatch(stars: seq<Star>, mean: real, m2: real)
    requires stars != [] && OverallHolds(stars, |stars|, mean, m2)
    ensures mean == MeanX(Sizes(stars)) && m2 == SquaresX(Sizes(stars), mean)
  {
    var ps, n := Sizes(stars), |stars| as real;
    assert ps[..|stars|] == ps;
    MeanIs(mean, n, SumX(ps));
    ShiftedSums(ps, mean, 0.0);
    SpreadIsBatch(n, mean, m2, SquaresX(ps, 0.0), SumX(ps), SquaresX(ps, mean));
  }

  // ---------------------------------------------------------------- the second pass

  // The average of the squared deviations of the angles from a value, once there are any
  predicate DeviationHolds(count: int, dev: real, theta: real, ms: seq<Star>) {
    && count == |ms|
    && (ms != [] ==> IsMean(dev, Count(Sizes(ms)), SquaresY(Sizes(ms), theta)))
  }

  lemma DeviationGrows(count: int, dev: real, theta: real, ms: seq<Star>, s: Star)
    requires DeviationHolds(count, dev, theta, ms)
    ensures count >= 0
    ensures DeviationHolds(count + 1, Average(count as real, dev, Times(s.theta - theta, s.theta - theta)), theta, ms + [s])
  {
    var ps, p := Sizes(ms), Point(s.hfr, s.theta);
    assert (ps + [p])[..|ps + [p]| - 1] == ps;
    assert SquaresY(ps + [p], theta) == SquaresY(ps, theta) + Times(s.theta - theta, s.theta - theta);
    assert ms == [] ==> SquaresY(ps, theta) == 0.0;
    hide Sizes, Axes, IsMean, SquaresY, Average, Times;
    StarAdded(ms, s);
    AverageIsMean(count as real, dev, SquaresY(ps, theta), Times(s.theta - theta, s.theta - theta));
  }

  predicate DeviationsHold(g: Grid, counts: seq<int>, devs: seq<real>, thetas: seq<real>, stars: seq<Star>)
    requires AllInside(g, stars)
  {
    && |counts| == |devs| == |thetas| == g.zones * g.zones
    && forall z :: 0 <= z < |counts| ==> DeviationHolds(counts[z], devs[z], thetas[z], Members(g, stars, z))
  }

  lemma DeviationsGrow(g: Grid, counts: seq<int>, devs: seq<real>, thetas: seq<real>, stars: seq<Star>, i: nat)
    requires AllInside(g, stars) && i < |stars| && DeviationsHold(g, counts, devs, thetas, stars[..i])
    ensures var k := ZoneOf(g, stars[i]);
      && k < |counts| && counts[k] >= 0
      && var d := Times(stars[i].theta - thetas[k], stars[i].theta - thetas[k]);
         DeviationsHold(g, counts[k := counts[k] + 1], devs[k := Average(counts[k] as real, devs[k], d)], thetas,
                        stars[..i + 1])
  {
    var k := ZoneOf(g, stars[i]);
    DeviationGrows(counts[k], devs[k], thetas[k], Members(g, stars[..i], k), stars[i]);
    hide DeviationHolds, ZoneOf, Average, Times;
    var d := Times(stars[i].theta - thetas[k], stars[i].theta - thetas[k]);
    var cs, ds := counts[k := counts[k] + 1], devs[k := Average(counts[k] as real, devs[k], d)];
    forall z | 0 <= z < |cs| ensures DeviationHolds(cs[z], ds[z], thetas[z], Members(g, stars[..i + 1], z)) {
      MembersGrow(g, stars, i, z);
    }
  }

  // ---------------------------------------------------------------- the solver

  class Solver {
    var grid: Grid
    var hfrAvg: real
    var hfrAvgDev: real
    var hfrAvgZone: seq<real>
    var hfrDevZone: seq<real>
    var hfrAvgCount: seq<int>
    var thetaAvgZone: seq<real>
    var thetaDevZone: seq<real>
    var aAxeAvgZone: seq<real>
    var bAxeAvgZone: seq<real>
    var eAxeAvgZone: seq<Quotient>

    ghost function Size(): nat
      reads this
    {
      grid.zones * grid.zones
    }

    ghost predicate Sized()
      reads this
    {
      && |hfrAvgZone| == |hfrDevZone| == |hfrAvgCount| == |thetaAvgZone| == |thetaDevZone| == Size()
      && |aAxeAvgZone| == |bAxeAvgZone| == |eAxeAvgZone| == Size()
    }

    ghost function Zones(m2: seq<real>): (zs: seq<Zone>)
      requires Sized() && |m2| == Size()
      reads this
      ensures |zs| == Size()
      ensures forall z :: 0 <= z < Size() ==>
        zs[z] == Zone(hfrAvgCount[z], hfrAvgZone[z], m2[z], thetaAvgZone[z], aAxeAvgZone[z], bAxeAvgZone[z])
    {
      seq(Size(), z requires 0 <= z < Size() && Sized() && |m2| == Size() reads this =>
        Zone(hfrAvgCount[z], hfrAvgZone[z], m2[z], thetaAvgZone[z], aAxeAvgZone[z], bAxeAvgZone[z]))
    }

    // The axis ratio of a zone with stars is that of its averages; that of another is as it was.
    ghost predicate Ratios(before: seq<Quotient>)
      requires Sized() && |before| == Size()
      reads this
    {
      forall z :: 0 <= z < Size() ==>
        eAxeAvgZone[z] == if hfrAvgCount[z] > 0 then Ratio(aAxeAvgZone[z], bAxeAvgZone[z]) else before[z]
    }

    // The turn of the zones for one star
    method AddToZone(zone: nat, s: Star, m2: seq<real>, ghost ratios: seq<Quotient>) returns (next: seq<real>)
      requires Sized() && zone < Size() == |m2| && hfrAvgCount[zone] >= 0
      requires |ratios| == Size() && Ratios(ratios)
      modifies this`hfrAvgZone, this`hfrAvgCount, this`thetaAvgZone, this`aAxeAvgZone, this`bAxeAvgZone
      modifies this`eAxeAvgZone
      ensures Sized() && |next| == Size() && Ratios(ratios)
      ensures var zs := old(Zones(m2)); Zones(next) == zs[zone := ZoneAdd(zs[zone], s)]
      ensures hfrAvgCount == old(hfrAvgCount)[zone := old(hfrAvgCount)[zone] + 1]
    {
      hide NextSpread, Average, Ratio;
      var n := hfrAvgCount[zone] as real;
      var before := hfrAvgZone[zone];
      hfrAvgZone := hfrAvgZone[zone := Average(n, before, s.hfr)];
      next := m2[zone := NextSpread(m2[zone], s.hfr, before, hfrAvgZone[zone])];
      thetaAvgZone := thetaAvgZone[zone := Average(n, thetaAvgZone[zone], s.theta)];
      aAxeAvgZone := aAxeAvgZone[zone := Average(n, aAxeAvgZone[zone], s.a)];
      bAxeAvgZone := bAxeAvgZone[zone := Average(n, bAxeAvgZone[zone], s.b)];
      eAxeAvgZone := eAxeAvgZone[zone := Ratio(aAxeAvgZone[zone], bAxeAvgZone[zone])];
      hfrAvgCount := hfrAvgCount[zone := hfrAvgCount[zone] + 1];
    }

    // The zones after one more star, wherever it falls
    method AddStar(stars: seq<Star>, i: nat, m2: seq<real>, ghost starts: seq<Zone>, ghost ratios: seq<Quotient>)
      returns (next: seq<real>)
      requires Sized() && AllInside(grid, stars) && i < |stars| && |m2| == |ratios| == Size() && Ratios(ratios)
      requires ZonesHold(grid, Zones(m2), starts, stars[..i]) && Total(hfrAvgCount) == i
      modifies this`hfrAvgZone, this`hfrAvgCount, this`thetaAvgZone, this`aAxeAvgZone, this`bAxeAvgZone
      modifies this`eAxeAvgZone
      ensures Sized() && |next| == Size() && Ratios(ratios)
      ensures ZonesHold(grid, Zones(next), starts, stars[..i + 1]) && Total(hfrAvgCount) == i + 1
    {
      hide ZoneOf, ZoneHolds, ZoneAdd, Total, ZonesHold, Zones, Ratios;
      var zone := ZoneOf(grid, stars[i]);
      TotalGrows(hfrAvgCount, zone);
      ZonesGrow(grid, Zones(m2), starts, stars, i);
      next := AddToZone(zone, stars[i], m2, ratios);
    }

    lemma NothingAccumulated(stars: seq<Star>)
      requires Sized() && AllInside(grid, stars)
      requires forall z :: 0 <= z < Size() ==> hfrAvgCount[z] == 0
      ensures var zs := Zones(Zeros(grid.zones * grid.zones)); ZonesHold(grid, zs, zs, stars[..0])
      ensures Total(hfrAvgCount) == 0 && Ratios(eAxeAvgZone) && OverallHolds(stars, 0, 0.0, 0.0)
    {
      TotalOfZeros(hfrAvgCount);
      OverallStarts(stars);
    }

    // The first loop of ssReadySEP: mean and spread of the image, and the zones
    method Accumulate(stars: seq<Star>) returns (mean: real, spread: real, m2: seq<real>)
      requires Sized() && AllInside(grid, stars)
      requires forall z :: 0 <= z < Size() ==> hfrAvgCount[z] == 0
      modifies this`hfrAvgZone, this`hfrAvgCount, this`thetaAvgZone, this`aAxeAvgZone, this`bAxeAvgZone
      modifies this`eAxeAvgZone
      ensures Sized() && |m2| == Size() && Total(hfrAvgCount) == |stars| && Ratios(old(eAxeAvgZone))
      ensures ZonesHold(grid, Zones(m2), old(Zones(Zeros(Size()))), stars)
      ensures OverallHolds(stars, |stars|, mean, spread)
    {
      hide Total, ZonesHold, Zones, OverallHolds, Ratios, NextSpread, Zeros;
      mean, spread, m2 := 0.0, 0.0, Zeros(grid.zones * grid.zones);
      ghost var starts := Zones(m2);
      NothingAccumulated(stars);
      var i := 0;
      while i < |stars|
        invariant 0 <= i <= |stars|
        invariant Sized() && |m2| == Size() && Ratios(old(eAxeAvgZone))
        invariant ZonesHold(grid, Zones(m2), starts, stars[..i]) && Total(hfrAvgCount) == i
        invariant OverallHolds(stars, i, mean, spread)
      {
        OverallGrows(stars, i, mean, spread);
        var delta := stars[i].hfr - mean;
        var next := mean + delta / (i + 1) as real;
        spread := NextSpread(spread, stars[i].hfr, mean, next);
        mean := next;
        m2 := AddStar(stars, i, m2, starts, old(eAxeAvgZone));
        i := i + 1;
      }
      assert stars[..i] == stars;
    }

    // The second loop, over the angles, with the counts taken anew
    method Deviations(stars: seq<Star>)
      requires Sized() && AllInside(grid, stars)
      requires forall z :: 0 <= z < Size() ==> hfrAvgCount[z] == 0
      modifies this`hfrAvgCount, this`thetaDevZone
      ensures Sized() && DeviationsHold(grid, hfrAvgCount, thetaDevZone, thetaAvgZone, stars)
    {
      var i := 0;
      while i < |stars|
        invariant 0 <= i <= |stars|
        invariant Sized() && DeviationsHold(grid, hfrAvgCount, thetaDevZone, thetaAvgZone, stars[..i])
      {
        hide ZoneOf, DeviationsHold, Average, Times;
        var zone := ZoneOf(grid, stars[i]);
        DeviationsGrow(grid, hfrAvgCount, thetaDevZone, thetaAvgZone, stars, i);
        var d := Times(stars[i].theta - thetaAvgZone[zone], stars[i].theta - thetaAvgZone[zone]);
        thetaDevZone := thetaDevZone[zone := Average(hfrAvgCount[zone] as real, thetaDevZone[zone], d)];
        hfrAvgCount := hfrAvgCount[zone := hfrAvgCount[zone] + 1];
        i := i + 1;
      }
      assert stars[..i] == stars;
    }

    // The deviations of the zones, from the sums of squares
    method ZoneDeviations(m2: seq<real>, root: real -> real)
      requires Sized() && |m2| == Size()
      modifies this`hfrDevZone
      ensures Sized()
      ensures forall z :: 0 <= z < Size() ==>
        hfrDevZone[z] == if hfrAvgCount[z] > 1 then root(m2[z] / hfrAvgCount[z] as real) else 0.0
    {
      var i := 0;
      while i < grid.zones * grid.zones
        invariant 0 <= i <= Size() && Sized()
        invariant forall z :: 0 <= z < i ==>
          hfrDevZone[z] == if hfrAvgCount[z] > 1 then root(m2[z] / hfrAvgCount[z] as real) else 0.0
      {
        hfrDevZone := hfrDevZone[i := if hfrAvgCount[i] > 1 then root(m2[i] / hfrAvgCount[i] as real) else 0.0];
        i := i + 1;
      }
    }

    // The last loop: the roots of the variances of the angles
    method ThetaRoots(root: real -> real)
      requires Sized()
      modifies this`thetaDevZone
      ensures Sized()
      ensures forall z :: 0 <= z < Size() ==> thetaDevZone[z] == root(old(thetaDevZone)[z])
    {
      var i := 0;
      while i < grid.zones * grid.zones
        invariant 0 <= i <= Size() && Sized()
        invariant forall z :: 0 <= z < i ==> thetaDevZone[z] == root(old(thetaDevZone)[z])
        invariant forall z :: i <= z < Size() ==> thetaDevZone[z] == old(thetaDevZone)[z]
      {
        thetaDevZone := thetaDevZone[i := root(thetaDevZone[i])];
        i := i + 1;
      }
    }

    // What the lists say of a zone with some stars: batch averages, and the roots of
    // population variances.
    ghost predicate Describes(z: nat, ms: seq<Star>, root: real -> real)
      requires Sized() && z < Size()
      reads this
    {
      && hfrAvgCount[z] == |ms|
      && (ms != [] ==>
            && hfrAvgZone[z] == MeanX(Sizes(ms)) && thetaAvgZone[z] == MeanY(Sizes(ms))
            && aAxeAvgZone[z] == MeanX(Axes(ms)) && bAxeAvgZone[z] == MeanY(Axes(ms))
            && eAxeAvgZone[z] == Ratio(MeanX(Axes(ms)), MeanY(Axes(ms)))
            && thetaDevZone[z] == root(SquaresY(Sizes(ms), MeanY(Sizes(ms))) / Count(Sizes(ms))))
      && hfrDevZone[z] == if |ms| > 1 then root(SquaresX(Sizes(ms), MeanX(Sizes(ms))) / Count(Sizes(ms))) else 0.0
    }

    // ssReadySEP, on lists as ResetSolver leaves them; the averages may start anywhere. The
    // square root is the library's.
    method ReadySEP(stars: seq<Star>, root: real -> real)
      requires Sized() && AllInside(grid, stars)
      requires forall z :: 0 <= z < Size() ==> hfrAvgCount[z] == 0
      modifies this`hfrAvg, this`hfrAvgDev, this`hfrAvgZone, this`hfrDevZone, this`hfrAvgCount,
               this`thetaAvgZone, this`thetaDevZone, this`aAxeAvgZone, this`bAxeAvgZone, this`eAxeAvgZone
      ensures Sized() && Total(hfrAvgCount) == |stars|
      ensures hfrAvg == if stars != [] then MeanX(Sizes(stars)) else 0.0
      ensures hfrAvgDev ==
        if |stars| > 1 then root(SquaresX(Sizes(stars), MeanX(Sizes(stars))) / |stars| as real) else 0.0
      ensures forall z :: 0 <= z < Size() ==> Describes(z, Members(grid, stars, z), root)
      ensures forall z :: 0 <= z < Size() && Members(grid, stars, z) == [] ==>
        && hfrAvgZone[z] == old(hfrAvgZone[z]) && thetaAvgZone[z] == old(thetaAvgZone[z])
        && aAxeAvgZone[z] == old(aAxeAvgZone[z]) && bAxeAvgZone[z] == old(bAxeAvgZone[z])
        && eAxeAvgZone[z] == old(eAxeAvgZone[z])
    {
      hide Describes, ZonesHold, DeviationsHold, Members, Total, SquaresX, SumX, OverallHolds, Ratio;
      ghost var starts := Zones(Zeros(Size()));
      var mean, spread, m2 := Accumulate(stars);
      ghost var zs, counts := Zones(m2), hfrAvgCount;
      hfrAvg := mean;
      hfrAvgDev := if |stars| > 1 then root(spread / |stars| as real) else 0.0;
      OverallEnds(stars, mean, spread);
      ZoneDeviations(m2, root);
      hfrAvgCount := seq(grid.zones * grid.zones, _ => 0);
      Deviations(stars);
      ghost var variances := thetaDevZone;
      CountsAre(zs, starts, variances, stars);
      assert hfrAvgCount == counts;
      ThetaRoots(root);
      DescribesAll(zs, starts, variances, stars, root);
    }

    lemma OverallEnds(stars: seq<Star>, mean: real, spread: real)
      requires OverallHolds(stars, |stars|, mean, spread)
      ensures mean == if stars != [] then MeanX(Sizes(stars)) else 0.0
      ensures stars != [] ==> spread == SquaresX(Sizes(stars), MeanX(Sizes(stars)))
    {
      if stars != [] {
        OverallIsBatch(stars, mean, spread);
      }
    }

    lemma CountsAre(zs: seq<Zone>, starts: seq<Zone>, variances: seq<real>, stars: seq<Star>)
      requires Sized() && AllInside(grid, stars) && ZonesHold(grid, zs, starts, stars)
      requires DeviationsHold(grid, hfrAvgCount, variances, thetaAvgZone, stars)
      ensures forall z :: 0 <= z < Size() ==> zs[z].count == hfrAvgCount[z] == |Members(grid, stars, z)|
      ensures forall z :: 0 <= z < Size() && Members(grid, stars, z) == [] ==> zs[z] == starts[z]
    {
      forall z | 0 <= z < Size()
        ensures zs[z].count == hfrAvgCount[z] == |Members(grid, stars, z)|
        ensures Members(grid, stars, z) == [] ==> zs[z] == starts[z]
      {
        assert ZoneHolds(zs[z], starts[z], Members(grid, stars, z));
        assert DeviationHolds(hfrAvgCount[z], variances[z], thetaAvgZone[z], Members(grid, stars, z));
      }
    }

    // The lists against the zones that the first loop left.
    ghost predicate Shows(z: nat, zone: Zone, root: real -> real)
      requires Sized() && z < Size()
      reads this
    {
      && zone.hfr == hfrAvgZone[z] && zone.theta == thetaAvgZone[z]
      && zone.a == aAxeAvgZone[z] && zone.b == bAxeAvgZone[z]
      && (zone.count > 0 ==> eAxeAvgZone[z] == Ratio(zone.a, zone.b))
      && hfrDevZone[z] == if zone.count > 1 then root(zone.m2 / zone.count as real) else 0.0
    }

    lemma DescribesAll(zs: seq<Zone>, starts: seq<Zone>, variances: seq<real>, stars: seq<Star>, root: real -> real)
      requires Sized() && AllInside(grid, stars) && ZonesHold(grid, zs, starts, stars)
      requires DeviationsHold(grid, hfrAvgCount, variances, thetaAvgZone, stars)
      requires forall z :: 0 <= z < Size() ==> Shows(z, zs[z], root) && thetaDevZone[z] == root(variances[z])
      ensures forall z :: 0 <= z < Size() ==> Describes(z, Members(grid, stars, z), root)
    {
      forall z | 0 <= z < Size() ensures Describes(z, Members(grid, stars, z), root) {
        assert ZoneHolds(zs[z], starts[z], Members(grid, stars, z));
        assert DeviationHolds(hfrAvgCount[z], variances[z], thetaAvgZone[z], Members(grid, stars, z));
        DescribesZone(z, zs[z], starts[z], variances[z], Members(grid, stars, z), root);
      }
    }

    lemma DescribesZone(z: nat, zone: Zone, start: Zone, variance: real, ms: seq<Star>, root: real -> real)
      requires Sized() && z < Size() && ZoneHolds(zone, start, ms) && Shows(z, zone, root)
      requires DeviationHolds(hfrAvgCount[z], variance, thetaAvgZone[z], ms) && thetaDevZone[z] == root(variance)
      ensures Describes(z, ms, root)
    {
      if ms != [] {
        ZoneIsBatch(zone, start, ms);
        MeanIs(variance, Count(Sizes(ms)), SquaresY(Sizes(ms), thetaAvgZone[z]));
      }
      hide SquaresX, SquaresY, MeanX, MeanY, Axes;
    }
  }
}
