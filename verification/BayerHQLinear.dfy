/**
 High-quality linear demosaicing (Malvar, He and Cutler), in 8 and 16 bits: four
 five-by-five kernels, and the pointer-walking decoder that applies them.
 */
module BayerHQLinear {
  import opened BayerPattern
  import opened BayerWalk

  // ---------------------------------------------------------------- kernels

  // Green at a red or blue pixel; the opposite colour there; at a green pixel, the
  // colour found beside it and the colour found above and below it.
  datatype Kernel = GreenHere | Opposite | Beside | AboveBelow

  // Kernel weights in sixteenths, over the window -2..2 by -2..2.
  function Weight(k: Kernel, dx: int, dy: int): int {
    var far := if dx < 0 then -dx else dx;
    var high := if dy < 0 then -dy else dy;
    match k
    case GreenHere =>
      if far == 0 && high == 0 then 8 else if far + high == 1 then 4
      else if far + high == 2 && far != high then -2 else 0
    case Opposite =>
      if far == 0 && high == 0 then 12 else if far == 1 && high == 1 then 4
      else if far + high == 2 then -3 else 0
    case Beside =>
      if far == 0 && high == 0 then 10 else if far == 1 && high == 0 then 8
      else if far == 0 && high == 2 then 1 else if far + high == 2 then -2 else 0
    case AboveBelow =>
      if far == 0 && high == 0 then 10 else if far == 0 && high == 1 then 8
      else if far == 2 && high == 0 then 1 else if far + high == 2 then -2 else 0
  }

  ghost predicate Inner(m: Mosaic, x: int, y: int)
    requires m.Ok()
  {
    !InBorder(m.sx, m.sy, 2, x, y)
  }

  // One row of the weighted sum, and all five.
  ghost function RowSum(m: Mosaic, k: Kernel, x: int, y: int, dy: int): int
    requires m.Ok() && Inner(m, x, y) && -2 <= dy <= 2
  {
    Weight(k, -2, dy) * m.At(x - 2, y + dy) + Weight(k, -1, dy) * m.At(x - 1, y + dy) +
    Weight(k, 0, dy) * m.At(x, y + dy) +
    Weight(k, 1, dy) * m.At(x + 1, y + dy) + Weight(k, 2, dy) * m.At(x + 2, y + dy)
  }

  ghost function WindowSum(m: Mosaic, k: Kernel, x: int, y: int): int
    requires m.Ok() && Inner(m, x, y)
  {
    RowSum(m, k, x, y, -2) + RowSum(m, k, x, y, -1) + RowSum(m, k, x, y, 0) +
    RowSum(m, k, x, y, 1) + RowSum(m, k, x, y, 2)
  }

  // Clipped, and stored into a sample of at most 16 bits, which a larger limit overruns.
  function Clip(t: int, limit: int): (r: int)
    ensures 0 <= limit < 0x1_0000 ==> r == if t < 0 then 0 else if t > limit then limit else t
  {
    (if t < 0 then 0 else if t > limit then limit else t) % 0x1_0000
  }

  // Which kernel makes channel c of a pixel that is not of that colour.
  function KernelFor(tile: int, x: int, y: int, c: int): Kernel
    requires IsTile(tile)
  {
    if ColourAt(tile, x, y) != GREEN then (if c == GREEN then GreenHere else Opposite)
    else if ColourAt(tile, x + 1, y) == c then Beside else AboveBelow
  }

  // Sixteenths to a sample.  The two-step rounding at green pixels carries one extra sixteenth.
  function Rounded(sum: int, k: Kernel): int {
    (sum + if k.Beside? || k.AboveBelow? then 9 else 8) / 16
  }

  // A decoded channel: black on the border, the sample itself in the pixel's own
  // colour, and otherwise the clipped, rounded weighted sum.
  ghost function HQPixel(m: Mosaic, limit: int, x: int, y: int, c: int): int
    requires m.Ok() && RED <= c <= BLUE
  {
    if !Inner(m, x, y) then 0
    else if c == ColourAt(m.tile, x, y) then m.At(x, y)
    else
      var k := KernelFor(m.tile, x, y, c);
      Clip(Rounded(WindowSum(m, k, x, y), k), limit)
  }

  ghost function HQChannel(m: Mosaic, limit: int, f: int): int
    requires m.Ok()
  {
    HQPixel(m, limit, f / 3 % m.sx, f / 3 / m.sx, f % 3)
  }

  ghost function HQImage(m: Mosaic, limit: int): (image: seq<int>)
    requires m.Ok()
    ensures |image| == 3 * m.sx * m.sy
  {
    SizeIsNat(m.sx, m.sy);
    seq(3 * m.sx * m.sy, f => HQChannel(m, limit, f))
  }

  // ---------------------------------------------------------------- kernels written out

  lemma GreenHereSum(m: Mosaic, x: int, y: int)
    requires m.Ok() && Inner(m, x, y)
    ensures WindowSum(m, GreenHere, x, y) ==
            2 * ((m.At(x, y - 1) + m.At(x - 1, y) + m.At(x + 1, y) + m.At(x, y + 1)) * 2
                 - (m.At(x, y - 2) + m.At(x - 2, y) + m.At(x + 2, y) + m.At(x, y + 2)) + m.At(x, y) * 4)
  {
    hide Mosaic.At;
  }

  lemma OppositeSum(m: Mosaic, x: int, y: int)
    requires m.Ok() && Inner(m, x, y)
    ensures WindowSum(m, Opposite, x, y) ==
            2 * ((m.At(x - 1, y - 1) + m.At(x + 1, y - 1) + m.At(x - 1, y + 1) + m.At(x + 1, y + 1)) * 2 + m.At(x, y) * 6)
              - 3 * (m.At(x, y - 2) + m.At(x - 2, y) + m.At(x + 2, y) + m.At(x, y + 2))
  {
    hide Mosaic.At;
  }

  // The four corner samples next to a pixel.
  ghost function Corners(m: Mosaic, x: int, y: int): int
    requires m.Ok() && Inner(m, x, y)
  {
    m.At(x - 1, y - 1) + m.At(x + 1, y - 1) + m.At(x - 1, y + 1) + m.At(x + 1, y + 1)
  }

  lemma BesideSum(m: Mosaic, x: int, y: int)
    requires m.Ok() && Inner(m, x, y)
    ensures WindowSum(m, Beside, x, y) ==
            2 * (m.At(x, y) * 5 + (m.At(x - 1, y) + m.At(x + 1, y)) * 4
                 - m.At(x - 2, y) - Corners(m, x, y) - m.At(x + 2, y)) + m.At(x, y - 2) + m.At(x, y + 2)
  {
    hide Mosaic.At;
  }

  lemma AboveBelowSum(m: Mosaic, x: int, y: int)
    requires m.Ok() && Inner(m, x, y)
    ensures WindowSum(m, AboveBelow, x, y) ==
            2 * (m.At(x, y) * 5 + (m.At(x, y - 1) + m.At(x, y + 1)) * 4
                 - m.At(x, y - 2) - Corners(m, x, y) - m.At(x, y + 2)) + m.At(x - 2, y) + m.At(x + 2, y)
  {
    hide Mosaic.At;
  }

  // The decoder's shifts and the sixteenths agree.
  lemma Roundings(a: int, b: int, x: int)
    ensures (a + (b + 1) / 2 + 4) / 8 == (2 * a + b + 9) / 16
    ensures (a - (x * 3 + 1) / 2 + 4) / 8 == (2 * a - 3 * x + 8) / 16
    ensures (a + 4) / 8 == (2 * a + 8) / 16
  {
  }

  // A grey plane within range is reproduced exactly inside the border: every kernel's
  // weights add up to one and balance out.
  lemma PlaneIsKept(m: Mosaic, limit: int, level: int, across: int, down: int, x: int, y: int, c: int)
    requires m.Ok() && m.IsPlane(level, across, down) && Inner(m, x, y) && RED <= c <= BLUE
    requires 0 <= m.At(x, y) <= limit && m.At(x, y) < 0x1_0000
    ensures HQPixel(m, limit, x, y, c) == m.At(x, y)
  {
    if c != ColourAt(m.tile, x, y) {
      var k := KernelFor(m.tile, x, y, c);
      PlaneWindow(m, level, across, down, k, x, y);
    }
  }

  lemma PlaneWindow(m: Mosaic, level: int, across: int, down: int, k: Kernel, x: int, y: int)
    requires m.Ok() && m.IsPlane(level, across, down) && Inner(m, x, y)
    ensures WindowSum(m, k, x, y) == 16 * m.At(x, y)
  {
    hide *;
    PlaneTips(m, level, across, down, x, y);
    match k {
      case GreenHere =>
        GreenHereSum(m, x, y);
        PlaneEdges(m, level, across, down, x, y);
      case Opposite =>
        OppositeSum(m, x, y);
        PlaneCorners(m, level, across, down, x, y);
      case Beside =>
        BesideSum(m, x, y);
        PlaneEdges(m, level, across, down, x, y);
        PlaneCorners(m, level, across, down, x, y);
      case AboveBelow =>
        AboveBelowSum(m, x, y);
        PlaneEdges(m, level, across, down, x, y);
        PlaneCorners(m, level, across, down, x, y);
    }
  }

  // On a plane, samples on opposite sides of a pixel average to it.
  lemma PlaneEdges(m: Mosaic, level: int, across: int, down: int, x: int, y: int)
    requires m.Ok() && m.IsPlane(level, across, down) && Inner(m, x, y)
    ensures m.At(x - 1, y) + m.At(x + 1, y) == m.At(x, y - 1) + m.At(x, y + 1) == 2 * m.At(x, y)
  {
    hide Mosaic.At, Mosaic.IsPlane;
    m.PlaneStep(level, across, down, x, y, -1, 0);
    m.PlaneStep(level, across, down, x, y, 1, 0);
    m.PlaneStep(level, across, down, x, y, 0, -1);
    m.PlaneStep(level, across, down, x, y, 0, 1);
  }

  lemma PlaneTips(m: Mosaic, level: int, across: int, down: int, x: int, y: int)
    requires m.Ok() && m.IsPlane(level, across, down) && Inner(m, x, y)
    ensures m.At(x - 2, y) + m.At(x + 2, y) == m.At(x, y - 2) + m.At(x, y + 2) == 2 * m.At(x, y)
  {
    hide Mosaic.At, Mosaic.IsPlane;
    m.PlaneStep(level, across, down, x, y, -2, 0);
    m.PlaneStep(level, across, down, x, y, 2, 0);
    m.PlaneStep(level, across, down, x, y, 0, -2);
    m.PlaneStep(level, across, down, x, y, 0, 2);
  }

  lemma PlaneCorners(m: Mosaic, level: int, across: int, down: int, x: int, y: int)
    requires m.Ok() && m.IsPlane(level, across, down) && Inner(m, x, y)
    ensures m.At(x - 1, y - 1) + m.At(x + 1, y - 1) + m.At(x - 1, y + 1) + m.At(x + 1, y + 1) == 4 * m.At(x, y)
    ensures Corners(m, x, y) == 4 * m.At(x, y)
  {
    hide Mosaic.At, Mosaic.IsPlane;
    m.PlaneStep(level, across, down, x, y, -1, -1);
    m.PlaneStep(level, across, down, x, y, 1, -1);
    m.PlaneStep(level, across, down, x, y, -1, 1);
    m.PlaneStep(level, across, down, x, y, 1, 1);
  }

  // ---------------------------------------------------------------- the decoder

  lemma ChannelOf(m: Mosaic, limit: int, x: int, y: int, c: int)
    requires m.Ok() && m.Has(x, y) && RED <= c <= BLUE
    ensures HQChannel(m, limit, 3 * Pixel(m.sx, x, y) + c) == HQPixel(m, limit, x, y, c)
  {
    hide HQPixel, Pixel;
    FlatIndex(m.sx, x, y, c);
  }

  lemma ImageAt(m: Mosaic, limit: int, f: int)
    requires m.Ok() && 0 <= f < |HQImage(m, limit)|
    ensures HQImage(m, limit)[f] == HQChannel(m, limit, f)
  {
  }

  // The three channels of a pixel in the flat expected image.
  lemma Expect(m: Mosaic, limit: int, x: int, y: int)
    requires m.Ok() && m.Has(x, y)
    ensures var p := Pixel(m.sx, x, y);
            && 0 <= 3 * p && 3 * p + 3 <= |HQImage(m, limit)|
            && HQImage(m, limit)[3 * p + RED] == HQPixel(m, limit, x, y, RED)
            && HQImage(m, limit)[3 * p + GREEN] == HQPixel(m, limit, x, y, GREEN)
            && HQImage(m, limit)[3 * p + BLUE] == HQPixel(m, limit, x, y, BLUE)
  {
    var p := Pixel(m.sx, x, y);
    PixelInRange(m.sx, m.sy, x, y);
    assert 0 <= 3 * p && 3 * p + 3 <= |HQImage(m, limit)|;
    hide HQImage, HQChannel, HQPixel, Pixel;
    ImageAt(m, limit, 3 * p + RED);
    ImageAt(m, limit, 3 * p + GREEN);
    ImageAt(m, limit, 3 * p + BLUE);
    ChannelOf(m, limit, x, y, RED);
    ChannelOf(m, limit, x, y, GREEN);
    ChannelOf(m, limit, x, y, BLUE);
  }

  // The samples the decoder reads, seen from its raw pointer two rows and two columns
  // before the pixel; all of them lie inside the image.
  lemma Window(m: Mosaic, x: int, y: int, b: int)
    requires m.Ok() && Inner(m, x, y) && b + 2 * m.sx + 2 == Pixel(m.sx, x, y)
    ensures 0 <= b && b + m.sx * 4 + 2 < |m.raw|
    ensures m.raw[b + 2] == m.At(x, y - 2) && m.raw[b + m.sx * 4 + 2] == m.At(x, y + 2)
    ensures m.raw[b + m.sx + 1] == m.At(x - 1, y - 1) && m.raw[b + m.sx + 2] == m.At(x, y - 1)
    ensures m.raw[b + m.sx + 3] == m.At(x + 1, y - 1)
    ensures m.raw[b + m.sx * 2] == m.At(x - 2, y) && m.raw[b + m.sx * 2 + 1] == m.At(x - 1, y)
    ensures m.raw[b + m.sx * 2 + 2] == m.At(x, y)
    ensures m.raw[b + m.sx * 2 + 3] == m.At(x + 1, y) && m.raw[b + m.sx * 2 + 4] == m.At(x + 2, y)
    ensures m.raw[b + m.sx * 3 + 1] == m.At(x - 1, y + 1) && m.raw[b + m.sx * 3 + 2] == m.At(x, y + 1)
    ensures m.raw[b + m.sx * 3 + 3] == m.At(x + 1, y + 1)
  {
    hide Pixel;
    Neighbour(m.sx, m.sy, x, y, -2, -2);
    Neighbour(m.sx, m.sy, x, y, 0, -2);
    Neighbour(m.sx, m.sy, x, y, -1, -1);
    Neighbour(m.sx, m.sy, x, y, 0, -1);
    Neighbour(m.sx, m.sy, x, y, 1, -1);
    Neighbour(m.sx, m.sy, x, y, -2, 0);
    Neighbour(m.sx, m.sy, x, y, -1, 0);
    Neighbour(m.sx, m.sy, x, y, 0, 0);
    Neighbour(m.sx, m.sy, x, y, 1, 0);
    Neighbour(m.sx, m.sy, x, y, 2, 0);
    Neighbour(m.sx, m.sy, x, y, -1, 1);
    Neighbour(m.sx, m.sy, x, y, 0, 1);
    Neighbour(m.sx, m.sy, x, y, 1, 1);
    Neighbour(m.sx, m.sy, x, y, 0, 2);
  }

  // The decoder's arithmetic at a green pixel, for the colour beside it and the other one.
  ghost function BesideValue(m: Mosaic, x: int, y: int): int
    requires m.Ok() && Inner(m, x, y)
  {
    m.At(x, y) * 5 + (m.At(x - 1, y) + m.At(x + 1, y)) * 4
    - m.At(x - 2, y) - Corners(m, x, y) - m.At(x + 2, y) + (m.At(x, y - 2) + m.At(x, y + 2) + 1) / 2
  }

  ghost function AboveBelowValue(m: Mosaic, x: int, y: int): int
    requires m.Ok() && Inner(m, x, y)
  {
    m.At(x, y) * 5 + (m.At(x, y - 1) + m.At(x, y + 1)) * 4
    - m.At(x, y - 2) - Corners(m, x, y) - m.At(x, y + 2) + (m.At(x - 2, y) + m.At(x + 2, y) + 1) / 2
  }

  lemma BesideIsRounded(m: Mosaic, x: int, y: int)
    requires m.Ok() && Inner(m, x, y)
    ensures (BesideValue(m, x, y) + 4) / 8 == Rounded(WindowSum(m, Beside, x, y), Beside)
  {
    hide Mosaic.At, WindowSum, Corners;
    BesideSum(m, x, y);
    Roundings(m.At(x, y) * 5 + (m.At(x - 1, y) + m.At(x + 1, y)) * 4
              - m.At(x - 2, y) - Corners(m, x, y) - m.At(x + 2, y), m.At(x, y - 2) + m.At(x, y + 2), 0);
  }

  lemma AboveBelowIsRounded(m: Mosaic, x: int, y: int)
    requires m.Ok() && Inner(m, x, y)
    ensures (AboveBelowValue(m, x, y) + 4) / 8 == Rounded(WindowSum(m, AboveBelow, x, y), AboveBelow)
  {
    hide Mosaic.At, WindowSum, Corners;
    AboveBelowSum(m, x, y);
    Roundings(m.At(x, y) * 5 + (m.At(x, y - 1) + m.At(x, y + 1)) * 4
              - m.At(x, y - 2) - Corners(m, x, y) - m.At(x, y + 2), m.At(x - 2, y) + m.At(x + 2, y), 0);
  }

  // What the definition says at a green pixel.
  lemma AtGreen(m: Mosaic, limit: int, x: int, y: int, own: int)
    requires m.Ok() && Inner(m, x, y) && ColourAt(m.tile, x, y) == GREEN && own == ColourAt(m.tile, x + 1, y)
    ensures own in {RED, BLUE}
    ensures HQPixel(m, limit, x, y, GREEN) == m.At(x, y)
    ensures HQPixel(m, limit, x, y, own) ==
            Clip((m.At(x, y) * 5 + (m.At(x - 1, y) + m.At(x + 1, y)) * 4 - m.At(x - 2, y) - m.At(x + 2, y)
                  - m.At(x - 1, y - 1) - m.At(x + 1, y - 1) - m.At(x - 1, y + 1) - m.At(x + 1, y + 1)
                  + (m.At(x, y - 2) + m.At(x, y + 2) + 1) / 2 + 4) / 8, limit)
    ensures HQPixel(m, limit, x, y, RED + BLUE - own) ==
            Clip((m.At(x, y) * 5 + (m.At(x, y - 1) + m.At(x, y + 1)) * 4 - m.At(x, y - 2) - m.At(x, y + 2)
                  - m.At(x - 1, y - 1) - m.At(x + 1, y - 1) - m.At(x - 1, y + 1) - m.At(x + 1, y + 1)
                  + (m.At(x - 2, y) + m.At(x + 2, y) + 1) / 2 + 4) / 8, limit)
  {
    GreenByKernels(m, limit, x, y, own);
    hide Mosaic.At, WindowSum, ColourAt, HQPixel, Clip;
  }

  lemma GreenByKernels(m: Mosaic, limit: int, x: int, y: int, own: int)
    requires m.Ok() && Inner(m, x, y) && ColourAt(m.tile, x, y) == GREEN && own == ColourAt(m.tile, x + 1, y)
    ensures own in {RED, BLUE}
    ensures HQPixel(m, limit, x, y, GREEN) == m.At(x, y)
    ensures HQPixel(m, limit, x, y, own) == Clip((BesideValue(m, x, y) + 4) / 8, limit)
    ensures HQPixel(m, limit, x, y, RED + BLUE - own) == Clip((AboveBelowValue(m, x, y) + 4) / 8, limit)
  {
    assert own in {RED, BLUE};
    hide Mosaic.At, WindowSum, ColourAt, BesideValue, AboveBelowValue, Rounded, Clip;
    BesideIsRounded(m, x, y);
    AboveBelowIsRounded(m, x, y);
  }

  // A decoded sample is the weighted sum, divided by sixteen and rounded.
  lemma RoundedIsNear(sum: int, k: Kernel)
    ensures -7 <= 16 * Rounded(sum, k) - sum <= 9
  {
  }

  // The four samples two steps away along the axes.
  ghost function Tips(m: Mosaic, x: int, y: int): int
    requires m.Ok() && Inner(m, x, y)
  {
    m.At(x, y - 2) + m.At(x - 2, y) + m.At(x + 2, y) + m.At(x, y + 2)
  }

  // And at a red or blue pixel.
  lemma AtColour(m: Mosaic, limit: int, x: int, y: int, own: int)
    requires m.Ok() && Inner(m, x, y) && own == ColourAt(m.tile, x, y) && own != GREEN
    ensures HQPixel(m, limit, x, y, own) == m.At(x, y)
    ensures HQPixel(m, limit, x, y, GREEN) ==
            Clip(((m.At(x, y - 1) + m.At(x - 1, y) + m.At(x + 1, y) + m.At(x, y + 1)) * 2
                  - Tips(m, x, y) + m.At(x, y) * 4 + 4) / 8, limit)
    ensures HQPixel(m, limit, x, y, RED + BLUE - own) ==
            Clip((Corners(m, x, y) * 2 - (Tips(m, x, y) * 3 + 1) / 2 + m.At(x, y) * 6 + 4) / 8, limit)
  {
    hide Mosaic.At, WindowSum, ColourAt;
    GreenHereSum(m, x, y);
    OppositeSum(m, x, y);
    Roundings((m.At(x, y - 1) + m.At(x - 1, y) + m.At(x + 1, y) + m.At(x, y + 1)) * 2
              - Tips(m, x, y) + m.At(x, y) * 4, 0, 0);
    Roundings(Corners(m, x, y) * 2 + m.At(x, y) * 6, 0, Tips(m, x, y));
  }

  ghost predicate Stored(before: seq<int>, after: seq<int>, m: Mosaic, limit: int, x: int, y: int, r: int)
    requires m.Ok()
  {
    && |after| == |before| && 1 <= r && r + 1 < |after|
    && after[r - 1] == HQPixel(m, limit, x, y, RED)
    && after[r] == HQPixel(m, limit, x, y, GREEN)
    && after[r + 1] == HQPixel(m, limit, x, y, BLUE)
    && forall f :: 0 <= f < |after| && !(r - 1 <= f <= r + 1) ==> after[f] == before[f]
  }

  // The stores at a green pixel.
  method StoreGreen(m: Mosaic, limit: int, rgb: array<int>, b: int, r: int, blue: int, ghost x: int, ghost y: int)
    requires m.Ok() && Inner(m, x, y) && 1 <= r && r + 1 < rgb.Length && b + 2 * m.sx + 2 == Pixel(m.sx, x, y)
    requires ColourAt(m.tile, x, y) == GREEN && blue in {-1, 1} && ColourAt(m.tile, x + 1, y) == 1 + blue
    modifies rgb
    ensures Stored(old(rgb[..]), rgb[..], m, limit, x, y, r)
  {
    hide HQPixel, ColourAt, Pixel, Mosaic.At, Clip;
    Window(m, x, y, b);
    GreenByKernels(m, limit, x, y, 1 + blue);
    var s1, s2, s3, s4 := m.sx, m.sx * 2, m.sx * 3, m.sx * 4;
    rgb[r] := m.raw[b + s2 + 2];
    var t0 := rgb[r] * 5 + (m.raw[b + s1 + 2] + m.raw[b + s3 + 2]) * 4 - m.raw[b + 2] - m.raw[b + s1 + 1]
              - m.raw[b + s1 + 3] - m.raw[b + s3 + 1] - m.raw[b + s3 + 3] - m.raw[b + s4 + 2]
              + (m.raw[b + s2] + m.raw[b + s2 + 4] + 1) / 2;
    var t1 := rgb[r] * 5 + (m.raw[b + s2 + 1] + m.raw[b + s2 + 3]) * 4 - m.raw[b + s2] - m.raw[b + s1 + 1]
              - m.raw[b + s1 + 3] - m.raw[b + s3 + 1] - m.raw[b + s3 + 3] - m.raw[b + s2 + 4]
              + (m.raw[b + 2] + m.raw[b + s4 + 2] + 1) / 2;
    rgb[r - blue] := Clip((t0 + 4) / 8, limit);
    rgb[r + blue] := Clip((t1 + 4) / 8, limit);
  }

  // The stores at a red or blue pixel.
  method StoreColour(m: Mosaic, limit: int, rgb: array<int>, b: int, r: int, blue: int, ghost x: int, ghost y: int)
    requires m.Ok() && Inner(m, x, y) && 1 <= r && r + 1 < rgb.Length && b + 2 * m.sx + 2 == Pixel(m.sx, x, y)
    requires blue in {-1, 1} && ColourAt(m.tile, x, y) == 1 + blue
    modifies rgb
    ensures Stored(old(rgb[..]), rgb[..], m, limit, x, y, r)
  {
    hide HQPixel, ColourAt, Pixel, Mosaic.At, Clip;
    Window(m, x, y, b);
    AtColour(m, limit, x, y, 1 + blue);
    var s1, s2, s3, s4 := m.sx, m.sx * 2, m.sx * 3, m.sx * 4;
    rgb[r + blue] := m.raw[b + s2 + 2];
    var t0 := (m.raw[b + s1 + 1] + m.raw[b + s1 + 3] + m.raw[b + s3 + 1] + m.raw[b + s3 + 3]) * 2
              - ((m.raw[b + 2] + m.raw[b + s2] + m.raw[b + s2 + 4] + m.raw[b + s4 + 2]) * 3 + 1) / 2
              + rgb[r + blue] * 6;
    var t1 := (m.raw[b + s1 + 2] + m.raw[b + s2 + 1] + m.raw[b + s2 + 3] + m.raw[b + s3 + 2]) * 2
              - (m.raw[b + 2] + m.raw[b + s2] + m.raw[b + s2 + 4] + m.raw[b + s4 + 2]) + rgb[r + blue] * 4;
    rgb[r - blue] := Clip((t0 + 4) / 8, limit);
    rgb[r] := Clip((t1 + 4) / 8, limit);
  }

  lemma StoredIsWritten(before: seq<int>, after: seq<int>, m: Mosaic, limit: int, x: int, y: int, r: int)
    requires m.Ok() && m.Has(x, y) && Stored(before, after, m, limit, x, y, r) && r == 3 * Pixel(m.sx, x, y) + 1
    ensures Written(before, after, HQImage(m, limit), r)
  {
    hide HQImage, HQPixel;
    Expect(m, limit, x, y);
  }

  method PutGreen(m: Mosaic, limit: int, rgb: array<int>, b: int, r: int, blue: int, ghost x: int, ghost y: int)
    requires m.Ok() && Inner(m, x, y)
    requires At(HQImage(m, limit), m.sx, m.sy, 2, rgb[..], b, r, x, y)
    requires ColourAt(m.tile, x, y) == GREEN && blue in {-1, 1} && ColourAt(m.tile, x + 1, y) == 1 + blue
    modifies rgb
    ensures At(HQImage(m, limit), m.sx, m.sy, 2, rgb[..], b + 1, r + 3, x + 1, y)
    ensures |HQImage(m, limit)| <= rgb.Length && rgb[|HQImage(m, limit)|..] == old(rgb[|HQImage(m, limit)|..])
  {
    hide HQImage;
    PlaceInRange(HQImage(m, limit), m.sx, m.sy, 2, rgb[..], b, r, x, y);
    StoreGreen(m, limit, rgb, b, r, blue, x, y);
    StoredIsWritten(old(rgb[..]), rgb[..], m, limit, x, y, r);
    Advance(HQImage(m, limit), m.sx, m.sy, 2, old(rgb[..]), rgb[..], b, r, x, y);
  }

  method PutColour(m: Mosaic, limit: int, rgb: array<int>, b: int, r: int, blue: int, ghost x: int, ghost y: int)
    requires m.Ok() && Inner(m, x, y)
    requires At(HQImage(m, limit), m.sx, m.sy, 2, rgb[..], b, r, x, y)
    requires blue in {-1, 1} && ColourAt(m.tile, x, y) == 1 + blue
    modifies rgb
    ensures At(HQImage(m, limit), m.sx, m.sy, 2, rgb[..], b + 1, r + 3, x + 1, y)
    ensures |HQImage(m, limit)| <= rgb.Length && rgb[|HQImage(m, limit)|..] == old(rgb[|HQImage(m, limit)|..])
  {
    hide HQImage;
    PlaceInRange(HQImage(m, limit), m.sx, m.sy, 2, rgb[..], b, r, x, y);
    StoreColour(m, limit, rgb, b, r, blue, x, y);
    StoredIsWritten(old(rgb[..]), rgb[..], m, limit, x, y, r);
    Advance(HQImage(m, limit), m.sx, m.sy, 2, old(rgb[..]), rgb[..], b, r, x, y);
  }

  // One row: perhaps a green pixel, then pairs of a red or blue and a green one, then perhaps a last one.
  method DecodeRow(m: Mosaic, limit: int, rgb: array<int>, b0: int, r0: int, blue: int, startWithGreen: bool, ghost y: int)
    returns (b: int, r: int)
    requires m.Ok() && m.sx >= 5 && 2 <= y < m.sy - 2 && |HQImage(m, limit)| <= rgb.Length
    requires At(HQImage(m, limit), m.sx, m.sy, 2, rgb[..], b0, r0, 2, y)
    requires blue in {-1, 1} && Toggles(m.tile, 2, y, startWithGreen, 1 + blue)
    modifies rgb
    ensures At(HQImage(m, limit), m.sx, m.sy, 2, rgb[..], b, r, m.sx - 2, y)
    ensures b == b0 + m.sx - 4 && r == r0 + 3 * (m.sx - 4)
    ensures rgb[|HQImage(m, limit)|..] == old(rgb[|HQImage(m, limit)|..])
  {
    hide At, HQImage;
    ghost var e := HQImage(m, limit);
    b, r := b0, r0;
    ghost var x := 2;
    var bayerEnd := b + (m.sx - 4);
    if startWithGreen {
      RowAlternates(m.tile, 2, x, y, startWithGreen, 1 + blue);
      RowAlternates(m.tile, 2, x + 1, y, startWithGreen, 1 + blue);
      PutGreen(m, limit, rgb, b, r, blue, x, y);
      b, r, x := b + 1, r + 3, x + 1;
    }
    while b <= bayerEnd - 2
      invariant 2 <= x <= m.sx - 2 && (x % 2 == 0 <==> !startWithGreen)
      invariant b == b0 + x - 2 && r == r0 + 3 * (x - 2)
      invariant At(e, m.sx, m.sy, 2, rgb[..], b, r, x, y)
      invariant rgb[|e|..] == old(rgb[|e|..])
    {
      RowAlternates(m.tile, 2, x, y, startWithGreen, 1 + blue);
      RowAlternates(m.tile, 2, x + 1, y, startWithGreen, 1 + blue);
      RowAlternates(m.tile, 2, x + 2, y, startWithGreen, 1 + blue);
      PutColour(m, limit, rgb, b, r, blue, x, y);
      PutGreen(m, limit, rgb, b + 1, r + 3, blue, x + 1, y);
      b, r, x := b + 2, r + 6, x + 2;
    }
    if b < bayerEnd {
      RowAlternates(m.tile, 2, x, y, startWithGreen, 1 + blue);
      PutColour(m, limit, rgb, b, r, blue, x, y);
      b, r, x := b + 1, r + 3, x + 1;
    }
  }

  lemma ImageIsFramed(m: Mosaic, limit: int)
    requires m.Ok() && m.sx >= 5 && m.sy >= 5
    ensures Framed(HQImage(m, limit), m.sx, m.sy, 2)
  {
    hide HQImage;
    forall f | 0 <= f < |HQImage(m, limit)| && Border(m.sx, m.sy, 2, f) ensures HQImage(m, limit)[f] == 0 {
      ImageAt(m, limit, f);
    }
  }

  lemma FirstToggles(tile: int)
    requires IsTile(tile)
    ensures Toggles(tile, 2, 2, tile == GBRG || tile == GRBG, 1 - if tile == BGGR || tile == GBRG then -1 else 1)
  {
  }

  // The decoder for samples clipped at limit.
  method Decode(raw: seq<int>, limit: int, rgb: array<int>, sx: int, sy: int, tile: int) returns (status: Status)
    requires sx >= 5 && sy >= 5 && |raw| >= sx * sy && rgb.Length >= 3 * sx * sy
    modifies rgb
    ensures status == InvalidColorFilter <==> !IsTile(tile)
    ensures status == InvalidColorFilter ==> rgb[..] == old(rgb[..])
    ensures status == Success ==>
              var m := Mosaic(tile, sx, sy, raw);
              && m.Ok() && |HQImage(m, limit)| <= rgb.Length
              && rgb[..|HQImage(m, limit)|] == HQImage(m, limit)
              && rgb[|HQImage(m, limit)|..] == old(rgb[|HQImage(m, limit)|..])
  {
    var b, r, width, height := 0, 0, sx, sy;
    var blue := if tile == BGGR || tile == GBRG then -1 else 1;
    var startWithGreen := tile == GBRG || tile == GRBG;
    if tile > BGGR || tile < RGGB {
      return InvalidColorFilter;
    }
    var m := Mosaic(tile, sx, sy, raw);
    hide At, HQImage, Border, ColourAt, Framed;
    ghost var e := HQImage(m, limit);
    ImageIsFramed(m, limit);
    ClearBorders(rgb, sx, sy, 2);
    FirstRow(e, sx, sy, 2, rgb[..]);
    r := r + 2 * (3 * sx) + 6 + 1;
    height := height - 4;
    width := width - 4;
    // The first inner row starts one row and one column later than in the bilinear decoder.
    blue := -blue;
    FirstToggles(tile);
    while height != 0
      invariant 0 <= height <= sy - 4
      invariant blue in {-1, 1} && Toggles(tile, 2, sy - 2 - height, startWithGreen, 1 + blue)
      invariant At(e, sx, sy, 2, rgb[..], b, r, 2, sy - 2 - height)
      invariant rgb[|e|..] == old(rgb[|e|..])
    {
      ghost var y := sy - 2 - height;
      height := height - 1;
      b, r := DecodeRow(m, limit, rgb, b, r, blue, startWithGreen, y);
      NextRow(e, sx, sy, 2, rgb[..], b, r, y);
      TogglesFlip(tile, 2, y, startWithGreen, 1 + blue);
      b := b - width;
      r := r - width * 3;
      blue := -blue;
      startWithGreen := !startWithGreen;
      b, r := b + sx, r + 3 * sx;
    }
    LastRow(e, sx, sy, 2, rgb[..], b, r);
    return Success;
  }

  // No decoded channel leaves the range of the samples.
  lemma HQBounded(m: Mosaic, limit: int, most: int, x: int, y: int, c: int)
    requires m.Ok() && m.Bounded(most) && 0 <= limit <= most && RED <= c <= BLUE
    ensures 0 <= HQPixel(m, limit, x, y, c) <= most
  {
    if Inner(m, x, y) {
      PixelInRange(m.sx, m.sy, x, y);
    }
  }

  function TwoTo(bits: nat): nat {
    if bits == 0 then 1 else 2 * TwoTo(bits - 1)
  }

  // Powers of two
  lemma {:induction false} TwoToSum(a: nat, b: nat)
    ensures TwoTo(0) == 1 && TwoTo(1) == 2 && TwoTo(a + b) == TwoTo(a) * TwoTo(b)
  {
    assert TwoTo(1) == 2;
    if a > 0 {
      TwoToSum(a - 1, b);
    }
  }

  // dc1394_bayer_HQLinear: 8 bits.
  method HQLinear(raw: seq<int>, rgb: array<int>, sx: int, sy: int, tile: int) returns (status: Status)
    requires sx >= 5 && sy >= 5 && |raw| >= sx * sy && rgb.Length >= 3 * sx * sy
    requires forall i :: 0 <= i < |raw| ==> 0 <= raw[i] <= 255
    modifies rgb
    ensures status == InvalidColorFilter <==> !IsTile(tile)
    ensures status == InvalidColorFilter ==> rgb[..] == old(rgb[..])
    ensures status == Success ==>
              var m := Mosaic(tile, sx, sy, raw);
              && m.Ok() && |HQImage(m, 255)| <= rgb.Length && rgb[..|HQImage(m, 255)|] == HQImage(m, 255)
              && rgb[|HQImage(m, 255)|..] == old(rgb[|HQImage(m, 255)|..])
  {
    status := Decode(raw, 255, rgb, sx, sy, tile);
  }

  // dc1394_bayer_HQLinear_uint16: samples of a given number of bits, as far as 1 can be
  // shifted by it in an int.
  method HQLinear16(raw: seq<int>, rgb: array<int>, sx: int, sy: int, tile: int, bits: nat) returns (status: Status)
    requires sx >= 5 && sy >= 5 && |raw| >= sx * sy && rgb.Length >= 3 * sx * sy && bits <= 30
    requires forall i :: 0 <= i < |raw| ==> 0 <= raw[i] <= 65535
    modifies rgb
    ensures status == InvalidColorFilter <==> !IsTile(tile)
    ensures status == InvalidColorFilter ==> rgb[..] == old(rgb[..])
    ensures status == Success ==>
              var m := Mosaic(tile, sx, sy, raw);
              var e := HQImage(m, TwoTo(bits) - 1);
              m.Ok() && |e| <= rgb.Length && rgb[..|e|] == e && rgb[|e|..] == old(rgb[|e|..])
  {
    status := Decode(raw, TwoTo(bits) - 1, rgb, sx, sy, tile);
  }
}
