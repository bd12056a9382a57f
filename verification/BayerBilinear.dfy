/**
 Bilinear demosaicing of 8-bit images: the pointer-walking decoder, and the
 per-pixel definition it is proved against.
 */
module BayerBilinear {
  import opened BayerPattern
  import opened BayerWalk

  // ---------------------------------------------------------------- definition

  // The part of a sample that counts towards colour c, and whether it counts.
  ghost function Part(m: Mosaic, c: int, x: int, y: int): int
    requires m.Ok() && m.Has(x, y)
  {
    if ColourAt(m.tile, x, y) == c then m.At(x, y) else 0
  }

  function Hit(tile: int, c: int, x: int, y: int): int
    requires IsTile(tile)
  {
    if ColourAt(tile, x, y) == c then 1 else 0
  }

  // The samples of colour c among the eight neighbours: their sum and their number.
  ghost function NeighbourSum(m: Mosaic, c: int, x: int, y: int): int
    requires m.Ok() && m.Has(x - 1, y - 1) && m.Has(x + 1, y + 1)
  {
    Part(m, c, x - 1, y - 1) + Part(m, c, x, y - 1) + Part(m, c, x + 1, y - 1) +
    Part(m, c, x - 1, y) + Part(m, c, x + 1, y) +
    Part(m, c, x - 1, y + 1) + Part(m, c, x, y + 1) + Part(m, c, x + 1, y + 1)
  }

  function NeighbourCount(tile: int, c: int, x: int, y: int): int
    requires IsTile(tile)
  {
    Hit(tile, c, x - 1, y - 1) + Hit(tile, c, x, y - 1) + Hit(tile, c, x + 1, y - 1) +
    Hit(tile, c, x - 1, y) + Hit(tile, c, x + 1, y) +
    Hit(tile, c, x - 1, y + 1) + Hit(tile, c, x, y + 1) + Hit(tile, c, x + 1, y + 1)
  }

  // A pixel lacks two colours: at a green one each has two neighbours, elsewhere four.
  lemma CountIsTwoOrFour(tile: int, c: int, x: int, y: int)
    requires IsTile(tile) && RED <= c <= BLUE && c != ColourAt(tile, x, y)
    ensures NeighbourCount(tile, c, x, y) == if ColourAt(tile, x, y) == GREEN then 2 else 4
  {
  }

  // A decoded channel: black on the border, the sample itself in the pixel's own
  // colour, and otherwise the rounded mean of the neighbours that have the colour.
  ghost function BilinearPixel(m: Mosaic, x: int, y: int, c: int): int
    requires m.Ok() && RED <= c <= BLUE
  {
    if InBorder(m.sx, m.sy, 1, x, y) then 0
    else if c == ColourAt(m.tile, x, y) then m.At(x, y)
    else
      CountIsTwoOrFour(m.tile, c, x, y);
      var n := NeighbourCount(m.tile, c, x, y);
      (NeighbourSum(m, c, x, y) + n / 2) / n
  }

  // The same by flat channel index.
  ghost function BilinearChannel(m: Mosaic, f: int): int
    requires m.Ok()
  {
    BilinearPixel(m, f / 3 % m.sx, f / 3 / m.sx, f % 3)
  }

  ghost function BilinearImage(m: Mosaic): (image: seq<int>)
    requires m.Ok()
    ensures |image| == 3 * m.sx * m.sy
  {
    SizeIsNat(m.sx, m.sy);
    seq(3 * m.sx * m.sy, f => BilinearChannel(m, f))
  }

  lemma AroundGreen(tile: int, x: int, y: int, own: int)
    requires IsTile(tile) && ColourAt(tile, x, y) == GREEN && own == ColourAt(tile, x + 1, y)
    ensures own in {RED, BLUE}
    ensures ColourAt(tile, x - 1, y) == own && ColourAt(tile, x, y - 1) == ColourAt(tile, x, y + 1) == RED + BLUE - own
    ensures ColourAt(tile, x - 1, y - 1) == ColourAt(tile, x + 1, y - 1) == GREEN
    ensures ColourAt(tile, x - 1, y + 1) == ColourAt(tile, x + 1, y + 1) == GREEN
  {
  }

  lemma AroundColour(tile: int, x: int, y: int, own: int)
    requires IsTile(tile) && ColourAt(tile, x, y) == own && own != GREEN
    ensures own in {RED, BLUE}
    ensures ColourAt(tile, x - 1, y) == ColourAt(tile, x + 1, y) == GREEN
    ensures ColourAt(tile, x, y - 1) == ColourAt(tile, x, y + 1) == GREEN
    ensures ColourAt(tile, x - 1, y - 1) == ColourAt(tile, x + 1, y - 1) == RED + BLUE - own
    ensures ColourAt(tile, x - 1, y + 1) == ColourAt(tile, x + 1, y + 1) == RED + BLUE - own
  {
  }

  // What the definition says at a green pixel: the pair beside it and the pair above and below.
  lemma AtGreen(m: Mosaic, x: int, y: int, own: int)
    requires m.Ok() && !InBorder(m.sx, m.sy, 1, x, y)
    requires ColourAt(m.tile, x, y) == GREEN && own == ColourAt(m.tile, x + 1, y)
    ensures own in {RED, BLUE}
    ensures BilinearPixel(m, x, y, GREEN) == m.At(x, y)
    ensures BilinearPixel(m, x, y, own) == (m.At(x - 1, y) + m.At(x + 1, y) + 1) / 2
    ensures BilinearPixel(m, x, y, RED + BLUE - own) == (m.At(x, y - 1) + m.At(x, y + 1) + 1) / 2
  {
    hide ColourAt, Mosaic.At;
    AroundGreen(m.tile, x, y, own);
  }

  // What it says elsewhere: the four edge neighbours and the four corner neighbours.
  lemma AtColour(m: Mosaic, x: int, y: int, own: int)
    requires m.Ok() && !InBorder(m.sx, m.sy, 1, x, y)
    requires own == ColourAt(m.tile, x, y) && own != GREEN
    ensures BilinearPixel(m, x, y, own) == m.At(x, y)
    ensures BilinearPixel(m, x, y, GREEN) ==
            (m.At(x, y - 1) + m.At(x - 1, y) + m.At(x + 1, y) + m.At(x, y + 1) + 2) / 4
    ensures BilinearPixel(m, x, y, RED + BLUE - own) ==
            (m.At(x - 1, y - 1) + m.At(x + 1, y - 1) + m.At(x - 1, y + 1) + m.At(x + 1, y + 1) + 2) / 4
  {
    hide ColourAt, Mosaic.At;
    AroundColour(m.tile, x, y, own);
  }

  lemma SampleBounded(m: Mosaic, limit: int)
    requires m.Ok() && m.Bounded(limit)
    ensures forall x, y :: m.Has(x, y) ==> 0 <= m.At(x, y) <= limit
  {
    forall x, y | m.Has(x, y) ensures 0 <= m.At(x, y) <= limit {
      PixelInRange(m.sx, m.sy, x, y);
    }
  }

  // A mean never leaves the range of the samples.
  lemma BilinearBounded(m: Mosaic, limit: int, x: int, y: int, c: int)
    requires m.Ok() && m.Bounded(limit) && RED <= c <= BLUE && 0 <= limit
    ensures 0 <= BilinearPixel(m, x, y, c) <= limit
  {
    hide NeighbourSum, NeighbourCount;
    if !InBorder(m.sx, m.sy, 1, x, y) {
      SampleBounded(m, limit);
      if ColourAt(m.tile, x, y) == GREEN {
        AtGreen(m, x, y, ColourAt(m.tile, x + 1, y));
      } else {
        AtColour(m, x, y, ColourAt(m.tile, x, y));
      }
    }
  }

  // ---------------------------------------------------------------- the decoder

  // Conversion to an unsigned byte.
  function Byte(t: int): byte {
    t % 256
  }

  lemma ChannelOf(m: Mosaic, x: int, y: int, c: int)
    requires m.Ok() && m.Has(x, y) && RED <= c <= BLUE
    ensures BilinearChannel(m, 3 * Pixel(m.sx, x, y) + c) == BilinearPixel(m, x, y, c)
  {
    hide BilinearPixel, Pixel;
    FlatIndex(m.sx, x, y, c);
  }

  lemma ImageAt(m: Mosaic, f: int)
    requires m.Ok() && 0 <= f < |BilinearImage(m)|
    ensures BilinearImage(m)[f] == BilinearChannel(m, f)
  {
  }

  // The three channels of a pixel in the flat expected image.
  lemma Expect(m: Mosaic, x: int, y: int)
    requires m.Ok() && m.Has(x, y)
    ensures var p := Pixel(m.sx, x, y);
            && 0 <= 3 * p && 3 * p + 3 <= |BilinearImage(m)|
            && BilinearImage(m)[3 * p + RED] == BilinearPixel(m, x, y, RED)
            && BilinearImage(m)[3 * p + GREEN] == BilinearPixel(m, x, y, GREEN)
            && BilinearImage(m)[3 * p + BLUE] == BilinearPixel(m, x, y, BLUE)
  {
    var p := Pixel(m.sx, x, y);
    PixelInRange(m.sx, m.sy, x, y);
    assert 0 <= 3 * p && 3 * p + 3 <= |BilinearImage(m)|;
    hide BilinearImage, BilinearChannel, BilinearPixel, Pixel;
    ImageAt(m, 3 * p + RED);
    ImageAt(m, 3 * p + GREEN);
    ImageAt(m, 3 * p + BLUE);
    ChannelOf(m, x, y, RED);
    ChannelOf(m, x, y, GREEN);
    ChannelOf(m, x, y, BLUE);
  }

  // A pixel's neighbours seen from the decoder's raw pointer, one row and one column before it.
  lemma Window(m: Mosaic, x: int, y: int, b: int)
    requires m.Ok() && !InBorder(m.sx, m.sy, 1, x, y) && b + m.sx + 1 == Pixel(m.sx, x, y)
    ensures 0 <= b && b + m.sx * 2 + 2 < |m.raw|
    ensures m.raw[b] == m.At(x - 1, y - 1) && m.raw[b + 1] == m.At(x, y - 1) && m.raw[b + 2] == m.At(x + 1, y - 1)
    ensures m.raw[b + m.sx] == m.At(x - 1, y) && m.raw[b + m.sx + 1] == m.At(x, y) && m.raw[b + m.sx + 2] == m.At(x + 1, y)
    ensures m.raw[b + m.sx * 2] == m.At(x - 1, y + 1)
    ensures m.raw[b + m.sx * 2 + 1] == m.At(x, y + 1) && m.raw[b + m.sx * 2 + 2] == m.At(x + 1, y + 1)
  {
    Neighbour(m.sx, m.sy, x, y, -1, -1);
    Neighbour(m.sx, m.sy, x, y, 0, -1);
    Neighbour(m.sx, m.sy, x, y, 1, -1);
    Neighbour(m.sx, m.sy, x, y, -1, 0);
    Neighbour(m.sx, m.sy, x, y, 0, 0);
    Neighbour(m.sx, m.sy, x, y, 1, 0);
    Neighbour(m.sx, m.sy, x, y, -1, 1);
    Neighbour(m.sx, m.sy, x, y, 0, 1);
    Neighbour(m.sx, m.sy, x, y, 1, 1);
  }

  // The three channels of a pixel are where the output pointer says.
  ghost predicate Stored(before: seq<int>, after: seq<int>, m: Mosaic, x: int, y: int, r: int)
    requires m.Ok()
  {
    && |after| == |before| && 1 <= r && r + 1 < |after|
    && after[r - 1] == BilinearPixel(m, x, y, RED)
    && after[r] == BilinearPixel(m, x, y, GREEN)
    && after[r + 1] == BilinearPixel(m, x, y, BLUE)
    && forall f :: 0 <= f < |after| && !(r - 1 <= f <= r + 1) ==> after[f] == before[f]
  }

  // The stores at a green pixel.
  method StoreGreen(m: Mosaic, rgb: array<int>, b: int, r: int, blue: int, ghost x: int, ghost y: int)
    requires m.Ok() && m.Bounded(255) && !InBorder(m.sx, m.sy, 1, x, y) && 1 <= r && r + 1 < rgb.Length
    requires b + m.sx + 1 == Pixel(m.sx, x, y)
    requires ColourAt(m.tile, x, y) == GREEN && blue in {-1, 1} && ColourAt(m.tile, x + 1, y) == 1 + blue
    modifies rgb
    ensures Stored(old(rgb[..]), rgb[..], m, x, y, r)
  {
    hide BilinearPixel, ColourAt, Pixel, Mosaic.Bounded;
    Window(m, x, y, b);
    AtGreen(m, x, y, 1 + blue);
    SampleBounded(m, 255);
    var step := m.sx;
    var t0 := (m.raw[b + 1] + m.raw[b + step * 2 + 1] + 1) / 2;
    var t1 := (m.raw[b + step] + m.raw[b + step + 2] + 1) / 2;
    rgb[r - blue] := Byte(t0);
    rgb[r] := m.raw[b + step + 1];
    rgb[r + blue] := Byte(t1);
  }

  // The stores at a red or blue pixel.
  method StoreColour(m: Mosaic, rgb: array<int>, b: int, r: int, blue: int, ghost x: int, ghost y: int)
    requires m.Ok() && m.Bounded(255) && !InBorder(m.sx, m.sy, 1, x, y) && 1 <= r && r + 1 < rgb.Length
    requires b + m.sx + 1 == Pixel(m.sx, x, y)
    requires blue in {-1, 1} && ColourAt(m.tile, x, y) == 1 + blue
    modifies rgb
    ensures Stored(old(rgb[..]), rgb[..], m, x, y, r)
  {
    hide BilinearPixel, ColourAt, Pixel, Mosaic.Bounded;
    Window(m, x, y, b);
    AtColour(m, x, y, 1 + blue);
    SampleBounded(m, 255);
    var step := m.sx;
    var t0 := (m.raw[b] + m.raw[b + 2] + m.raw[b + step * 2] + m.raw[b + step * 2 + 2] + 2) / 4;
    var t1 := (m.raw[b + 1] + m.raw[b + step] + m.raw[b + step + 2] + m.raw[b + step * 2 + 1] + 2) / 4;
    rgb[r - blue] := Byte(t0);
    rgb[r] := Byte(t1);
    rgb[r + blue] := m.raw[b + step + 1];
  }

  lemma StoredIsWritten(before: seq<int>, after: seq<int>, m: Mosaic, x: int, y: int, r: int)
    requires m.Ok() && m.Has(x, y) && Stored(before, after, m, x, y, r) && r == 3 * Pixel(m.sx, x, y) + 1
    ensures Written(before, after, BilinearImage(m), r)
  {
    hide BilinearImage, BilinearPixel;
    Expect(m, x, y);
  }

  method PutGreen(m: Mosaic, rgb: array<int>, b: int, r: int, blue: int, ghost x: int, ghost y: int)
    requires m.Ok() && m.Bounded(255) && !InBorder(m.sx, m.sy, 1, x, y)
    requires At(BilinearImage(m), m.sx, m.sy, 1, rgb[..], b, r, x, y)
    requires ColourAt(m.tile, x, y) == GREEN && blue in {-1, 1} && ColourAt(m.tile, x + 1, y) == 1 + blue
    modifies rgb
    ensures At(BilinearImage(m), m.sx, m.sy, 1, rgb[..], b + 1, r + 3, x + 1, y)
    ensures |BilinearImage(m)| <= rgb.Length && rgb[|BilinearImage(m)|..] == old(rgb[|BilinearImage(m)|..])
  {
    hide BilinearImage;
    PlaceInRange(BilinearImage(m), m.sx, m.sy, 1, rgb[..], b, r, x, y);
    StoreGreen(m, rgb, b, r, blue, x, y);
    StoredIsWritten(old(rgb[..]), rgb[..], m, x, y, r);
    Advance(BilinearImage(m), m.sx, m.sy, 1, old(rgb[..]), rgb[..], b, r, x, y);
  }

  method PutColour(m: Mosaic, rgb: array<int>, b: int, r: int, blue: int, ghost x: int, ghost y: int)
    requires m.Ok() && m.Bounded(255) && !InBorder(m.sx, m.sy, 1, x, y)
    requires At(BilinearImage(m), m.sx, m.sy, 1, rgb[..], b, r, x, y)
    requires blue in {-1, 1} && ColourAt(m.tile, x, y) == 1 + blue
    modifies rgb
    ensures At(BilinearImage(m), m.sx, m.sy, 1, rgb[..], b + 1, r + 3, x + 1, y)
    ensures |BilinearImage(m)| <= rgb.Length && rgb[|BilinearImage(m)|..] == old(rgb[|BilinearImage(m)|..])
  {
    hide BilinearImage;
    PlaceInRange(BilinearImage(m), m.sx, m.sy, 1, rgb[..], b, r, x, y);
    StoreColour(m, rgb, b, r, blue, x, y);
    StoredIsWritten(old(rgb[..]), rgb[..], m, x, y, r);
    Advance(BilinearImage(m), m.sx, m.sy, 1, old(rgb[..]), rgb[..], b, r, x, y);
  }

  // One row of the decoder.  The first pixel may be green; then come pairs of a red or
  // blue pixel and a green one; and a last single pixel if one is left.
  method DecodeRow(m: Mosaic, rgb: array<int>, b0: int, r0: int, blue: int, startWithGreen: bool, ghost y: int)
    returns (b: int, r: int)
    requires m.Ok() && m.Bounded(255) && m.sx >= 3 && 1 <= y < m.sy - 1 && |BilinearImage(m)| <= rgb.Length
    requires At(BilinearImage(m), m.sx, m.sy, 1, rgb[..], b0, r0, 1, y)
    requires blue in {-1, 1} && Toggles(m.tile, 1, y, startWithGreen, 1 + blue)
    modifies rgb
    ensures At(BilinearImage(m), m.sx, m.sy, 1, rgb[..], b, r, m.sx - 1, y)
    ensures b == b0 + m.sx - 2 && r == r0 + 3 * (m.sx - 2)
    ensures rgb[|BilinearImage(m)|..] == old(rgb[|BilinearImage(m)|..])
  {
    hide At, BilinearImage;
    ghost var e := BilinearImage(m);
    b, r := b0, r0;
    ghost var x := 1;
    var bayerEnd := b + (m.sx - 2);
    if startWithGreen {
      RowAlternates(m.tile, 1, x, y, startWithGreen, 1 + blue);
      RowAlternates(m.tile, 1, x + 1, y, startWithGreen, 1 + blue);
      PutGreen(m, rgb, b, r, blue, x, y);
      b, r, x := b + 1, r + 3, x + 1;
    }
    while b <= bayerEnd - 2
      invariant 1 <= x <= m.sx - 1 && (x % 2 == 1 <==> !startWithGreen)
      invariant b == b0 + x - 1 && r == r0 + 3 * (x - 1)
      invariant At(e, m.sx, m.sy, 1, rgb[..], b, r, x, y)
      invariant rgb[|e|..] == old(rgb[|e|..])
    {
      RowAlternates(m.tile, 1, x, y, startWithGreen, 1 + blue);
      RowAlternates(m.tile, 1, x + 1, y, startWithGreen, 1 + blue);
      RowAlternates(m.tile, 1, x + 2, y, startWithGreen, 1 + blue);
      PutColour(m, rgb, b, r, blue, x, y);
      PutGreen(m, rgb, b + 1, r + 3, blue, x + 1, y);
      b, r, x := b + 2, r + 6, x + 2;
    }
    if b < bayerEnd {
      RowAlternates(m.tile, 1, x, y, startWithGreen, 1 + blue);
      PutColour(m, rgb, b, r, blue, x, y);
      b, r, x := b + 1, r + 3, x + 1;
    }
  }

  lemma ImageIsFramed(m: Mosaic)
    requires m.Ok() && m.sx >= 3 && m.sy >= 3
    ensures Framed(BilinearImage(m), m.sx, m.sy, 1)
  {
    hide BilinearImage;
    forall f | 0 <= f < |BilinearImage(m)| && Border(m.sx, m.sy, 1, f) ensures BilinearImage(m)[f] == 0 {
      ImageAt(m, f);
    }
  }

  // dc1394_bayer_Bilinear
  method Bilinear(raw: seq<int>, rgb: array<int>, sx: int, sy: int, tile: int) returns (status: Status)
    requires sx >= 3 && sy >= 3 && |raw| >= sx * sy && rgb.Length >= 3 * sx * sy
    requires forall i :: 0 <= i < |raw| ==> 0 <= raw[i] <= 255
    modifies rgb
    ensures status == InvalidColorFilter <==> !IsTile(tile)
    ensures status == InvalidColorFilter ==> rgb[..] == old(rgb[..])
    ensures status == Success ==>
              var m := Mosaic(tile, sx, sy, raw);
              && m.Ok() && |BilinearImage(m)| <= rgb.Length
              && rgb[..|BilinearImage(m)|] == BilinearImage(m)
              && rgb[|BilinearImage(m)|..] == old(rgb[|BilinearImage(m)|..])
  {
    var b, r, width, height := 0, 0, sx, sy;
    var blue := if tile == BGGR || tile == GBRG then -1 else 1;
    var startWithGreen := tile == GBRG || tile == GRBG;
    if tile > BGGR || tile < RGGB {
      return InvalidColorFilter;
    }
    var m := Mosaic(tile, sx, sy, raw);
    hide At, BilinearImage, Border, ColourAt, Framed;
    ghost var e := BilinearImage(m);
    ImageIsFramed(m);
    ClearBorders(rgb, sx, sy, 1);
    FirstRow(e, sx, sy, 1, rgb[..]);
    r := r + 3 * sx + 3 + 1;
    height := height - 2;
    width := width - 2;
    FirstToggles(tile);
    while height != 0
      invariant 0 <= height <= sy - 2
      invariant blue in {-1, 1} && Toggles(tile, 1, sy - 1 - height, startWithGreen, 1 + blue)
      invariant At(e, sx, sy, 1, rgb[..], b, r, 1, sy - 1 - height)
      invariant rgb[|e|..] == old(rgb[|e|..])
    {
      ghost var y := sy - 1 - height;
      height := height - 1;
      b, r := DecodeRow(m, rgb, b, r, blue, startWithGreen, y);
      NextRow(e, sx, sy, 1, rgb[..], b, r, y);
      TogglesFlip(tile, 1, y, startWithGreen, 1 + blue);
      b := b - width;
      r := r - width * 3;
      blue := -blue;
      startWithGreen := !startWithGreen;
      b, r := b + sx, r + 3 * sx;
    }
    LastRow(e, sx, sy, 1, rgb[..], b, r);
    return Success;
  }

  lemma FirstToggles(tile: int)
    requires IsTile(tile)
    ensures Toggles(tile, 1, 1, tile == GBRG || tile == GRBG, 1 + if tile == BGGR || tile == GBRG then -1 else 1)
  {
  }

  // A grey plane, brightening evenly across and down, is reproduced exactly inside the border.
  lemma PlaneIsKept(m: Mosaic, level: int, across: int, down: int, x: int, y: int, c: int)
    requires m.Ok() && m.IsPlane(level, across, down) && !InBorder(m.sx, m.sy, 1, x, y) && RED <= c <= BLUE
    ensures BilinearPixel(m, x, y, c) == m.At(x, y)
  {
    hide NeighbourSum, NeighbourCount, Mosaic.At;
    m.PlaneStep(level, across, down, x, y, -1, 0);
    m.PlaneStep(level, across, down, x, y, 1, 0);
    m.PlaneStep(level, across, down, x, y, 0, -1);
    m.PlaneStep(level, across, down, x, y, 0, 1);
    m.PlaneStep(level, across, down, x, y, -1, -1);
    m.PlaneStep(level, across, down, x, y, 1, -1);
    m.PlaneStep(level, across, down, x, y, -1, 1);
    m.PlaneStep(level, across, down, x, y, 1, 1);
    if ColourAt(m.tile, x, y) == GREEN {
      AtGreen(m, x, y, ColourAt(m.tile, x + 1, y));
    } else {
      AtColour(m, x, y, ColourAt(m.tile, x, y));
    }
  }
}
