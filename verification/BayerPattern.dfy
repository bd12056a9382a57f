/**
 Colour filter mosaics and the layout of the interleaved image made from them:
 which colour a pixel's sample has, where its three channels are stored, and
 which pixels belong to a border of a given width.
 */
module BayerPattern {

  type byte = x: int | 0 <= x < 256

  // The filter numbers; anything else is refused.
  const RGGB := 512
  const GBRG := 513
  const GRBG := 514
  const BGGR := 515

  datatype Status = Success | InvalidColorFilter

  predicate IsTile(tile: int) {
    RGGB <= tile <= BGGR
  }

  // Channels in storage order.
  const RED := 0
  const GREEN := 1
  const BLUE := 2

  // The colour of the sample at column x and row y, read off the 2x2 tile.
  function ColourAt(tile: int, x: int, y: int): (c: int)
    requires IsTile(tile)
    ensures RED <= c <= BLUE
  {
    var left := x % 2 == 0;
    var top := y % 2 == 0;
    if tile == RGGB then (if left && top then RED else if !left && !top then BLUE else GREEN)
    else if tile == GBRG then (if !left && top then BLUE else if left && !top then RED else GREEN)
    else if tile == GRBG then (if !left && top then RED else if left && !top then BLUE else GREEN)
    else (if left && top then BLUE else if !left && !top then RED else GREEN)
  }

  // The letters of a tile, line by line
  function Letters(tile: int): (cs: seq<int>)
    ensures |cs| == 4
  {
    if tile == 512 then [0, 1, 1, 2] else if tile == 513 then [1, 2, 0, 1]
    else if tile == 514 then [1, 0, 2, 1] else [2, 1, 1, 0]
  }

  // The tile is repeated all over the image.
  lemma TileIsRepeated(tile: int, x: int, y: int)
    requires IsTile(tile)
    ensures ColourAt(tile, x, y) == Letters(tile)[2 * (y % 2) + x % 2]
    ensures 512 <= tile <= 515
  {
  }

  // The flat index of a pixel and of its channels.
  function Pixel(sx: int, x: int, y: int): int {
    y * sx + x
  }

  ghost predicate InBorder(sx: int, sy: int, w: int, x: int, y: int) {
    x < w || x >= sx - w || y < w || y >= sy - w
  }

  // The same for a flat channel index.
  ghost predicate Border(sx: int, sy: int, w: int, f: int)
    requires sx > 0
  {
    InBorder(sx, sy, w, f / 3 % sx, f / 3 / sx)
  }

  lemma MulMonotone(a: int, b: int, c: int)
    requires a <= b && c >= 0
    ensures a * c <= b * c
  {
  }

  lemma SizeIsNat(sx: int, sy: int)
    requires sx >= 0 && sy >= 0
    ensures 3 * sx * sy >= 0
  {
  }

  // Quotient and remainder are unique.
  lemma Unique(d: int, q: int, r: int, y: int, x: int)
    requires q * d + r == y * d + x && 0 <= r < d && 0 <= x < d
    ensures q == y && r == x
  {
    assert (q - y) * d == x - r && (y - q) * d == r - x;
    if q > y {
      MulMonotone(1, q - y, d);
      assert false;
    } else if q < y {
      MulMonotone(1, y - q, d);
      assert false;
    }
  }

  lemma DivideRow(sx: int, x: int, y: int)
    requires 0 <= x < sx
    ensures (y * sx + x) / sx == y && (y * sx + x) % sx == x
  {
    var a := y * sx + x;
    assert a / sx * sx + a % sx == a;
    Unique(sx, a / sx, a % sx, y, x);
  }

  // Where channel c of pixel (x, y) is, and back.
  lemma FlatIndex(sx: int, x: int, y: int, c: int)
    requires 0 <= x < sx && 0 <= c < 3
    ensures var f := 3 * Pixel(sx, x, y) + c;
            f / 3 == Pixel(sx, x, y) && f % 3 == c && f / 3 % sx == x && f / 3 / sx == y
  {
    DivideRow(sx, x, y);
  }

  lemma PixelInRange(sx: int, sy: int, x: int, y: int)
    requires 0 <= x < sx && 0 <= y < sy
    ensures 0 <= Pixel(sx, x, y) < sx * sy
  {
    assert 0 <= y * sx;
    assert (y + 1) * sx <= sy * sx;
  }

  // The channels between the left border of one row and the right border of the same row.
  lemma InsideRow(sx: int, sy: int, w: int, y: int, f: int)
    requires 0 < w && sx >= 2 * w && w <= y < sy - w
    requires 3 * (y * sx + w) <= f < 3 * (y * sx + sx - w)
    ensures !Border(sx, sy, w, f)
  {
    DivideRow(sx, f / 3 - y * sx, y);
  }

  // The channels from the right border of row y - 1 to the left border of row y.
  lemma BetweenRows(sx: int, sy: int, w: int, y: int, f: int)
    requires 0 < w && sx >= 2 * w && w <= y <= sy - w
    requires 3 * (y * sx - w) <= f < 3 * (y * sx + w)
    ensures Border(sx, sy, w, f)
  {
    var p := f / 3;
    if p < y * sx {
      assert (y - 1) * sx == y * sx - sx;
      DivideRow(sx, p - (y - 1) * sx, y - 1);
    } else {
      DivideRow(sx, p - y * sx, y);
    }
  }

  lemma TopRows(sx: int, sy: int, w: int, f: int)
    requires 0 < w && sx >= 2 * w && 0 <= f < 3 * sx * w
    ensures Border(sx, sy, w, f)
  {
    var y := f / 3 / sx;
    assert y * sx <= f / 3 < w * sx;
    if y >= w {
      MulMonotone(w, y, sx);
      assert false;
    }
  }

  lemma BottomRows(sx: int, sy: int, w: int, f: int)
    requires 0 < w && sx >= 2 * w && f >= 3 * sx * (sy - w)
    ensures Border(sx, sy, w, f)
  {
    var y := f / 3 / sx;
    assert f / 3 < (y + 1) * sx && f / 3 >= (sy - w) * sx;
    if y < sy - w {
      MulMonotone(y + 1, sy - w, sx);
      assert false;
    }
  }

  // The two whole bands at the top and the bottom.
  method ClearBands(rgb: array<int>, sx: int, sy: int, w: int)
    requires 0 < w && sx >= 2 * w && sy >= 2 * w && rgb.Length >= 3 * sx * sy
    modifies rgb
    ensures forall f :: 0 <= f < 3 * sx * w || 3 * sx * (sy - w) <= f < 3 * sx * sy ==> 0 <= f < rgb.Length && rgb[f] == 0
    ensures forall f :: 0 <= f < rgb.Length && !(f < 3 * sx * w || 3 * sx * (sy - w) <= f < 3 * sx * sy) ==>
              rgb[f] == old(rgb[f])
  {
    ghost var n, band := 3 * sx * sy, 3 * sx * w;
    Bands(sx, sy, w);
    var i := 3 * sx * w - 1;
    var j := 3 * sx * sy - 1;
    while i >= 0
      invariant -1 <= i < band && j - i == n - band
      invariant forall f :: i < f < band || j < f < n ==> rgb[f] == 0
      invariant forall f :: 0 <= f < rgb.Length && !(i < f < band || j < f < n) ==> rgb[f] == old(rgb[f])
    {
      rgb[i] := 0;
      rgb[j] := 0;
      i := i - 1;
      j := j - 1;
    }
  }

  lemma Bands(sx: int, sy: int, w: int)
    requires 0 < w && sx >= 2 * w && sy >= 2 * w
    ensures 0 <= 3 * sx * w <= 3 * sx * sy - 3 * sx * w == 3 * sx * (sy - w)
  {
    MulMonotone(2 * w, sy, sx);
    assert sy * sx - w * sx == (sy - w) * sx;
  }

  // The gap that ends at channel 3 * (y * sx + w) - 1, cleared from its end.
  method ClearGap(rgb: array<int>, sx: int, sy: int, w: int, ghost y: int, end: int) returns (i: int)
    requires 0 < w && sx >= 2 * w && w <= y <= sy - w && rgb.Length >= 3 * sx * sy
    requires end == 3 * (y * sx + w) - 1
    modifies rgb
    ensures i == 3 * (y * sx - w) - 1 && -1 <= i && end < rgb.Length
    ensures forall f :: i < f <= end ==> rgb[f] == 0
    ensures forall f :: 0 <= f < rgb.Length && !(i < f <= end) ==> rgb[f] == old(rgb[f])
  {
    GapInRange(sx, sy, w, y);
    i := end;
    var j := 6 * w;
    while j > 0
      invariant 0 <= j <= 6 * w && i == end - (6 * w - j)
      invariant forall f :: i < f <= end ==> rgb[f] == 0
      invariant forall f :: 0 <= f < rgb.Length && !(i < f <= end) ==> rgb[f] == old(rgb[f])
    {
      rgb[i] := 0;
      i := i - 1;
      j := j - 1;
    }
  }

  lemma GapInRange(sx: int, sy: int, w: int, y: int)
    requires 0 < w && sx >= 2 * w && w <= y <= sy - w
    ensures 0 <= y * sx - w && y * sx + w <= sx * sy
    ensures 0 <= 3 * (y * sx + w) - 1 < 3 * sx * sy
  {
    MulMonotone(1, y, sx);
    MulMonotone(y + 1, sy, sx);
  }

  // The last channel of the gap before row y.
  ghost function GapEnd(sx: int, w: int, y: int): int {
    3 * (y * sx + w) - 1
  }

  // One round of the second loop: clear a gap, then step over the row before it.
  method ClearGapAndStep(rgb: array<int>, sx: int, sy: int, w: int, ghost y: int, end: int) returns (i: int)
    requires 0 < w && sx >= 2 * w && w <= y <= sy - w && rgb.Length >= 3 * sx * sy
    requires end == GapEnd(sx, w, y)
    modifies rgb
    ensures i == GapEnd(sx, w, y - 1) && -1 <= i <= end < 3 * sx * sy
    ensures forall f :: i < f <= end && f >= 3 * sx * w && Border(sx, sy, w, f) ==> rgb[f] == 0
    ensures forall f :: 0 <= f < rgb.Length && !(i < f <= end && Border(sx, sy, w, f)) ==> rgb[f] == old(rgb[f])
    ensures forall f :: 0 <= f < rgb.Length ==> rgb[f] == old(rgb[f]) || rgb[f] == 0
  {
    hide Border;
    GapInRange(sx, sy, w, y);
    GapsAreBorder(sx, sy, w, y);
    var start := ClearGap(rgb, sx, sy, w, y, end);
    i := start - (sx - 2 * w) * 3;
    MulMonotone(0, y - 1, sx);
  }

  // ClearBorders: a border of width w becomes black and nothing else changes.
  method ClearBorders(rgb: array<int>, sx: int, sy: int, w: int)
    requires 0 < w && sx >= 2 * w && sy >= 2 * w && rgb.Length >= 3 * sx * sy
    modifies rgb
    ensures forall f :: 0 <= f < 3 * sx * sy && Border(sx, sy, w, f) ==> rgb[f] == 0
    ensures forall f :: 0 <= f < rgb.Length && !(f < 3 * sx * sy && Border(sx, sy, w, f)) ==> rgb[f] == old(rgb[f])
  {
    hide Border, GapEnd;
    ghost var n, band := 3 * sx * sy, 3 * sx * w;
    ghost var y := sy - w;
    Bands(sx, sy, w);
    FirstGap(sx, sy, w);
    BandsAreBorder(sx, sy, w);
    ClearBands(rgb, sx, sy, w);
    var low := sx * (w - 1) * 3 - 1 + w * 3;
    var i := low + sx * (sy - w * 2 + 1) * 3;
    while i > low
      invariant w - 1 <= y <= sy - w && -1 <= i == GapEnd(sx, w, y)
      invariant forall f :: 0 <= f < band ==> rgb[f] == 0
      invariant forall f :: i < f < n && Border(sx, sy, w, f) ==> rgb[f] == 0
      invariant forall f :: 0 <= f < rgb.Length && !(f < n && Border(sx, sy, w, f)) ==> rgb[f] == old(rgb[f])
      decreases y
    {
      i := ClearGapAndStep(rgb, sx, sy, w, y, i);
      y := y - 1;
    }
    assert i <= low < band;
  }

  lemma FirstGap(sx: int, sy: int, w: int)
    requires 0 < w && sx >= 2 * w
    requires sy >= 2 * w
    ensures sx * (w - 1) * 3 - 1 + w * 3 + sx * (sy - w * 2 + 1) * 3 == GapEnd(sx, w, sy - w) >= -1
    ensures sx * (w - 1) * 3 - 1 + w * 3 == GapEnd(sx, w, w - 1) < 3 * sx * w
  {
    assert sx * (w - 1) + sx * (sy - w * 2 + 1) == sx * (sy - w);
    MulMonotone(0, sy - w, sx);
  }

  lemma BandsAreBorder(sx: int, sy: int, w: int)
    requires 0 < w && sx >= 2 * w && sy >= 2 * w
    ensures forall f :: 0 <= f < 3 * sx * w || f >= 3 * sx * (sy - w) ==> Border(sx, sy, w, f)
  {
    forall f | 0 <= f < 3 * sx * w || f >= 3 * sx * (sy - w) ensures Border(sx, sy, w, f) {
      if 0 <= f < 3 * sx * w {
        TopRows(sx, sy, w, f);
      } else {
        BottomRows(sx, sy, w, f);
      }
    }
  }

  // A gap lies in the border, and up to the gap before it there is nothing else that does.
  lemma GapsAreBorder(sx: int, sy: int, w: int, y: int)
    requires 0 < w && sx >= 2 * w && w <= y <= sy - w
    ensures forall f :: 3 * (y * sx - w) <= f < 3 * (y * sx + w) ==> Border(sx, sy, w, f)
    ensures forall f :: 3 * ((y - 1) * sx + w) <= f < 3 * (y * sx - w) && f >= 3 * sx * w ==> !Border(sx, sy, w, f)
    ensures 3 * (y * sx - w) - 1 - (sx - 2 * w) * 3 == 3 * ((y - 1) * sx + w) - 1
  {
    forall f | 3 * (y * sx - w) <= f < 3 * (y * sx + w) ensures Border(sx, sy, w, f) {
      BetweenRows(sx, sy, w, y, f);
    }
    assert (y - 1) * sx + sx == y * sx;
    if y == w {
      assert 3 * (y * sx - w) <= 3 * sx * w;
    } else {
      forall f | 3 * ((y - 1) * sx + w) <= f < 3 * (y * sx - w) ensures !Border(sx, sy, w, f) {
        InsideRow(sx, sy, w, y - 1, f);
      }
    }
  }

  // ---------------------------------------------------------------- progress of a decoder

  // A raw image: sx columns, sy rows, one sample a pixel.
  datatype Mosaic = Mosaic(tile: int, sx: int, sy: int, raw: seq<int>) {
    ghost predicate Ok() {
      IsTile(tile) && sx > 0 && sy > 0 && |raw| >= sx * sy
    }

    ghost predicate Has(x: int, y: int) {
      0 <= x < sx && 0 <= y < sy
    }

    // The raw sample of a pixel.
    ghost function At(x: int, y: int): int
      requires Ok() && Has(x, y)
    {
      PixelInRange(sx, sy, x, y);
      raw[Pixel(sx, x, y)]
    }

    // A grey image whose brightness is a plane: a constant image is one.
    ghost predicate IsPlane(level: int, across: int, down: int)
      requires Ok()
    {
      forall x, y :: Has(x, y) ==> At(x, y) == level + x * across + y * down
    }

    lemma PlaneStep(level: int, across: int, down: int, x: int, y: int, dx: int, dy: int)
      requires Ok() && IsPlane(level, across, down) && Has(x, y) && Has(x + dx, y + dy)
      ensures At(x + dx, y + dy) == At(x, y) + dx * across + dy * down
    {
    }

    predicate Bounded(limit: int) {
      forall i :: 0 <= i < |raw| ==> 0 <= raw[i] <= limit
    }
  }

  // A neighbour's index from the pixel's own, and that it lies inside the image.
  lemma Neighbour(sx: int, sy: int, x: int, y: int, dx: int, dy: int)
    requires 0 <= x + dx < sx && 0 <= y + dy < sy
    ensures Pixel(sx, x + dx, y + dy) == Pixel(sx, x, y) + dy * sx + dx
    ensures 0 <= Pixel(sx, x + dx, y + dy) < sx * sy
  {
    PixelInRange(sx, sy, x + dx, y + dy);
  }

  // The row toggles: whether the first inner pixel of a row is green, and which
  // channel the other samples of the row belong to.
  ghost predicate Toggles(tile: int, first: int, y: int, startWithGreen: bool, own: int)
    requires IsTile(tile)
  {
    && (startWithGreen <==> ColourAt(tile, first, y) == GREEN)
    && own in {RED, BLUE}
    && (own == ColourAt(tile, first, y) || own == ColourAt(tile, first + 1, y))
  }

  // From one row to the next both toggles flip.
  lemma TogglesFlip(tile: int, first: int, y: int, startWithGreen: bool, own: int)
    requires IsTile(tile) && Toggles(tile, first, y, startWithGreen, own)
    ensures Toggles(tile, first, y + 1, !startWithGreen, RED + BLUE - own)
  {
  }

  // Within a row green pixels and pixels of the row's own colour alternate.
  lemma RowAlternates(tile: int, first: int, x: int, y: int, startWithGreen: bool, own: int)
    requires IsTile(tile) && Toggles(tile, first, y, startWithGreen, own)
    ensures ColourAt(tile, x, y) == if ((x - first) % 2 == 0) == startWithGreen then GREEN else own
  {
  }
}
