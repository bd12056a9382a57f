/**
 Walking over an image row by row: a decoder with a border of width w keeps a raw
 pointer and an output pointer in step with the pixel it is at, and everything
 behind it agrees with the expected image.
 */
module BayerWalk {
  import opened BayerPattern

  // An expected image, black on its border.
  ghost predicate Framed(e: seq<int>, sx: int, sy: int, w: int) {
    && 0 < w && sx > 2 * w && sy > 2 * w && |e| == 3 * sx * sy
    && forall f :: 0 <= f < |e| && Border(sx, sy, w, f) ==> e[f] == 0
  }

  // Pixels before p are finished, and what is left of the border is black.
  ghost predicate DoneTo(rgb: seq<int>, expected: seq<int>, sx: int, sy: int, w: int, p: int)
    requires sx > 0
  {
    && |expected| <= |rgb| && 0 <= 3 * p <= |expected|
    && (forall f :: 0 <= f < 3 * p ==> rgb[f] == expected[f])
    && (forall f :: 3 * p <= f < |expected| && Border(sx, sy, w, f) ==> rgb[f] == 0)
  }

  // Storing the three channels of the next pixel.
  lemma StorePixel(before: seq<int>, after: seq<int>, expected: seq<int>, sx: int, sy: int, w: int, p: int)
    requires sx > 0 && DoneTo(before, expected, sx, sy, w, p) && 3 * p + 3 <= |expected|
    requires |after| == |before|
    requires forall f :: 0 <= f < |before| && !(3 * p <= f < 3 * p + 3) ==> after[f] == before[f]
    requires after[3 * p] == expected[3 * p] && after[3 * p + 1] == expected[3 * p + 1]
    requires after[3 * p + 2] == expected[3 * p + 2]
    ensures DoneTo(after, expected, sx, sy, w, p + 1)
  {
  }

  // Stepping over border pixels, which are black in the expected image too.
  lemma SkipBorder(rgb: seq<int>, expected: seq<int>, sx: int, sy: int, w: int, p: int, q: int)
    requires sx > 0 && DoneTo(rgb, expected, sx, sy, w, p) && p <= q && 3 * q <= |expected|
    requires forall f :: 3 * p <= f < 3 * q ==> Border(sx, sy, w, f) && expected[f] == 0
    ensures DoneTo(rgb, expected, sx, sy, w, q)
  {
  }

  // The decoder's place: the raw pointer b is w rows and w columns before pixel
  // (x, y), the output pointer r at its green channel, and all before is finished.
  ghost predicate At(e: seq<int>, sx: int, sy: int, w: int, rgb: seq<int>, b: int, r: int, x: int, y: int)
    requires sx > 0
  {
    && b + w * sx + w == Pixel(sx, x, y) && r == 3 * Pixel(sx, x, y) + 1
    && DoneTo(rgb, e, sx, sy, w, Pixel(sx, x, y))
  }

  // One pixel written, its green channel at r.
  ghost predicate Written(before: seq<int>, after: seq<int>, e: seq<int>, r: int) {
    && |after| == |before| && 1 <= r && r + 1 < |after| && r + 1 < |e|
    && after[r - 1] == e[r - 1] && after[r] == e[r] && after[r + 1] == e[r + 1]
    && forall f :: 0 <= f < |after| && !(r - 1 <= f <= r + 1) ==> after[f] == before[f]
  }

  lemma PlaceInRange(e: seq<int>, sx: int, sy: int, w: int, rgb: seq<int>, b: int, r: int, x: int, y: int)
    requires 0 <= x < sx && 0 <= y < sy && |e| == 3 * sx * sy && At(e, sx, sy, w, rgb, b, r, x, y)
    ensures 1 <= r && r + 1 < |e| <= |rgb|
  {
    PixelInRange(sx, sy, x, y);
  }

  lemma Advance(e: seq<int>, sx: int, sy: int, w: int, before: seq<int>, after: seq<int>, b: int, r: int, x: int, y: int)
    requires 0 <= x < sx && 0 <= y < sy && At(e, sx, sy, w, before, b, r, x, y) && Written(before, after, e, r)
    ensures At(e, sx, sy, w, after, b + 1, r + 3, x + 1, y)
    ensures |e| <= |after| && after[|e|..] == before[|e|..]
  {
    hide Border;
    StorePixel(before, after, e, sx, sy, w, Pixel(sx, x, y));
    assert Pixel(sx, x + 1, y) == Pixel(sx, x, y) + 1;
  }

  lemma RowGap(e: seq<int>, sx: int, sy: int, w: int, y: int)
    requires Framed(e, sx, sy, w) && w <= y < sy - w
    ensures Pixel(sx, sx - w, y) == (y + 1) * sx - w && Pixel(sx, w, y + 1) == (y + 1) * sx + w
    ensures 0 <= 3 * ((y + 1) * sx - w) && 3 * ((y + 1) * sx + w) <= |e|
  {
    hide Border;
    PixelInRange(sx, sy, sx - w, y);
    PixelInRange(sx, sy, w - 1, y + 1);
  }

  // From the end of one row to the start of the next.
  lemma NextRow(e: seq<int>, sx: int, sy: int, w: int, rgb: seq<int>, b: int, r: int, y: int)
    requires Framed(e, sx, sy, w) && w <= y < sy - w && At(e, sx, sy, w, rgb, b, r, sx - w, y)
    ensures At(e, sx, sy, w, rgb, b + 2 * w, r + 6 * w, w, y + 1)
  {
    hide Border, Pixel;
    RowGap(e, sx, sy, w, y);
    var p, q := (y + 1) * sx - w, (y + 1) * sx + w;
    forall f | 3 * p <= f < 3 * q ensures Border(sx, sy, w, f) && e[f] == 0 {
      BetweenRows(sx, sy, w, y + 1, f);
    }
    SkipBorder(rgb, e, sx, sy, w, p, q);
  }

  lemma TopIsBorder(e: seq<int>, sx: int, sy: int, w: int)
    requires Framed(e, sx, sy, w)
    ensures Pixel(sx, w, w) == w * sx + w && 0 <= 3 * (w * sx + w) <= |e|
    ensures forall f :: 0 <= f < 3 * (w * sx + w) ==> Border(sx, sy, w, f)
  {
    hide Border;
    PixelInRange(sx, sy, w, w);
    MulMonotone(0, w, sx);
    forall f | 0 <= f < 3 * (w * sx + w) ensures Border(sx, sy, w, f) {
      if f < 3 * sx * w {
        TopRows(sx, sy, w, f);
      } else {
        BetweenRows(sx, sy, w, w, f);
      }
    }
  }

  // Before the first row only the border is finished.
  lemma FirstRow(e: seq<int>, sx: int, sy: int, w: int, rgb: seq<int>)
    requires Framed(e, sx, sy, w) && |e| <= |rgb|
    requires forall f :: 0 <= f < |e| && Border(sx, sy, w, f) ==> rgb[f] == 0
    ensures At(e, sx, sy, w, rgb, 0, 3 * (w * sx + w) + 1, w, w)
  {
    hide Border, Pixel;
    TopIsBorder(e, sx, sy, w);
  }

  lemma BottomIsBorder(sx: int, sy: int, w: int, f: int)
    requires 0 < w && sx > 2 * w && sy > 2 * w && 3 * Pixel(sx, w, sy - w) <= f
    ensures Border(sx, sy, w, f)
  {
    assert 3 * sx * (sy - w) <= f;
    BottomRows(sx, sy, w, f);
  }

  // After the last row only border is left.
  lemma LastRow(e: seq<int>, sx: int, sy: int, w: int, rgb: seq<int>, b: int, r: int)
    requires Framed(e, sx, sy, w) && At(e, sx, sy, w, rgb, b, r, w, sy - w)
    ensures |e| <= |rgb| && rgb[..|e|] == e
  {
    hide Border, Pixel;
    forall f | 0 <= f < |e| ensures rgb[f] == e[f] {
      if f >= 3 * Pixel(sx, w, sy - w) {
        BottomIsBorder(sx, sy, w, f);
      }
    }
  }
}
