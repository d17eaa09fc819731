// Committing a crop: the square chosen on the displayed image is carried back
// to the original image by the ratio of the original width to the display
// width. The same ratio is used for both axes.

module OriginalCoords {
  import opened Display
  import opened CropSquare

  /** The side of every saved image: crops are resampled to OutputSide x OutputSide. */
  const OutputSide: int := 224

  /** Conversion of a number to an integer by dropping its fraction (rounding toward zero). */
  function Truncate(x: real): int {
    if x >= 0.0 then x.Floor else -((-x).Floor)
  }

  /** A coordinate multiplied by a ratio and converted back to an integer by truncation. */
  function Scaled(c: int, ratio: real): int {
    Truncate(c as real * ratio)
  }

  /** One display coordinate carried to the original: c * (original / display), truncated. */
  function ScaleCoord(c: int, original: int, display: int): (r: int)
    requires original >= 1 && display >= 1
    ensures c >= 0 ==> 0 <= r && r * display <= c * original < (r + 1) * display
    ensures c <= 0 ==> r <= 0
  {
    if c >= 0 then (c * original) / display else -((-c * original) / display)
  }

  /** The factor from display to original coordinates, taken from the widths and used for both axes. */
  function WidthRatio(original: Size, display: Dims): real
    requires display.width >= 1
  {
    original.width as real / display.width as real
  }

  /**
   * The rectangle of the original image that corresponds to the square on the
   * display: every corner coordinate, x and y alike, times the width ratio,
   * truncated.
   */
  function ToOriginal(sq: Square, original: Size, display: Dims): (r: Square)
    requires display.width >= 1
    ensures var ratio := WidthRatio(original, display);
            r == Square(Scaled(sq.x1, ratio), Scaled(sq.y1, ratio), Scaled(sq.x2, ratio), Scaled(sq.y2, ratio))
  {
    Square(MapCoord(sq.x1, original, display), MapCoord(sq.y1, original, display),
           MapCoord(sq.x2, original, display), MapCoord(sq.y2, original, display))
  }

  /** One corner coordinate carried to the original, by the width ratio whatever its axis. */
  function MapCoord(c: int, original: Size, display: Dims): (r: int)
    requires display.width >= 1
    ensures r == Scaled(c, WidthRatio(original, display))
  {
    ScaleCoordMatchesRatio(c, original.width, display.width);
    ScaleCoord(c, original.width, display.width)
  }

  /** The integer computation is the exact product with the ratio, truncated. */
  lemma ScaleCoordMatchesRatio(c: int, original: int, display: int)
    requires original >= 1 && display >= 1
    ensures ScaleCoord(c, original, display) == Truncate(c as real * (original as real / display as real))
  {
    var x := c as real * (original as real / display as real);
    if c >= 0 {
      assert x == (c * original) as real / display as real;
      assert x >= 0.0;
      FloorOfQuotient(c * original, display);
    } else {
      assert -x == (-c * original) as real / display as real;
      assert x < 0.0;
      FloorOfQuotient(-c * original, display);
    }
  }

  /** The map preserves order. */
  lemma ScaleCoordMonotone(a: int, b: int, original: int, display: int)
    requires original >= 1 && display >= 1
    requires a <= b
    ensures ScaleCoord(a, original, display) <= ScaleCoord(b, original, display)
  {
    if 0 <= a {
      DivMonotone(a * original, b * original, display);
    } else if b <= 0 {
      DivMonotone(-b * original, -a * original, display);
    }
  }

  lemma DivMonotone(m: int, n: int, d: int)
    requires 0 <= m <= n && d >= 1
    ensures m / d <= n / d
  {
    assert (m / d) * d <= m <= n < (n / d + 1) * d;
    CancelFactor(m / d, n / d + 1, d);
  }

  /** Cancelling a positive factor on both sides of a strict inequality. */
  lemma CancelFactor(a: int, b: int, d: int)
    requires d >= 1 && a * d < b * d
    ensures a < b
  {
    assert (b - a) * d > 0;
  }

  /** The display's origin is the original's origin, and its far edge the original's far edge. */
  lemma ScaleCoordEnds(original: int, display: int)
    requires original >= 1 && display >= 1
    ensures ScaleCoord(0, original, display) == 0
    ensures ScaleCoord(display, original, display) == original
  {
    assert display * original == original * display;
  }

  /** A coordinate on the display lands on the original. */
  lemma {:induction false} ScaleCoordBounded(c: int, original: int, display: int)
    requires original >= 1 && display >= 1
    requires 0 <= c <= display
    ensures 0 <= ScaleCoord(c, original, display) <= original
  {
    ScaleCoordMonotone(c, display, original, display);
    ScaleCoordEnds(original, display);
  }

  /**
   * A square inside the display maps to a rectangle with ordered corners and
   * no negative coordinate, whose x-range lies within the original's width.
   */
  lemma {:induction false} ToOriginalOrdered(sq: Square, size: int, original: Size, display: Dims)
    requires display.width >= 1
    requires Inside(sq, display) && HasSide(sq, size) && size >= 0
    ensures var r := ToOriginal(sq, original, display);
            0 <= r.x1 <= r.x2 <= original.width && 0 <= r.y1 <= r.y2
  {
    var ow, w := original.width, display.width;
    ScaleCoordMonotone(sq.x1, sq.x2, ow, w);
    ScaleCoordMonotone(sq.y1, sq.y2, ow, w);
    ScaleCoordBounded(sq.x2, ow, w);
  }

  /**
   * When the width limited the fit, the height ratio is no smaller than the
   * width ratio, so the y-range also stays within the original's height.
   */
  lemma {:induction false} ToOriginalWithinHeightWhenWidthLimited(sq: Square, original: Size, screen: Size)
    requires WidthLimited(original, screen)
    requires Displayable(original, screen)
    requires Inside(sq, FitToScreen(original, screen))
    ensures ToOriginal(sq, original, FitToScreen(original, screen)).y2 <= original.height
  {
    var display := FitToScreen(original, screen);
    var ow, oh, w, h := original.width, original.height, display.width, display.height;
    assert w == screen.width && h == (oh * w) / ow;
    assert h * ow <= oh * w;
    ScaleCoordMonotone(sq.y2, h, ow, w);
    var r := ScaleCoord(h, ow, w);
    assert r * w <= h * ow <= oh * w < (oh + 1) * w;
    CancelFactor(r, oh + 1, w);
  }

  /**
   * When the height limited the fit, the width ratio can exceed the height
   * ratio: a 3x2 image on a 100x1 screen is shown at 1x1, and the full square
   * maps to a rectangle 3 pixels tall on an image 2 pixels tall.
   */
  lemma ToOriginalCanLeaveHeight()
    ensures FitToScreen(Dims(3, 2), Dims(100, 1)) == Dims(1, 1)
    ensures ToOriginal(Square(0, 0, 1, 1), Dims(3, 2), Dims(1, 1)) == Square(0, 0, 3, 3)
  {
  }

  /** An 800x600 display of a 1600x1200 image: the square (100, 50)-(300, 250) maps to (200, 100)-(600, 500). */
  lemma ToOriginalExample()
    ensures ToOriginal(Square(100, 50, 300, 250), Dims(1600, 1200), Dims(800, 600)) == Square(200, 100, 600, 500)
  {
  }

  /** The same display at half the original's size: a 600-pixel square at (100, 0) covers (200, 0)-(1400, 1200). */
  lemma ToOriginalFullHeightExample()
    ensures ToOriginal(Square(100, 0, 700, 600), Dims(1600, 1200), Dims(800, 600)) == Square(200, 0, 1400, 1200)
  {
  }
}
