// Fitting an image to the screen: the display size of an original image,
// scaled uniformly by the larger factor that keeps it on the screen.

module Display {

  /** A width and a height in pixels. */
  datatype Dims = Dims(width: int, height: int)

  /** The dimensions of a decoded image or of a screen: both at least one pixel. */
  type Size = d: Dims | d.width >= 1 && d.height >= 1 witness Dims(1, 1)

  function Min(a: int, b: int): int {
    if a <= b then a else b
  }

  function Max(a: int, b: int): int {
    if a <= b then b else a
  }

  function MinReal(a: real, b: real): real {
    if a <= b then a else b
  }

  /** The exact scale factor: the smaller of the two screen-to-image ratios. */
  function Scale(original: Size, screen: Size): real {
    MinReal(screen.width as real / original.width as real,
            screen.height as real / original.height as real)
  }

  /** The width is the limiting dimension: scaling to the screen's width keeps the height on screen. */
  predicate WidthLimited(original: Size, screen: Size) {
    screen.width * original.height <= screen.height * original.width
  }

  /**
   * The display size, computed in integers: the limiting dimension becomes the
   * screen's, the other one is scaled by the same factor and rounded down.
   */
  function FitToScreen(original: Size, screen: Size): (display: Dims)
    ensures 0 <= display.width <= screen.width && 0 <= display.height <= screen.height
    ensures WidthLimited(original, screen) ==> display.width == screen.width
    ensures !WidthLimited(original, screen) ==> display.height == screen.height
  {
    if WidthLimited(original, screen) then
      Dims(screen.width, (original.height * screen.width) / original.width)
    else
      Dims((original.width * screen.height) / original.height, screen.height)
  }

  /** The fit leaves at least one pixel in each direction, so the image can be shown and cropped. */
  predicate Displayable(original: Size, screen: Size) {
    var display := FitToScreen(original, screen);
    display.width >= 1 && display.height >= 1
  }

  /** Rounding a non-negative quotient down is integer division. */
  lemma FloorOfQuotient(n: int, d: int)
    requires n >= 0 && d >= 1
    ensures (n as real / d as real).Floor == n / d
  {
    var q, r := n / d, n % d;
    assert n == q * d + r && 0 <= r < d;
    assert n as real / d as real == q as real + r as real / d as real;
    assert 0.0 <= r as real / d as real < 1.0;
  }

  /** Comparing the two ratios is comparing the cross products. */
  lemma RatiosCompare(original: Size, screen: Size)
    ensures WidthLimited(original, screen) <==>
            screen.width as real / original.width as real <= screen.height as real / original.height as real
  {
    var ow, oh, sw, sh := original.width as real, original.height as real, screen.width as real, screen.height as real;
    assert sw / ow <= sh / oh <==> sw * oh <= sh * ow by {
      assert sw / ow * (ow * oh) == sw * oh;
      assert sh / oh * (ow * oh) == sh * ow;
    }
  }

  /**
   * The integer fit is the exact computation of the source: each dimension of
   * the original multiplied by the scale factor and rounded down.
   */
  lemma {:induction false} FitToScreenMatchesScale(original: Size, screen: Size)
    ensures FitToScreen(original, screen).width == (original.width as real * Scale(original, screen)).Floor
    ensures FitToScreen(original, screen).height == (original.height as real * Scale(original, screen)).Floor
  {
    RatiosCompare(original, screen);
    if WidthLimited(original, screen) {
      ScaledToWidth(original, screen, Scale(original, screen));
    } else {
      ScaledToHeight(original, screen, Scale(original, screen));
    }
  }

  /** Scaling by the width factor: the width becomes the screen's, the height its scaled value rounded down. */
  lemma ScaledToWidth(original: Size, screen: Size, scale: real)
    requires WidthLimited(original, screen)
    requires scale == screen.width as real / original.width as real
    ensures FitToScreen(original, screen).width == (original.width as real * scale).Floor
    ensures FitToScreen(original, screen).height == (original.height as real * scale).Floor
  {
    var ow, oh, sw := original.width, original.height, screen.width;
    assert ow as real * scale == sw as real;
    assert oh as real * scale == (oh * sw) as real / ow as real;
    FloorOfQuotient(oh * sw, ow);
  }

  /** Scaling by the height factor: the height becomes the screen's, the width its scaled value rounded down. */
  lemma ScaledToHeight(original: Size, screen: Size, scale: real)
    requires !WidthLimited(original, screen)
    requires scale == screen.height as real / original.height as real
    ensures FitToScreen(original, screen).width == (original.width as real * scale).Floor
    ensures FitToScreen(original, screen).height == (original.height as real * scale).Floor
  {
    var ow, oh, sh := original.width, original.height, screen.height;
    assert oh as real * scale == sh as real;
    assert ow as real * scale == (ow * sh) as real / oh as real;
    FloorOfQuotient(ow * sh, oh);
  }

  /**
   * The aspect ratio is kept up to rounding: the cross products of the display
   * and the original differ by less than one original dimension.
   */
  lemma FitToScreenKeepsAspect(original: Size, screen: Size)
    ensures var d := FitToScreen(original, screen);
            if WidthLimited(original, screen)
            then 0 <= d.width * original.height - d.height * original.width < original.width
            else 0 <= d.height * original.width - d.width * original.height < original.height
  {
    var ow, oh, sw, sh := original.width, original.height, screen.width, screen.height;
    if WidthLimited(original, screen) {
      var q := (oh * sw) / ow;
      assert oh * sw == q * ow + (oh * sw) % ow;
    } else {
      var q := (ow * sh) / oh;
      assert ow * sh == q * oh + (ow * sh) % oh;
    }
  }

  /** A 1600x1200 photo on an 800x600 screen is shown at 800x600; on a 1920x1080 screen at 1440x1080. */
  lemma FitExamples()
    ensures FitToScreen(Dims(1600, 1200), Dims(800, 600)) == Dims(800, 600)
    ensures FitToScreen(Dims(1600, 1200), Dims(1920, 1080)) == Dims(1440, 1080)
  {
  }
}
