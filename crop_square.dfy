// The crop square on the displayed image: where it starts, where a click or a
// drag puts it, and what the size slider does to it. Coordinates are those of
// the canvas, whose origin is the top-left corner of the displayed image.

module CropSquare {
  import opened Display

  /** The rectangle drawn on the canvas, as its two corners (x1, y1) and (x2, y2). */
  datatype Square = Square(x1: int, y1: int, x2: int, y2: int)

  /** The square lies within the displayed image. */
  predicate Inside(sq: Square, display: Dims) {
    0 <= sq.x1 && sq.x2 <= display.width && 0 <= sq.y1 && sq.y2 <= display.height
  }

  /** Both sides of the rectangle have length `size`. */
  predicate HasSide(sq: Square, size: int) {
    sq.x2 - sq.x1 == size && sq.y2 - sq.y1 == size
  }

  /** The largest square the display can hold: the side the crop starts with and the slider's upper end. */
  function MaxSide(display: Dims): int {
    Min(display.width, display.height)
  }

  /** The square drawn when an image is shown: anchored at the origin, as large as the display allows. */
  function InitialSquare(display: Dims): (sq: Square)
    requires display.width >= 0 && display.height >= 0
    ensures sq.x1 == 0 && sq.y1 == 0
    ensures HasSide(sq, MaxSide(display)) && Inside(sq, display)
    ensures sq.x2 == display.width || sq.y2 == display.height
  {
    var s := MaxSide(display);
    Square(0, 0, s, s)
  }

  /**
   * The near corner along one axis for a square of side `size` centred on the
   * pointer coordinate `p` and then pushed back inside [0, extent].
   */
  function ClampCorner(p: int, size: int, extent: int): (c: int)
    ensures 0 <= c
    ensures size <= extent ==> c + size <= extent
    ensures 0 <= p - size / 2 <= extent - size ==> c == p - size / 2
    ensures p - size / 2 <= 0 ==> c == 0
    ensures 0 <= extent - size <= p - size / 2 ==> c == extent - size
  {
    var centred := p - size / 2;
    var far := extent - size;
    if centred <= far then (if 0 <= centred then centred else 0)
    else (if 0 <= far then far else 0)
  }

  /** Where a click or a drag at (px, py) puts a square of side `size`. */
  function Recentred(px: int, py: int, size: int, display: Dims): (sq: Square)
    ensures HasSide(sq, size)
    ensures 0 <= size <= MaxSide(display) ==> Inside(sq, display)
  {
    var x1 := ClampCorner(px, size, display.width);
    var y1 := ClampCorner(py, size, display.height);
    Square(x1, y1, x1 + size, y1 + size)
  }

  /**
   * The square after the slider sets its side to `size`: the near corner stays
   * where it was unless the far edge would leave the image, in which case the
   * far edge is pinned to the image's edge.
   */
  function Resized(sq: Square, size: int, display: Dims): (r: Square)
    ensures HasSide(r, size)
    ensures sq.x1 + size <= display.width ==> r.x1 == sq.x1
    ensures sq.x1 + size > display.width ==> r.x2 == display.width && r.x1 < sq.x1
    ensures sq.y1 + size <= display.height ==> r.y1 == sq.y1
    ensures sq.y1 + size > display.height ==> r.y2 == display.height && r.y1 < sq.y1
  {
    var overX, overY := sq.x1 + size > display.width, sq.y1 + size > display.height;
    Square(if overX then display.width - size else sq.x1,
           if overY then display.height - size else sq.y1,
           if overX then display.width else sq.x1 + size,
           if overY then display.height else sq.y1 + size)
  }

  /** A slider value within the slider's range leaves a square that was inside the image inside it. */
  lemma ResizedStaysInside(sq: Square, size: int, display: Dims)
    requires 0 <= sq.x1 && 0 <= sq.y1
    requires 0 <= size <= MaxSide(display)
    ensures Inside(Resized(sq, size, display), display)
  {
  }

  /** Moving the slider twice to the same value gives the square that moving it once gives. */
  lemma ResizedIdempotent(sq: Square, size: int, display: Dims)
    ensures Resized(Resized(sq, size, display), size, display) == Resized(sq, size, display)
  {
  }

  /** A square inside the image that already has the slider's side is left where it is. */
  lemma ResizedFixesFittingSquare(sq: Square, size: int, display: Dims)
    requires Inside(sq, display) && HasSide(sq, size)
    ensures Resized(sq, size, display) == sq
  {
  }

  /** The square a click or a drag produces is the one a pointer at its centre produces. */
  lemma RecentredAtOwnCentre(px: int, py: int, size: int, display: Dims)
    requires 0 <= size <= MaxSide(display)
    ensures var sq := Recentred(px, py, size, display);
            Recentred(sq.x1 + size / 2, sq.y1 + size / 2, size, display) == sq
  {
  }

  /** A click at the centre of an 800x600 display centres a 600-pixel square horizontally and keeps it at the top. */
  lemma RecentredExample()
    ensures Recentred(400, 300, 600, Dims(800, 600)) == Square(100, 0, 700, 600)
  {
    assert ClampCorner(400, 600, 800) == 100;
    assert ClampCorner(300, 600, 600) == 0;
  }
}
