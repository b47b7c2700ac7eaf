/**
 * The value types and constants of windowlab.h: the rectangle with its plain and
 * conditional setters, the display geometry, the size hints a client declares
 * (XSizeHints) and the fixed constants (border width, minimum window size, the
 * gravity multipliers).
 */
module Geometry {

  /** DEF_BORDERWIDTH: the X border drawn around every frame. */
  const BorderWidth: int := 2
  /** SPACE: padding around titles and menu labels. */
  const Space: int := 3
  /** Multipliers for gravitate. */
  const ApplyGravity: int := 1
  const RemoveGravity: int := -1

  /**
   * The display size and the title-bar height BARHEIGHT(). BARHEIGHT() is the font's
   * ascent plus descent plus 2 * SPACE + 2, so it is at least 8.
   */
  datatype Screen = Screen(width: int, height: int, barHeight: int) {
    predicate Valid() {
      width > 0 && height > 0 && barHeight >= 2 * Space + 2
    }
  }

  /** MINWINWIDTH(): enough for the three title-bar buttons and a bit of title. */
  function MinWinWidth(scr: Screen): int {
    scr.barHeight * 4
  }

  /** MINWINHEIGHT() */
  function MinWinHeight(scr: Screen): int {
    scr.barHeight * 4
  }

  /**
   * A value raised to a lower limit and then lowered to an upper one, the order in which
   * fixPosition and limit_size apply their conditional setters: the result is never above
   * the upper limit, never below the lower one when the limits leave room, the value
   * itself when it is within them, and otherwise the limit it crossed (the upper one when
   * the limits cross each other).
   */
  function Clamp(v: int, lo: int, hi: int): (c: int)
    ensures c <= hi
    ensures lo <= hi ==> lo <= c
    ensures lo <= v <= hi ==> c == v
    ensures v > hi ==> c == hi
    ensures v < lo ==> c == (if lo <= hi then lo else hi)
  {
    var raised := if v < lo then lo else v;
    if raised > hi then hi else raised
  }

  /** Clamping a clamped value changes nothing. */
  lemma ClampIdempotent(v: int, lo: int, hi: int)
    ensures Clamp(Clamp(v, lo, hi), lo, hi) == Clamp(v, lo, hi)
  {
  }

  lemma MinimumSizeIsSquare(scr: Screen)
    ensures MinWinWidth(scr) == MinWinHeight(scr) == 4 * scr.barHeight
  {
  }

  lemma GravityMultipliersAreInverse()
    ensures ApplyGravity == -RemoveGravity
    ensures ApplyGravity * RemoveGravity == -1
  {
  }

  /**
   * Rect: a value type (C++ copies it on assignment). A default-constructed Rect is
   * Rect(0, 0, 0, 0); the four-argument constructor stores its arguments as given.
   * The setters of the source mutate the value in place; here each returns the updated
   * value and the caller reassigns its variable.
   */
  datatype Rect = Rect(x: int, y: int, width: int, height: int) {

    function SetX(value: int): (r: Rect)
      ensures r.x == value
      ensures r.y == y && r.width == width && r.height == height
    {
      this.(x := value)
    }

    function SetY(value: int): (r: Rect)
      ensures r.y == value
      ensures r.x == x && r.width == width && r.height == height
    {
      this.(y := value)
    }

    function SetWidth(value: int): (r: Rect)
      ensures r.width == value
      ensures r.x == x && r.y == y && r.height == height
    {
      this.(width := value)
    }

    function SetHeight(value: int): (r: Rect)
      ensures r.height == value
      ensures r.x == x && r.y == y && r.width == width
    {
      this.(height := value)
    }

    /** The conditional setters assign only when the predicate holds of the old field value. */
    function SetXIf(value: int, cond: int -> bool): (r: Rect)
      ensures cond(x) ==> r.x == value
      ensures !cond(x) ==> r == this
      ensures r.y == y && r.width == width && r.height == height
    {
      if cond(x) then SetX(value) else this
    }

    function SetYIf(value: int, cond: int -> bool): (r: Rect)
      ensures cond(y) ==> r.y == value
      ensures !cond(y) ==> r == this
      ensures r.x == x && r.width == width && r.height == height
    {
      if cond(y) then SetY(value) else this
    }

    function SetWidthIf(value: int, cond: int -> bool): (r: Rect)
      ensures cond(width) ==> r.width == value
      ensures !cond(width) ==> r == this
      ensures r.x == x && r.y == y && r.height == height
    {
      if cond(width) then SetWidth(value) else this
    }

    function SetHeightIf(value: int, cond: int -> bool): (r: Rect)
      ensures cond(height) ==> r.height == value
      ensures !cond(height) ==> r == this
      ensures r.x == x && r.y == y && r.width == width
    {
      if cond(height) then SetHeight(value) else this
    }

    function AddToWidth(amount: int): (r: Rect)
      ensures r.width - width == amount
      ensures r.x == x && r.y == y && r.height == height
    {
      SetWidth(width + amount)
    }

    function AddToHeight(amount: int): (r: Rect)
      ensures r.height - height == amount
      ensures r.x == x && r.y == y && r.width == width
    {
      SetHeight(height + amount)
    }

    function SubtractFromWidth(amount: int): (r: Rect)
      ensures width - r.width == amount
      ensures r.x == x && r.y == y && r.height == height
    {
      SetWidth(width - amount)
    }

    function SubtractFromHeight(amount: int): (r: Rect)
      ensures height - r.height == amount
      ensures r.x == x && r.y == y && r.width == width
    {
      SetHeight(height - amount)
    }
  }

  /** Adding to a dimension and subtracting the same amount gives back the same rectangle. */
  lemma AddSubtractRoundTrip(r: Rect, a: int)
    ensures r.AddToWidth(a).SubtractFromWidth(a) == r
    ensures r.SubtractFromWidth(a).AddToWidth(a) == r
    ensures r.AddToHeight(a).SubtractFromHeight(a) == r
    ensures r.SubtractFromHeight(a).AddToHeight(a) == r
  {
  }

  /** Window gravity values of X.h. */
  const NorthWestGravity: int := 1
  const NorthGravity: int := 2
  const NorthEastGravity: int := 3
  const CenterGravity: int := 5

  /**
   * XSizeHints: each group of fields is meaningful only when its flag (PMinSize,
   * PMaxSize, PResizeInc, PBaseSize, PWinGravity) is set. XAllocSizeHints zeroes
   * every field.
   */
  datatype SizeHints = SizeHints(
    hasMinSize: bool, minWidth: int, minHeight: int,
    hasMaxSize: bool, maxWidth: int, maxHeight: int,
    hasResizeInc: bool, widthInc: int, heightInc: int,
    hasBaseSize: bool, baseWidth: int, baseHeight: int,
    hasWinGravity: bool, winGravity: int)

  const NoHints: SizeHints := SizeHints(false, 0, 0, false, 0, 0, false, 0, 0, false, 0, 0, false, 0)
}
