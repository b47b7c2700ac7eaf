/**
 * Placing a client on the screen: the title-bar offset implied by the window
 * gravity hint (client.cc, Client::gravitate) and the clamping of a client
 * rectangle to the display (misc.cc, Client::fixPosition and Client::refixPosition).
 */
module Placement {
  import opened Geometry

  /** The gravity the client declared, or NorthWest when it declared none. */
  function EffectiveGravity(hints: SizeHints): int {
    if hints.hasWinGravity then hints.winGravity else NorthWestGravity
  }

  predicate NorthFamily(g: int) {
    g == NorthWestGravity || g == NorthEastGravity || g == NorthGravity
  }

  /** How far gravitate moves a window vertically for one unit of multiplier. */
  function GravityOffset(hints: SizeHints, scr: Screen): (dy: int)
    requires scr.Valid()
    ensures 0 <= dy <= scr.barHeight
    ensures dy == scr.barHeight <==> NorthFamily(EffectiveGravity(hints))
    ensures dy == 0 <==> !NorthFamily(EffectiveGravity(hints)) && EffectiveGravity(hints) != CenterGravity
    ensures EffectiveGravity(hints) == CenterGravity ==> 2 * dy <= scr.barHeight < 2 * dy + 2
  {
    var g := EffectiveGravity(hints);
    if NorthFamily(g) then scr.barHeight
    else if g == CenterGravity then scr.barHeight / 2
    else 0
  }

  /** Client::gravitate: shifts y by multiplier times the gravity offset; nothing else moves. */
  function Gravitate(r: Rect, hints: SizeHints, scr: Screen, multiplier: int): (g: Rect)
    requires scr.Valid()
    ensures g.x == r.x && g.width == r.width && g.height == r.height
    ensures multiplier == ApplyGravity ==> r.y <= g.y <= r.y + scr.barHeight
    ensures multiplier == RemoveGravity ==> r.y - scr.barHeight <= g.y <= r.y
  {
    r.(y := r.y + multiplier * GravityOffset(hints, scr))
  }

  /** Removing gravity undoes applying it, and the other way round. */
  lemma GravitateRoundTrip(r: Rect, hints: SizeHints, scr: Screen)
    requires scr.Valid()
    ensures Gravitate(Gravitate(r, hints, scr, ApplyGravity), hints, scr, RemoveGravity) == r
    ensures Gravitate(Gravitate(r, hints, scr, RemoveGravity), hints, scr, ApplyGravity) == r
  {
  }

  /** The title-bar height fixPosition accounts for: none for the fullscreen client. */
  function TitlebarHeight(scr: Screen, isFullscreen: bool): (h: int)
    ensures isFullscreen ==> h == 0
    ensures !isFullscreen ==> h == scr.barHeight
  {
    if isFullscreen then 0 else scr.barHeight
  }

  /**
   * The frame, in frame coordinates (f.x + BorderWidth is the inner position), lies on
   * the display: not wider than the screen, starting right of the left edge, ending
   * left of the right edge; its bottom above the screen bottom and its top under the
   * title bar (under the top edge for the fullscreen client).
   */
  ghost predicate OnScreen(f: Rect, scr: Screen, isFullscreen: bool) {
    var xmax, ymax, bh := scr.width, scr.height, scr.barHeight;
    && f.width <= xmax
    && f.height + bh + TitlebarHeight(scr, isFullscreen) <= ymax
    && 0 <= f.x + BorderWidth && f.x + BorderWidth + f.width <= xmax
    && f.y + BorderWidth + f.height + bh <= ymax
    && TitlebarHeight(scr, isFullscreen) <= f.y + BorderWidth
  }

  /**
   * The frame fixPosition makes of the rectangle r: each dimension clamped between its
   * minimum and what the screen leaves (the height less the taskbar and the title bar);
   * the position moved right of the left edge and under the taskbar, then, where the
   * window would reach the right or the bottom edge, flush against that edge; and
   * finally shifted up and left by the border width.
   */
  ghost predicate Fixed(r: Rect, scr: Screen, isFullscreen: bool, f: Rect) {
    var bh := scr.barHeight;
    var x0 := if r.x < 0 then 0 else r.x;
    var y0 := if r.y < bh then bh else r.y;
    && f.width == Clamp(r.width, MinWinWidth(scr), scr.width)
    && f.height == Clamp(r.height, MinWinHeight(scr), scr.height - bh - TitlebarHeight(scr, isFullscreen))
    && f.x + BorderWidth == (if x0 + f.width + BorderWidth >= scr.width then scr.width - f.width else x0)
    && f.y + BorderWidth == (if y0 + f.height + bh >= scr.height then scr.height - f.height - bh else y0)
  }

  /**
   * Fixing a fixed frame again (taken back to inner coordinates) gives the same frame:
   * refixPosition on a client that fixPosition already placed marks nothing.
   */
  lemma FixedIdempotent(r: Rect, scr: Screen, isFullscreen: bool, f: Rect)
    requires scr.Valid() && Fixed(r, scr, isFullscreen, f)
    ensures Fixed(Rect(f.x + BorderWidth, f.y + BorderWidth, f.width, f.height), scr, isFullscreen, f)
  {
    ClampIdempotent(r.width, MinWinWidth(scr), scr.width);
    ClampIdempotent(r.height, MinWinHeight(scr), scr.height - scr.barHeight - TitlebarHeight(scr, isFullscreen));
  }

  /**
   * Client::fixPosition: clamps the size to [MINWINWIDTH, screen], then the position so the
   * decorated window is on screen, then converts to frame coordinates by subtracting
   * the border width.
   */
  method FixPosition(r: Rect, scr: Screen, isFullscreen: bool) returns (f: Rect)
    requires scr.Valid()
    ensures Fixed(r, scr, isFullscreen, f)
    ensures OnScreen(f, scr, isFullscreen)
    ensures scr.width >= MinWinWidth(scr) ==> f.width >= MinWinWidth(scr)
    ensures scr.height - scr.barHeight - TitlebarHeight(scr, isFullscreen) >= MinWinHeight(scr) ==> f.height >= MinWinHeight(scr)
    // what already fits is left alone (apart from the border shift)
    ensures MinWinWidth(scr) <= r.width <= scr.width ==> f.width == r.width
    ensures MinWinHeight(scr) <= r.height && r.height + scr.barHeight + TitlebarHeight(scr, isFullscreen) <= scr.height ==> f.height == r.height
    ensures 0 <= r.x && r.x + f.width + BorderWidth < scr.width ==> f.x == r.x - BorderWidth
    ensures scr.barHeight <= r.y && r.y + f.height + scr.barHeight < scr.height ==> f.y == r.y - BorderWidth
  {
    var titlebarheight := TitlebarHeight(scr, isFullscreen);
    var xmax, ymax := scr.width, scr.height;
    var x, y, width, height := r.x, r.y, r.width, r.height;

    if width < MinWinWidth(scr) {
      width := MinWinWidth(scr);
    }
    if height < MinWinHeight(scr) {
      height := MinWinHeight(scr);
    }
    if width > xmax {
      width := xmax;
    }
    if height + (scr.barHeight + titlebarheight) > ymax {
      height := ymax - (scr.barHeight + titlebarheight);
    }
    if x < 0 {
      x := 0;
    }
    if y < scr.barHeight {
      y := scr.barHeight;
    }
    if x + width + BorderWidth >= xmax {
      x := xmax - width;
    }
    if y + height + scr.barHeight >= ymax {
      y := (ymax - height) - scr.barHeight;
    }
    x := x - BorderWidth;
    y := y - BorderWidth;
    f := Rect(x, y, width, height);
  }

  /**
   * The fields an XConfigureRequestEvent's value_mask can name (CWX, CWY, CWWidth,
   * CWHeight, CWBorderWidth, CWSibling, CWStackMode); a mask is the set of its bits.
   */
  datatype ConfigField = CWX | CWY | CWWidth | CWHeight | CWBorderWidth | CWSibling | CWStackMode
  type ValueMask = set<ConfigField>

  /**
   * Client::refixPosition: runs fixPosition and marks in the request's value mask
   * each field whose value changed (the position compared with the old position
   * minus the border width). Bits already set stay set, and no other bit changes.
   */
  method RefixPosition(r: Rect, mask: ValueMask, scr: Screen, isFullscreen: bool) returns (f: Rect, m: ValueMask)
    requires scr.Valid()
    ensures Fixed(r, scr, isFullscreen, f)
    ensures OnScreen(f, scr, isFullscreen)
    ensures MinWinWidth(scr) <= r.width <= scr.width ==> f.width == r.width
    ensures mask <= m
    ensures m - mask <= {CWX, CWY, CWWidth, CWHeight}
    ensures CWX in m <==> CWX in mask || f.x != r.x - BorderWidth
    ensures CWY in m <==> CWY in mask || f.y != r.y - BorderWidth
    ensures CWWidth in m <==> CWWidth in mask || f.width != r.width
    ensures CWHeight in m <==> CWHeight in mask || f.height != r.height
  {
    var olddims := Rect(r.x - BorderWidth, r.y - BorderWidth, r.width, r.height);
    f := FixPosition(r, scr, isFullscreen);
    m := mask;
    if olddims.x != f.x {
      m := m + {CWX};
    }
    if olddims.y != f.y {
      m := m + {CWY};
    }
    if olddims.width != f.width {
      m := m + {CWWidth};
    }
    if olddims.height != f.height {
      m := m + {CWHeight};
    }
  }
}
