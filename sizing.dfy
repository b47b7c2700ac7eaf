/**
 * The integer geometry of manage.cc: resize-increment snapping (get_incsize), the
 * clamp to size hints and screen (limit_size), one pointer-motion step of the
 * interactive resize, the translation of the interactive move, and the rectangle
 * a client gets when it goes fullscreen.
 */
module Sizing {
  import opened Geometry

  function Abs(a: int): nat {
    if a < 0 then -a else a
  }

  /** C's integer division: truncates toward zero. */
  function CDiv(a: int, b: int): (q: int)
    requires b != 0
    ensures Abs(q) * Abs(b) <= Abs(a) < (Abs(q) + 1) * Abs(b)
    ensures q > 0 ==> (a > 0) == (b > 0)
    ensures q < 0 ==> (a > 0) != (b > 0)
  {
    var q := Abs(a) / Abs(b);
    if (a >= 0) == (b > 0) then q else -q
  }

  /** C's remainder: takes the sign of the dividend, and a == b * CDiv(a, b) + CRem(a, b). */
  function CRem(a: int, b: int): (r: int)
    requires b != 0
    ensures Abs(r) < Abs(b)
    ensures a >= 0 ==> 0 <= r <= a
    ensures a < 0 ==> a <= r <= 0
  {
    ModAtMost(Abs(a), Abs(b));
    if a >= 0 then a % Abs(b) else -((-a) % Abs(b))
  }

  lemma ModAtMost(a: nat, n: int)
    requires n > 0
    ensures a % n <= a
  {
    assert a == n * (a / n) + a % n;
    assert a / n >= 0;
    assert n * (a / n) >= 0;
  }

  lemma CDivRem(a: int, b: int)
    requires b != 0
    ensures a == b * CDiv(a, b) + CRem(a, b)
  {
    var bb: int, aa: int := Abs(b), Abs(a);
    var q, r := aa / bb, aa % bb;
    assert aa == bb * q + r;
    if a >= 0 && b > 0 {
    } else if a >= 0 {
      assert b * CDiv(a, b) == (-bb) * (-q) == bb * q;
    } else if b > 0 {
      assert b * CDiv(a, b) == bb * (-q) == -(bb * q);
    } else {
      assert b * CDiv(a, b) == (-bb) * q == -(bb * q);
    }
  }

  /** The base size increments are counted from: base size, else minimum size, else 0. */
  function BaseWidth(h: SizeHints): int {
    if h.hasBaseSize then h.baseWidth else if h.hasMinSize then h.minWidth else 0
  }

  function BaseHeight(h: SizeHints): int {
    if h.hasBaseSize then h.baseHeight else if h.hasMinSize then h.minHeight else 0
  }

  /**
   * v is `request` snapped to the increment grid anchored at base: a whole number of
   * increments away from base, lying between base and the request (inclusive), and
   * less than one increment away from the request.
   */
  ghost predicate Snapped(v: int, request: int, base: int, inc: int)
    requires inc != 0
  {
    && (v - base) % inc == 0
    && (if request >= base then base <= v <= request else request <= v <= base)
    && Abs(v - request) < Abs(inc)
  }

  lemma MulAtLeast(a: int, b: int)
    requires a > 0 && b > 0
    ensures a * b >= a
  {
    assert a * b == a * (b - 1) + a;
    assert a * (b - 1) >= 0;
  }

  lemma NonzeroMultipleIsLarge(inc: int, e: int)
    requires inc != 0 && e != 0
    ensures Abs(inc * e) >= Abs(inc)
  {
    MulAtLeast(Abs(inc), Abs(e));
    if inc > 0 && e < 0 {
      assert inc * e == -(inc * (-e));
    } else if inc < 0 && e > 0 {
      assert inc * e == -((-inc) * e);
    } else if inc < 0 && e < 0 {
      assert inc * e == (-inc) * (-e);
    }
  }

  /** A whole number of increments leaves no remainder. */
  lemma ModOfMultiple(inc: int, k: int)
    requires inc != 0
    ensures (inc * k) % inc == 0
  {
    var m := inc * k;
    var q, r := m / inc, m % inc;
    assert m == inc * q + r;
    assert r == inc * (k - q) by {
      assert inc * k - inc * q == inc * (k - q);
    }
    if k - q != 0 {
      NonzeroMultipleIsLarge(inc, k - q);
    }
  }

  /** Subtracting C's remainder snaps a request to the grid, towards the base. */
  lemma SnapOne(request: int, base: int, inc: int)
    requires inc != 0
    ensures Snapped(request - CRem(request - base, inc), request, base, inc)
    ensures request - CRem(request - base, inc) - base == inc * CDiv(request - base, inc)
  {
    CDivRem(request - base, inc);
    ModOfMultiple(inc, CDiv(request - base, inc));
  }

  datatype IncMode = Pixels | Increments

  /** get_incsize's bool result and its two out-parameters. */
  datatype IncSize = IncSize(applies: bool, width: int, height: int)

  /**
   * get_incsize: when the client declared resize increments, computes per axis the size
   * snapped to the increment grid (Pixels) or the number of increments (Increments); an
   * axis whose increment is 0 keeps the caller's out-parameter. Without PResizeInc
   * nothing is written and the result is false.
   */
  function GetIncSize(hints: SizeHints, dims: Rect, xRet: int, yRet: int, mode: IncMode): (r: IncSize)
    ensures r.applies == hints.hasResizeInc
    ensures !hints.hasResizeInc || hints.widthInc == 0 ==> r.width == xRet
    ensures !hints.hasResizeInc || hints.heightInc == 0 ==> r.height == yRet
    ensures hints.hasResizeInc && hints.widthInc != 0 && mode == Pixels ==>
      Snapped(r.width, dims.width, BaseWidth(hints), hints.widthInc)
    ensures hints.hasResizeInc && hints.heightInc != 0 && mode == Pixels ==>
      Snapped(r.height, dims.height, BaseHeight(hints), hints.heightInc)
  {
    if hints.hasResizeInc then
      var basex, basey := BaseWidth(hints), BaseHeight(hints);
      var nWidth, nHeight := dims.width, dims.height;
      if mode == Pixels then
        var x := if hints.widthInc != 0 then nWidth - CRem(nWidth - basex, hints.widthInc) else xRet;
        var y := if hints.heightInc != 0 then nHeight - CRem(nHeight - basey, hints.heightInc) else yRet;
        assert hints.widthInc != 0 ==> Snapped(x, nWidth, basex, hints.widthInc) by {
          if hints.widthInc != 0 { SnapOne(nWidth, basex, hints.widthInc); }
        }
        assert hints.heightInc != 0 ==> Snapped(y, nHeight, basey, hints.heightInc) by {
          if hints.heightInc != 0 { SnapOne(nHeight, basey, hints.heightInc); }
        }
        IncSize(true, x, y)
      else
        var x := if hints.widthInc != 0 then CDiv(nWidth - basex, hints.widthInc) else xRet;
        var y := if hints.heightInc != 0 then CDiv(nHeight - basey, hints.heightInc) else yRet;
        IncSize(true, x, y)
    else
      IncSize(false, xRet, yRet)
  }

  /** The two modes agree: the snapped size is the base plus the counted increments. */
  lemma PixelsAreBasePlusIncrements(hints: SizeHints, dims: Rect, xRet: int, yRet: int)
    requires hints.hasResizeInc && hints.widthInc != 0 && hints.heightInc != 0
    ensures GetIncSize(hints, dims, xRet, yRet, Pixels).width
      == BaseWidth(hints) + hints.widthInc * GetIncSize(hints, dims, xRet, yRet, Increments).width
    ensures GetIncSize(hints, dims, xRet, yRet, Pixels).height
      == BaseHeight(hints) + hints.heightInc * GetIncSize(hints, dims, xRet, yRet, Increments).height
  {
    SnapOne(dims.width, BaseWidth(hints), hints.widthInc);
    SnapOne(dims.height, BaseHeight(hints), hints.heightInc);
  }

  /** Minimum width 10 (no base size), increment 7: a requested 30 snaps to 24, and 24 stays. */
  lemma SnapExample()
    ensures var h := NoHints.(hasMinSize := true, minWidth := 10, minHeight := 10,
                              hasResizeInc := true, widthInc := 7, heightInc := 7);
      && GetIncSize(h, Rect(0, 0, 30, 30), 0, 0, Pixels) == IncSize(true, 24, 24)
      && GetIncSize(h, Rect(0, 0, 24, 24), 0, 0, Pixels) == IncSize(true, 24, 24)
      && GetIncSize(h, Rect(0, 0, 30, 30), 0, 0, Increments) == IncSize(true, 2, 2)
  {
  }

  /** A width already inside every limit limit_size applies. */
  predicate WidthWithinLimits(hints: SizeHints, scr: Screen, w: int) {
    && (!hints.hasMinSize || hints.minWidth <= w)
    && (!hints.hasMaxSize || w <= hints.maxWidth)
    && MinWinWidth(scr) <= w <= scr.width
  }

  predicate HeightWithinLimits(hints: SizeHints, scr: Screen, h: int) {
    && (!hints.hasMinSize || hints.minHeight <= h)
    && (!hints.hasMaxSize || h <= hints.maxHeight)
    && MinWinHeight(scr) <= h <= scr.height - scr.barHeight
  }

  /**
   * One dimension through limit_size: raised to the hint minimum and then lowered to the
   * hint maximum (each only when that hint is set), then clamped between the global
   * minimum and the room on the screen.
   */
  function LimitedDim(v: int, hasMin: bool, hintMin: int, hasMax: bool, hintMax: int, winMin: int, room: int): (d: int)
    ensures d <= room
    ensures winMin <= room ==> winMin <= d
    ensures (!hasMin || hintMin <= v) && (!hasMax || v <= hintMax) && winMin <= v <= room ==> d == v
    ensures d == v || d == room || d == winMin || (hasMin && d == hintMin) || (hasMax && d == hintMax)
  {
    var raised := if hasMin && v < hintMin then hintMin else v;
    var lowered := if hasMax && raised > hintMax then hintMax else raised;
    Clamp(lowered, winMin, room)
  }

  /** The rectangle limit_size makes of dims: the position kept, each dimension limited. */
  function Limited(hints: SizeHints, scr: Screen, dims: Rect): (r: Rect)
    ensures r.x == dims.x && r.y == dims.y
    ensures WidthWithinLimits(hints, scr, dims.width) && HeightWithinLimits(hints, scr, dims.height) ==> r == dims
  {
    dims.(width := LimitedDim(dims.width, hints.hasMinSize, hints.minWidth, hints.hasMaxSize, hints.maxWidth,
                              MinWinWidth(scr), scr.width),
          height := LimitedDim(dims.height, hints.hasMinSize, hints.minHeight, hints.hasMaxSize, hints.maxHeight,
                               MinWinHeight(scr), scr.height - scr.barHeight))
  }

  /**
   * limit_size: applies the minimum and maximum size hints, then the global minimum,
   * then the screen size, each through a conditional setter. The position is untouched.
   */
  method LimitSize(hints: SizeHints, scr: Screen, dims: Rect) returns (r: Rect)
    requires scr.Valid()
    ensures r == Limited(hints, scr, dims)
    ensures r.x == dims.x && r.y == dims.y
    ensures r.width <= scr.width && r.height <= scr.height - scr.barHeight
    ensures MinWinWidth(scr) <= scr.width ==> MinWinWidth(scr) <= r.width
    ensures MinWinHeight(scr) <= scr.height - scr.barHeight ==> MinWinHeight(scr) <= r.height
    // hints win whenever they are compatible with the global limits
    ensures hints.hasMaxSize && MinWinWidth(scr) <= hints.maxWidth ==> r.width <= hints.maxWidth
    ensures hints.hasMaxSize && MinWinHeight(scr) <= hints.maxHeight ==> r.height <= hints.maxHeight
    ensures hints.hasMinSize && hints.minWidth <= scr.width && (!hints.hasMaxSize || hints.minWidth <= hints.maxWidth)
      ==> hints.minWidth <= r.width
    ensures hints.hasMinSize && hints.minHeight <= scr.height - scr.barHeight && (!hints.hasMaxSize || hints.minHeight <= hints.maxHeight)
      ==> hints.minHeight <= r.height
    // a size within all limits is kept
    ensures WidthWithinLimits(hints, scr, dims.width) ==> r.width == dims.width
    ensures HeightWithinLimits(hints, scr, dims.height) ==> r.height == dims.height
  {
    r := dims;
    if hints.hasMinSize {
      var minW, minH := hints.minWidth, hints.minHeight;
      r := r.SetWidthIf(minW, width => width < minW);
      r := r.SetHeightIf(minH, height => height < minH);
    }
    if hints.hasMaxSize {
      var maxW, maxH := hints.maxWidth, hints.maxHeight;
      r := r.SetWidthIf(maxW, width => width > maxW);
      r := r.SetHeightIf(maxH, height => height > maxH);
    }
    var minWin, minHin := MinWinWidth(scr), MinWinHeight(scr);
    r := r.SetWidthIf(minWin, width => width < minWin);
    r := r.SetHeightIf(minHin, height => height < minHin);
    var dw, dhb := scr.width, scr.height - scr.barHeight;
    r := r.SetWidthIf(dw, width => width > dw);
    r := r.SetHeightIf(dhb, height => height > dhb);
  }

  /** The four edges of the window outline an interactive resize can move. */
  datatype Side = Left | Right | Top | Bottom

  /** The order in which resize tests the edges; a tie goes to the later one. */
  function Rank(s: Side): nat {
    match s
    case Left => 0
    case Right => 1
    case Top => 2
    case Bottom => 3
  }

  /** The pointer lies on or inside the outline (borders included). */
  predicate InOutline(nd: Rect, px: int, py: int) {
    && nd.y + BorderWidth <= py <= nd.y + nd.height + BorderWidth
    && nd.x + BorderWidth <= px <= nd.x + nd.width + BorderWidth
  }

  /** The distance from the pointer to one edge of the outline, as the inward drag measures it. */
  function EdgeDistance(nd: Rect, px: int, py: int, s: Side): int {
    match s
    case Left => px - nd.x - BorderWidth
    case Right => nd.x + nd.width + BorderWidth - px
    case Top => py - nd.y - BorderWidth
    case Bottom => nd.y + nd.height + BorderWidth - py
  }

  /** s is a nearest edge, and every edge tested after it is strictly farther. */
  ghost predicate NearestEdge(nd: Rect, px: int, py: int, s: Side) {
    && (forall t: Side :: EdgeDistance(nd, px, py, s) <= EdgeDistance(nd, px, py, t))
    && (forall t: Side :: Rank(s) < Rank(t) ==> EdgeDistance(nd, px, py, s) < EdgeDistance(nd, px, py, t))
  }

  /**
   * The edge detection of one motion event in resize, as a relation between the outline
   * before (nd) and after (d) and the set of edges moved. Dragging outwards (the click
   * was inside the window) moves every edge the pointer has crossed; dragging inwards
   * moves only the edge nearest to the pointer, and only while the pointer is in the
   * outline. A moved left or top edge keeps the opposite edge where it was.
   */
  ghost predicate Dragged(nd: Rect, px: int, py: int, outwards: bool, d: Rect, moved: set<Side>) {
    && !(Left in moved && Right in moved) && !(Top in moved && Bottom in moved)
    && (Left !in moved && Right !in moved ==> d.x == nd.x && d.width == nd.width)
    && (Top !in moved && Bottom !in moved ==> d.y == nd.y && d.height == nd.height)
    && (Left in moved ==> d.x == px - BorderWidth && d.x + d.width == nd.x + nd.width)
    && (Top in moved ==> d.y == py - BorderWidth && d.y + d.height == nd.y + nd.height)
    && (Right in moved ==> d.x == nd.x)
    && (Bottom in moved ==> d.y == nd.y)
    // outwards: each crossed edge follows the pointer
    && (outwards ==> (Left in moved <==> px < nd.x + BorderWidth))
    && (outwards ==> (Right in moved <==> nd.x + BorderWidth <= px && px > nd.x + nd.width + BorderWidth))
    && (outwards ==> (Top in moved <==> py < nd.y + BorderWidth))
    && (outwards ==> (Bottom in moved <==> nd.y + BorderWidth <= py && py > nd.y + nd.height + BorderWidth))
    && (outwards && Right in moved ==> d.x + d.width == px - BorderWidth + 1)
    && (outwards && Bottom in moved ==> d.y + d.height == py - BorderWidth + 1)
    // inwards: the one nearest edge, inside the outline only
    && (!outwards ==> (moved != {} <==> InOutline(nd, px, py)))
    && (!outwards && moved != {} ==> exists s :: moved == {s} && NearestEdge(nd, px, py, s))
    && (!outwards && Right in moved ==> d.x + d.width == px - BorderWidth)
    && (!outwards && Bottom in moved ==> d.y + d.height == py - BorderWidth)
  }

  /** The edge detection of one motion event in resize: the edges moved and the outline after. */
  method DragEdges(nd: Rect, px: int, py: int, outwards: bool) returns (d: Rect, moved: set<Side>)
    ensures Dragged(nd, px, py, outwards, d, moved)
  {
    if outwards {
      d, moved := DragOutwards(nd, px, py);
    } else {
      d, moved := DragInwards(nd, px, py);
    }
  }

  /** DragEdges when the click was inside the window: every crossed edge follows the pointer. */
  method DragOutwards(nd: Rect, px: int, py: int) returns (d: Rect, moved: set<Side>)
    ensures !(Left in moved && Right in moved) && !(Top in moved && Bottom in moved)
    ensures Left !in moved && Right !in moved ==> d.x == nd.x && d.width == nd.width
    ensures Top !in moved && Bottom !in moved ==> d.y == nd.y && d.height == nd.height
    ensures Left in moved ==> d.x == px - BorderWidth && d.x + d.width == nd.x + nd.width
    ensures Top in moved ==> d.y == py - BorderWidth && d.y + d.height == nd.y + nd.height
    ensures Right in moved ==> d.x == nd.x && d.x + d.width == px - BorderWidth + 1
    ensures Bottom in moved ==> d.y == nd.y && d.y + d.height == py - BorderWidth + 1
    ensures Left in moved <==> px < nd.x + BorderWidth
    ensures Right in moved <==> nd.x + BorderWidth <= px && px > nd.x + nd.width + BorderWidth
    ensures Top in moved <==> py < nd.y + BorderWidth
    ensures Bottom in moved <==> nd.y + BorderWidth <= py && py > nd.y + nd.height + BorderWidth
  {
    d, moved := nd, {};
    if px < d.x + BorderWidth {
      d := d.AddToWidth(d.x + BorderWidth - px);
      d := d.SetX(px - BorderWidth);
      moved := moved + {Left};
    } else if px > d.x + d.width + BorderWidth {
      d := d.SetWidth((px - d.x - BorderWidth) + 1);
      moved := moved + {Right};
    }
    if py < d.y + BorderWidth {
      d := d.AddToHeight(d.y + BorderWidth - py);
      d := d.SetY(py - BorderWidth);
      moved := moved + {Top};
    } else if py > d.y + d.height + BorderWidth {
      d := d.SetHeight((py - d.y - BorderWidth) + 1);
      moved := moved + {Bottom};
    }
  }

  /** DragEdges when the click was outside the window: only the nearest edge follows, inside the outline. */
  method DragInwards(nd: Rect, px: int, py: int) returns (d: Rect, moved: set<Side>)
    ensures !(Left in moved && Right in moved) && !(Top in moved && Bottom in moved)
    ensures Left !in moved && Right !in moved ==> d.x == nd.x && d.width == nd.width
    ensures Top !in moved && Bottom !in moved ==> d.y == nd.y && d.height == nd.height
    ensures Left in moved ==> d.x == px - BorderWidth && d.x + d.width == nd.x + nd.width
    ensures Top in moved ==> d.y == py - BorderWidth && d.y + d.height == nd.y + nd.height
    ensures Right in moved ==> d.x == nd.x && d.x + d.width == px - BorderWidth
    ensures Bottom in moved ==> d.y == nd.y && d.y + d.height == py - BorderWidth
    ensures moved != {} <==> InOutline(nd, px, py)
    ensures moved != {} ==> exists s :: moved == {s} && NearestEdge(nd, px, py, s)
  {
    d, moved := nd, {};
    var aboveWin := py < d.y + BorderWidth;
    var belowWin := py > d.y + d.height + BorderWidth;
    var leftofWin := px < d.x + BorderWidth;
    var rightofWin := px > d.x + d.width + BorderWidth;
    var inWin := !aboveWin && !belowWin && !leftofWin && !rightofWin;
    if inWin {
      var fromLeft := px - d.x - BorderWidth;
      var fromRight := d.x + d.width + BorderWidth - px;
      var fromTop := py - d.y - BorderWidth;
      var fromBottom := d.y + d.height + BorderWidth - py;
      if fromLeft < fromRight && fromLeft < fromTop && fromLeft < fromBottom {
        d := d.SubtractFromWidth(px - d.x - BorderWidth);
        d := d.SetX(px - BorderWidth);
        moved := {Left};
        assert NearestEdge(nd, px, py, Left);
      } else if fromRight < fromTop && fromRight < fromBottom {
        d := d.SetWidth(px - d.x - BorderWidth);
        moved := {Right};
        assert NearestEdge(nd, px, py, Right);
      } else if fromTop < fromBottom {
        d := d.SubtractFromHeight(py - d.y - BorderWidth);
        d := d.SetY(py - BorderWidth);
        moved := {Top};
        assert NearestEdge(nd, px, py, Top);
      } else {
        d := d.SetHeight(py - d.y - BorderWidth);
        moved := {Bottom};
        assert NearestEdge(nd, px, py, Bottom);
      }
    }
  }

  /**
   * rc is the outline nd snapped to the increments after a drag that moved the edges in
   * `moved`: without resize increments, or on an axis no moved edge lies on, the outline
   * is kept; otherwise the size less the title bar is snapped to the grid, and an outline
   * moved by its left or top edge keeps its right or bottom edge. get_incsize's
   * out-parameters start at 0 on every motion event, so an axis with a zero increment
   * gets size 0.
   */
  ghost predicate SnappedOutline(nd: Rect, moved: set<Side>, hints: SizeHints, scr: Screen, rc: Rect) {
    && (hints.hasResizeInc && Left in moved ==> rc.x + rc.width == nd.x + nd.width)
    && (hints.hasResizeInc && Top in moved ==> rc.y + rc.height == nd.y + nd.height)
    && (!hints.hasResizeInc || (Left !in moved && Right !in moved) ==> rc.x == nd.x && rc.width == nd.width)
    && (!hints.hasResizeInc || (Top !in moved && Bottom !in moved) ==> rc.y == nd.y && rc.height == nd.height)
    && (Left !in moved ==> rc.x == nd.x)
    && (Top !in moved ==> rc.y == nd.y)
    && (hints.hasResizeInc && hints.widthInc != 0 && (Left in moved || Right in moved) ==>
        Snapped(rc.width, nd.width, BaseWidth(hints), hints.widthInc))
    && (hints.hasResizeInc && hints.heightInc != 0 && (Top in moved || Bottom in moved) ==>
        Snapped(rc.height - scr.barHeight, nd.height - scr.barHeight, BaseHeight(hints), hints.heightInc))
    && (hints.hasResizeInc && hints.widthInc == 0 && (Left in moved || Right in moved) ==> rc.width == 0)
    && (hints.hasResizeInc && hints.heightInc == 0 && (Top in moved || Bottom in moved) ==> rc.height == scr.barHeight)
  }

  /**
   * The increment snapping of one motion step (the snapping part of the resize motion
   * handler), computed with get_incsize on the outline less its title bar.
   */
  method SnapToIncrements(nd: Rect, moved: set<Side>, hints: SizeHints, scr: Screen) returns (rc: Rect)
    ensures SnappedOutline(nd, moved, hints, scr, rc)
    ensures hints.hasResizeInc && Left in moved ==> rc.x + rc.width == nd.x + nd.width
    ensures hints.hasResizeInc && Top in moved ==> rc.y + rc.height == nd.y + nd.height
    ensures !hints.hasResizeInc || (Left !in moved && Right !in moved) ==> rc.x == nd.x && rc.width == nd.width
    ensures !hints.hasResizeInc || (Top !in moved && Bottom !in moved) ==> rc.y == nd.y && rc.height == nd.height
    ensures Left !in moved ==> rc.x == nd.x
    ensures Top !in moved ==> rc.y == nd.y
    ensures hints.hasResizeInc && hints.widthInc != 0 && (Left in moved || Right in moved) ==>
      Snapped(rc.width, nd.width, BaseWidth(hints), hints.widthInc)
    ensures hints.hasResizeInc && hints.heightInc != 0 && (Top in moved || Bottom in moved) ==>
      Snapped(rc.height - scr.barHeight, nd.height - scr.barHeight, BaseHeight(hints), hints.heightInc)
    ensures hints.hasResizeInc && hints.widthInc == 0 && (Left in moved || Right in moved) ==> rc.width == 0
    ensures hints.hasResizeInc && hints.heightInc == 0 && (Top in moved || Bottom in moved) ==> rc.height == scr.barHeight
  {
    var newwidth, newheight := 0, 0;
    rc := nd;
    rc := rc.SubtractFromHeight(scr.barHeight);
    var inc := GetIncSize(hints, rc, newwidth, newheight, Pixels);
    if inc.applies {
      newwidth, newheight := inc.width, inc.height;
      if Left in moved {
        rc := rc.SetX((rc.x + rc.width) - newwidth);
        rc := rc.SetWidth(newwidth);
      } else if Right in moved {
        rc := rc.SetWidth(newwidth);
      }
      if Top in moved {
        rc := rc.SetY((rc.y + rc.height) - newheight);
        rc := rc.SetHeight(newheight);
      } else if Bottom in moved {
        rc := rc.SetHeight(newheight);
      }
    }
    rc := rc.AddToHeight(scr.barHeight);
  }

  /**
   * One MotionNotify of resize: while the pointer is over the taskbar nothing happens;
   * otherwise the edges are dragged, and if one moved the outline is snapped to the
   * increments and limited (limit_size). Returns the new dragged rectangle (newdims),
   * the outline shown (recalceddims) and the edges moved; outwards is
   * DraggingOutwards of the press that started the resize.
   */
  method ResizeMotion(nd: Rect, rc: Rect, px: int, py: int, outwards: bool, hints: SizeHints, scr: Screen)
    returns (nd': Rect, rc': Rect, moved: set<Side>)
    requires scr.Valid()
    ensures py < scr.barHeight ==> nd' == nd && rc' == rc && moved == {}
    ensures py >= scr.barHeight ==> Dragged(nd, px, py, outwards, nd', moved)
    ensures moved == {} ==> rc' == rc
    // an edge that did not move leaves the outline's left or top where the drag put it
    ensures moved != {} && Left !in moved ==> rc'.x == nd'.x
    ensures moved != {} && Top !in moved ==> rc'.y == nd'.y
    ensures moved != {} ==> rc'.width <= scr.width && rc'.height <= scr.height - scr.barHeight
    ensures moved != {} && MinWinWidth(scr) <= scr.width ==> MinWinWidth(scr) <= rc'.width
    ensures moved != {} && MinWinHeight(scr) <= scr.height - scr.barHeight ==> MinWinHeight(scr) <= rc'.height
    // the outline is the dragged rectangle snapped to the increments and then limited
    ensures moved != {} ==> exists s :: SnappedOutline(nd', moved, hints, scr, s) && rc' == Limited(hints, scr, s)
    ensures moved != {} && !hints.hasResizeInc ==> rc' == Limited(hints, scr, nd')
    ensures
      && moved != {} && !hints.hasResizeInc
      && WidthWithinLimits(hints, scr, nd'.width) && HeightWithinLimits(hints, scr, nd'.height)
      ==> rc' == nd'
  {
    nd', rc', moved := nd, rc, {};
    if py >= scr.barHeight {
      nd', moved := DragEdges(nd, px, py, outwards);
      if moved != {} {
        var snapped := SnapToIncrements(nd', moved, hints, scr);
        rc' := LimitSize(hints, scr, snapped);
      }
    }
  }

  /** The outline resize starts from: the client rectangle with its title bar. */
  function ResizeStart(client: Rect, scr: Screen): (nd: Rect)
    ensures nd.x == client.x && nd.width == client.width
    ensures nd.y + nd.height == client.y + client.height
    ensures nd.height - client.height == scr.barHeight
  {
    Rect(client.x, client.y - scr.barHeight, client.width, client.height + scr.barHeight)
  }

  /**
   * The direction resize drags in, decided once at the press: outwards when the press
   * (x, y) lies strictly inside the client rectangle with its title bar, by more than
   * the border on every side; inwards otherwise. A press that drags outwards lies in
   * the starting outline.
   */
  function DraggingOutwards(client: Rect, x: int, y: int, scr: Screen): (outwards: bool)
    ensures outwards ==> InOutline(ResizeStart(client, scr), x, y)
  {
    && x > client.x + BorderWidth
    && x < (client.x + client.width) - BorderWidth
    && y > (client.y - scr.barHeight) + BorderWidth
    && y < (client.y + client.height) - BorderWidth
  }

  /**
   * A motion back at the press point of an outward drag moves no edge: the outline
   * changes only once the pointer leaves the frame.
   */
  lemma PressPointMovesNothing(client: Rect, x: int, y: int, scr: Screen, d: Rect, moved: set<Side>)
    requires DraggingOutwards(client, x, y, scr)
    requires Dragged(ResizeStart(client, scr), x, y, true, d, moved)
    ensures moved == {} && d == ResizeStart(client, scr)
  {
    var nd := ResizeStart(client, scr);
    assert Left !in moved && Right !in moved && Top !in moved && Bottom !in moved;
    assert forall s: Side :: s !in moved by {
      forall s: Side ensures s !in moved { match s case Left => case Right => case Top => case Bottom => }
    }
  }

  /** The client rectangle resize commits on release: the outline without its title bar. */
  function ResizeCommit(rc: Rect, scr: Screen): (client: Rect)
    ensures client.x == rc.x && client.width == rc.width
    ensures client.y + client.height == rc.y + rc.height
  {
    Rect(rc.x, rc.y + scr.barHeight, rc.width, rc.height - scr.barHeight)
  }

  /** A resize released without any effective motion gives the client back its rectangle. */
  lemma ResizeWithoutMotion(client: Rect, scr: Screen)
    ensures ResizeCommit(ResizeStart(client, scr), scr) == client
  {
  }

  /** Client::move on a MotionNotify: the window follows the pointer by the same delta. */
  function MoveTo(start: Rect, mouseX: int, mouseY: int, px: int, py: int): (r: Rect)
    ensures r.x - start.x == px - mouseX && r.y - start.y == py - mouseY
    ensures r.width == start.width && r.height == start.height
  {
    start.(x := start.x + (px - mouseX), y := start.y + (py - mouseY))
  }

  /** A move that returns the pointer to where it started leaves the window where it was. */
  lemma MoveBackIsIdentity(start: Rect, mouseX: int, mouseY: int)
    ensures MoveTo(start, mouseX, mouseY, mouseX, mouseY) == start
  {
  }

  /**
   * The geometry toggleFullscreen gives a client going fullscreen: the frame covers the
   * screen below the taskbar; the client window fills it, or, when the maximum size is
   * smaller, is only that large. With resize increments the maximum size hint is first
   * overwritten by the screen size snapped to the increments (get_incsize writes into
   * the hint); no other hint changes.
   */
  ghost predicate FullscreenFit(hints: SizeHints, scr: Screen, r: Rect, hints': SizeHints) {
    var maxwinwidth, maxwinheight := scr.width, scr.height - scr.barHeight;
    var inc := GetIncSize(hints, Rect(0, 0, maxwinwidth, maxwinheight), hints.maxWidth, hints.maxHeight, Pixels);
    && r.x == -BorderWidth && r.y == scr.barHeight - BorderWidth
    && r.width <= maxwinwidth && r.height <= maxwinheight
    && hints' == hints.(maxWidth := hints'.maxWidth, maxHeight := hints'.maxHeight)
    && (!hints.hasResizeInc ==> hints' == hints)
    && (hints.hasResizeInc ==> hints'.maxWidth == inc.width && hints'.maxHeight == inc.height)
    && (!hints.hasMaxSize && !hints.hasResizeInc ==> r.width == maxwinwidth && r.height == maxwinheight)
    && (hints.hasMaxSize || hints.hasResizeInc ==>
          && r.width == (if hints'.maxWidth < maxwinwidth then hints'.maxWidth else maxwinwidth)
          && r.height == (if hints'.maxHeight < maxwinheight then hints'.maxHeight else maxwinheight))
  }

  /**
   * toggleFullscreen's layout for a client going fullscreen (FullscreenFit); the client
   * window is centred in the frame. Returns the client rectangle, the offset of the
   * client window inside the frame, and the possibly rewritten hints.
   */
  method FullscreenLayout(hints: SizeHints, scr: Screen) returns (r: Rect, xoffset: int, yoffset: int, hints': SizeHints)
    requires scr.Valid()
    ensures FullscreenFit(hints, scr, r, hints')
    ensures 0 <= xoffset && 2 * xoffset + r.width <= scr.width < 2 * xoffset + r.width + 2
    ensures 0 <= yoffset && 2 * yoffset + r.height <= scr.height - scr.barHeight < 2 * yoffset + r.height + 2
  {
    xoffset, yoffset := 0, 0;
    var maxwinwidth := scr.width;
    var maxwinheight := scr.height - scr.barHeight;
    hints' := hints;
    r := Rect(0 - BorderWidth, scr.barHeight - BorderWidth, maxwinwidth, maxwinheight);
    if hints'.hasMaxSize || hints'.hasResizeInc {
      if hints'.hasResizeInc {
        var maxwinsize := Rect(xoffset, yoffset, maxwinwidth, maxwinheight);
        var inc := GetIncSize(hints', maxwinsize, hints'.maxWidth, hints'.maxHeight, Pixels);
        hints' := hints'.(maxWidth := inc.width, maxHeight := inc.height);
      }
      if hints'.maxWidth < maxwinwidth {
        r := r.SetWidth(hints'.maxWidth);
        xoffset := (maxwinwidth - r.width) / 2;
      }
      if hints'.maxHeight < maxwinheight {
        r := r.SetHeight(hints'.maxHeight);
        yoffset := (maxwinheight - r.height) / 2;
      }
    }
  }
}
