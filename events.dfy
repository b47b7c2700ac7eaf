/**
 * The decisions of the X event handlers (events.cc) and of the X error handler
 * (misc.cc, handle_xerror): each looks the event's window up in the registry and
 * makes one small state transition. The events arrive as parameters.
 */
module Events {
  import opened Wrappers
  import opened Geometry
  import opened Placement
  import opened Registry
  import opened TaskbarState
  import opened Manage
  import opened NewClient

  /** Replaces a client record by one the registry invariant does not tell apart. */
  method SetRecord(ct: ClientTracker, c: ClientId, rec: Client)
    requires ct.Valid() && c in ct.table && rec.window == ct.table[c].window
    requires rec.hidden == ct.table[c].hidden && rec.focusOrder == ct.table[c].focusOrder
    modifies ct
    ensures ct.Valid()
    ensures ct.table == old(ct.table)[c := rec]
    ensures ct.clients == old(ct.clients) && ct.focused == old(ct.focused) && ct.topmost == old(ct.topmost)
    ensures ct.fullscreen == old(ct.fullscreen) && ct.focusCount == old(ct.focusCount)
    ensures ct.wmProps == old(ct.wmProps) && ct.fsPrevDims == old(ct.fsPrevDims) && ct.nextId == old(ct.nextId)
  {
    RecordUpdateConsistent(ct.clients, ct.table, ct.focused, ct.topmost, ct.fullscreen, ct.focusCount, ct.wmProps, ct.nextId, c, rec);
    ct.table := ct.table[c := rec];
  }

  /**
   * handle_unmap_event: an UnmapNotify the manager caused itself (the client's unmap
   * count is positive) is consumed by counting down; any other unmap of a managed
   * window withdraws the client. Windows not managed are ignored.
   */
  method HandleUnmap(ct: ClientTracker, w: Window) returns (c: Option<ClientId>)
    requires ct.Valid()
    modifies ct
    ensures ct.Valid()
    ensures c == Lookup(old(ct.clients), old(ct.table), w, ByWindow)
    ensures c.None? ==> unchanged(ct)
    ensures c.Some? && old(ct.table[c.value].ignoreUnmap) > 0 ==>
      && ct.table == old(ct.table)[c.value := old(ct.table[c.value]).(ignoreUnmap := old(ct.table[c.value].ignoreUnmap) - 1)]
      && ct.clients == old(ct.clients) && ct.wmProps == old(ct.wmProps)
      && ct.focused == old(ct.focused) && ct.topmost == old(ct.topmost) && ct.fullscreen == old(ct.fullscreen)
      && ct.focusCount == old(ct.focusCount) && ct.fsPrevDims == old(ct.fsPrevDims) && ct.nextId == old(ct.nextId)
    ensures c.Some? && old(ct.table[c.value].ignoreUnmap) == 0 ==>
      && ct.clients == Without(old(ct.clients), c.value) && ct.table.Keys == old(ct.table.Keys) - {c.value}
      && ct.wmProps == SetWMState(old(ct.wmProps), w, WithdrawnState)
      && ct.fullscreen == (if old(ct.fullscreen) == Some(c.value) then None else old(ct.fullscreen))
      && ct.topmost == old(ct.topmost) && ct.fsPrevDims == old(ct.fsPrevDims) && ct.nextId == old(ct.nextId)
    ensures c.Some? && old(ct.table[c.value].ignoreUnmap) == 0 && old(ct.focused) != Some(c.value) ==>
      ct.table == old(ct.table) - {c.value} && ct.focused == old(ct.focused) && ct.focusCount == old(ct.focusCount)
    ensures c.Some? && old(ct.table[c.value].ignoreUnmap) == 0 && old(ct.focused) == Some(c.value) ==>
      && ct.focused == PrevFocused(ct.clients, old(ct.table) - {c.value})
      && ct.table == (if ct.focused.None? then old(ct.table) - {c.value}
                      else Restamp(old(ct.table) - {c.value}, ct.focused.value, ct.focusCount))
      && ct.focusCount == if ct.focused.None? then old(ct.focusCount) else old(ct.focusCount) + 1
  {
    c := ct.Find(w, ByWindow);
    if c.Some? {
      var rec := ct.table[c.value];
      if rec.ignoreUnmap > 0 {
        SetRecord(ct, c.value, rec.(ignoreUnmap := rec.ignoreUnmap - 1));
      } else {
        ct.Remove(c.value, Withdraw);
      }
    }
  }

  /**
   * handle_destroy_event: a managed window that was destroyed is withdrawn, whatever its
   * unmap count; windows not managed are ignored.
   */
  method HandleDestroy(ct: ClientTracker, w: Window) returns (c: Option<ClientId>)
    requires ct.Valid()
    modifies ct
    ensures ct.Valid()
    ensures c == Lookup(old(ct.clients), old(ct.table), w, ByWindow)
    ensures c.None? ==> unchanged(ct)
    ensures c.Some? ==>
      && ct.clients == Without(old(ct.clients), c.value) && ct.table.Keys == old(ct.table.Keys) - {c.value}
      && ct.wmProps == SetWMState(old(ct.wmProps), w, WithdrawnState)
      && ct.fullscreen == (if old(ct.fullscreen) == Some(c.value) then None else old(ct.fullscreen))
      && ct.topmost == old(ct.topmost) && ct.fsPrevDims == old(ct.fsPrevDims) && ct.nextId == old(ct.nextId)
    ensures c.Some? && old(ct.focused) != Some(c.value) ==>
      ct.table == old(ct.table) - {c.value} && ct.focused == old(ct.focused) && ct.focusCount == old(ct.focusCount)
    ensures c.Some? && old(ct.focused) == Some(c.value) ==>
      && ct.focused == PrevFocused(ct.clients, old(ct.table) - {c.value})
      && ct.table == (if ct.focused.None? then old(ct.table) - {c.value}
                      else Restamp(old(ct.table) - {c.value}, ct.focused.value, ct.focusCount))
      && ct.focusCount == if ct.focused.None? then old(ct.focusCount) else old(ct.focusCount) + 1
  {
    c := ct.Find(w, ByWindow);
    if c.Some? {
      ct.Remove(c.value, Withdraw);
    }
  }

  /**
   * handle_map_request: a managed window asking to be mapped is de-iconified; any other
   * window becomes a new client (its attributes, hints and the pointer position are the
   * ones makeNewClient would read). The client concerned is returned.
   */
  method HandleMapRequest(ct: ClientTracker, w: Window, frame: Window, attr: Rect, viewable: bool,
                          trans: Window, hints: SizeHints, stateHint: Option<int>,
                          mouseX: int, mouseY: int, scr: Screen) returns (c: ClientId, created: bool)
    requires ct.Valid() && scr.Valid()
    modifies ct
    ensures ct.Valid()
    ensures created <==> Lookup(old(ct.clients), old(ct.table), w, ByWindow).None?
    ensures !created ==> Some(c) == Lookup(old(ct.clients), old(ct.table), w, ByWindow)
    ensures !created ==> ct.clients == old(ct.clients) && !ct.table[c].hidden
    // a managed window: de-iconified if hidden, otherwise nothing changes
    ensures !created && !old(ct.table[c].hidden) ==> unchanged(ct)
    ensures !created && old(ct.table[c].hidden) ==>
      && ct.table == old(ct.table)[c := old(ct.table[c]).(hidden := false)]
      && ct.topmost == Some(c)
      && ct.wmProps == SetWMState(old(ct.wmProps), w, NormalState)
    ensures !created ==>
      && ct.focused == old(ct.focused) && ct.focusCount == old(ct.focusCount) && ct.fullscreen == old(ct.fullscreen)
      && ct.fsPrevDims == old(ct.fsPrevDims) && ct.nextId == old(ct.nextId)
    // a new window: a new client at the tail, as makeNewClient builds it
    ensures created ==> c == old(ct.nextId) && ct.clients == old(ct.clients) + [c] && ct.table[c].window == w
    ensures created ==>
      && ct.table.Keys == old(ct.table.Keys) + {c}
      && (forall k :: k in old(ct.table) ==> ct.table[k] == old(ct.table[k]))
      && ct.table[c].frame == frame && ct.table[c].trans == trans && ct.table[c].hints == hints
      && !ct.table[c].wasHidden && ct.table[c].ignoreUnmap == (if ct.table[c].hidden && viewable then 2 else 1)
      && OnScreen(Gravitate(ct.table[c].rect, hints, scr, RemoveGravity), scr, false)
      && Fixed(if viewable then attr else InitPos(attr, hints, mouseX, mouseY, scr), scr, false,
               Gravitate(ct.table[c].rect, hints, scr, RemoveGravity))
      && ct.wmProps == (if viewable then old(ct.wmProps) else SetWMState(old(ct.wmProps), w, InitialState(stateHint)))
      && (ct.table[c].hidden <==> StateOf(ct.wmProps, w) == IconicState)
      && ct.topmost == (if ct.table[c].hidden then old(ct.topmost) else Some(c))
      && ct.fullscreen == old(ct.fullscreen) && ct.fsPrevDims == old(ct.fsPrevDims)
    ensures created ==>
      ct.focused == (if old(ct.focused).None? then Some(c) else old(ct.focused))
      && ct.focusCount == (if old(ct.focused).None? then old(ct.focusCount) + 1 else old(ct.focusCount))
  {
    var found := ct.Find(w, ByWindow);
    if found.Some? {
      c, created := found.value, false;
      Unhide(ct, c);
    } else {
      c := MakeNewClient(ct, w, frame, attr, viewable, trans, hints, stateHint, mouseX, mouseY, scr);
      created := true;
    }
  }

  /**
   * handle_client_message: a WM_CHANGE_STATE request (section 4.1.4 of the ICCCM) of
   * format 32 asking for IconicState hides the managed client it names; any other
   * message, and any message about a window not managed, is ignored.
   */
  method HandleClientMessage(ct: ClientTracker, w: Window, messageType: nat, format: int, data0: int, wmChangeState: nat)
    returns (c: Option<ClientId>, iconify: bool)
    requires ct.Valid()
    modifies ct
    ensures ct.Valid()
    ensures c == Lookup(old(ct.clients), old(ct.table), w, ByWindow)
    ensures iconify <==> c.Some? && messageType == wmChangeState && format == 32 && data0 == IconicState
    ensures !iconify ==> unchanged(ct)
    ensures iconify ==> ct.clients == old(ct.clients) && ct.table.Keys == old(ct.table.Keys)
    ensures iconify ==> ct.table[c.value].hidden && StateOf(ct.wmProps, w) == IconicState
    ensures iconify && !old(ct.table[c.value].hidden) ==>
      && ct.focused == PrevFocused(old(ct.clients), old(ct.table)[c.value := HiddenRecord(old(ct.table[c.value]))])
      && ct.focused == PrevFocused(ct.clients, ct.table)
      && ct.focusCount == (if ct.focused == old(ct.focused) then old(ct.focusCount) else old(ct.focusCount) + 1)
      && ct.topmost == (if old(ct.topmost) == c then None else old(ct.topmost))
      && ct.fullscreen == old(ct.fullscreen) && ct.fsPrevDims == old(ct.fsPrevDims) && ct.nextId == old(ct.nextId)
    ensures iconify && old(ct.table[c.value].hidden) ==> unchanged(ct)
  {
    c := ct.Find(w, ByWindow);
    iconify := c.Some? && messageType == wmChangeState && format == 32 && data0 == IconicState;
    if iconify {
      ghost var t0, f0 := ct.table, ct.focused;
      Hide(ct, c.value);
      if !t0[c.value].hidden {
        HideKeepsFlags(t0, ct.table, c.value, if ct.focused.Some? && ct.focused != f0 then ct.focused else None, ct.focusCount);
      }
    }
  }

  /** One XConfigureWindow call: the window, the value mask and the values it carries. */
  datatype ConfigureCall = ConfigureWindow(window: Window, mask: ValueMask, changes: Rect)

  /**
   * The masked fields of a ConfigureRequest copied into a rectangle, through the
   * conditional setters: each field takes the requested value exactly when its bit is set.
   */
  function MaskedCopy(r: Rect, req: Rect, mask: ValueMask): (q: Rect)
    ensures q.x == if CWX in mask then req.x else r.x
    ensures q.y == if CWY in mask then req.y else r.y
    ensures q.width == if CWWidth in mask then req.width else r.width
    ensures q.height == if CWHeight in mask then req.height else r.height
  {
    r.SetXIf(req.x, _ => CWX in mask)
     .SetYIf(req.y, _ => CWY in mask)
     .SetWidthIf(req.width, _ => CWWidth in mask)
     .SetHeightIf(req.height, _ => CWHeight in mask)
  }

  /**
   * The geometry a managed client ends with after a ConfigureRequest: with gravity
   * taken off, the new rectangle is what fixPosition makes of the masked copy, so it is
   * on screen; the final mask holds the request's
   * bits plus a bit for each field fixPosition moved away from the masked copy.
   */
  ghost predicate Refixed(old_: Rect, new_: Rect, hints: SizeHints, req: Rect, mask: ValueMask, m: ValueMask, scr: Screen)
    requires scr.Valid()
  {
    var q := MaskedCopy(Gravitate(old_, hints, scr, RemoveGravity), req, mask);
    var f := Gravitate(new_, hints, scr, RemoveGravity);
    && Fixed(q, scr, false, f)
    && OnScreen(f, scr, false)
    && (MinWinWidth(scr) <= q.width <= scr.width ==> f.width == q.width)
    && mask <= m && m - mask <= {CWX, CWY, CWWidth, CWHeight}
    && (CWX in m <==> CWX in mask || f.x != q.x - BorderWidth)
    && (CWY in m <==> CWY in mask || f.y != q.y - BorderWidth)
    && (CWWidth in m <==> CWWidth in mask || f.width != q.width)
    && (CWHeight in m <==> CWHeight in mask || f.height != q.height)
  }

  /** The frame around a client rectangle: a title bar higher and a title bar taller. */
  function FrameGeometry(r: Rect, scr: Screen): (f: Rect)
    ensures f.x == r.x && f.width == r.width
    ensures f.y + f.height == r.y + r.height && f.y + scr.barHeight == r.y
  {
    Rect(r.x, r.y - scr.barHeight, r.width, r.height + scr.barHeight)
  }

  /**
   * The part of handle_configure_request that computes a managed client's new
   * rectangle: degravitate, copy the masked fields, refix (extending the mask), gravitate.
   */
  method RefixRequest(r: Rect, hints: SizeHints, req: Rect, mask: ValueMask, scr: Screen) returns (g: Rect, m: ValueMask)
    requires scr.Valid()
    ensures Refixed(r, g, hints, req, mask, m, scr)
  {
    var d := Gravitate(r, hints, scr, RemoveGravity);
    if CWX in mask {
      d := d.SetX(req.x);
    }
    if CWY in mask {
      d := d.SetY(req.y);
    }
    if CWWidth in mask {
      d := d.SetWidth(req.width);
    }
    if CWHeight in mask {
      d := d.SetHeight(req.height);
    }
    var f;
    f, m := RefixPosition(d, mask, scr, false);
    GravitateRoundTrip(f, hints, scr);
    g := Gravitate(f, hints, scr, ApplyGravity);
  }

  /**
   * handle_configure_request, for a request about window w with value mask `mask` and
   * requested geometry `req`. For the fullscreen client only the rectangle it returns to
   * takes the masked fields, and nothing is sent. For another managed client the masked
   * fields replace the degravitated client geometry, which is fixed on screen (adding a
   * bit to the mask for each field that moved) and gravitated again; the frame and the
   * client window are then configured with the final mask. A window not managed is
   * configured exactly as requested. The calls sent are returned in order.
   */
  method HandleConfigureRequest(ct: ClientTracker, w: Window, mask: ValueMask, req: Rect, scr: Screen)
    returns (c: Option<ClientId>, calls: seq<ConfigureCall>)
    requires ct.Valid() && scr.Valid()
    modifies ct
    ensures ct.Valid()
    ensures c == Lookup(old(ct.clients), old(ct.table), w, ByWindow)
    ensures ct.clients == old(ct.clients) && ct.focused == old(ct.focused) && ct.topmost == old(ct.topmost)
    ensures ct.fullscreen == old(ct.fullscreen) && ct.wmProps == old(ct.wmProps) && ct.focusCount == old(ct.focusCount)
    ensures c.None? ==> ct.table == old(ct.table) && ct.fsPrevDims == old(ct.fsPrevDims) && calls == [ConfigureWindow(w, mask, req)]
    // the fullscreen client: only the saved rectangle changes
    ensures c.Some? && c == old(ct.fullscreen) ==>
      ct.fsPrevDims == MaskedCopy(old(ct.fsPrevDims), req, mask) && ct.table == old(ct.table) && calls == []
    // another managed client: only its rectangle changes, and it ends up on screen
    ensures c.Some? && c != old(ct.fullscreen) ==>
      && ct.fsPrevDims == old(ct.fsPrevDims)
      && ct.table == old(ct.table)[c.value := old(ct.table[c.value]).(rect := ct.table[c.value].rect)]
    ensures c.Some? && c != old(ct.fullscreen) ==>
      && |calls| == 2
      && Refixed(old(ct.table[c.value].rect), ct.table[c.value].rect, ct.table[c.value].hints, req, mask, calls[1].mask, scr)
      && calls[0] == ConfigureWindow(ct.table[c.value].frame, calls[1].mask, FrameGeometry(ct.table[c.value].rect, scr))
      && calls[1] == ConfigureWindow(w, calls[1].mask, Rect(0, scr.barHeight, req.width, req.height))
  {
    c := ct.Find(w, ByWindow);
    if ct.fullscreen.Some? && c == ct.fullscreen {
      ct.fsPrevDims := MaskedCopy(ct.fsPrevDims, req, mask);
      calls := [];
      return;
    }
    var m := mask;
    var wc: Rect;
    if c.Some? {
      var rec := ct.table[c.value];
      var g;
      g, m := RefixRequest(rec.rect, rec.hints, req, mask, scr);
      SetRecord(ct, c.value, rec.(rect := g));
      calls := [ConfigureWindow(rec.frame, m, FrameGeometry(g, scr))];
      wc := Rect(0, scr.barHeight, req.width, req.height);
    } else {
      calls := [];
      wc := req;
    }
    calls := calls + [ConfigureWindow(w, m, wc)];
  }

  /**
   * handle_enter_event: entering the taskbar marks the pointer inside it and shows it;
   * entering anything else marks the pointer outside, and the taskbar is then shown
   * exactly when no client is fullscreen. A redraw is due when the showing flag changed.
   * For a managed frame the buttons are grabbed again (the client is returned).
   */
  method HandleEnter(ct: ClientTracker, tb: TaskbarFlags, w: Window, taskbarWindow: Window)
    returns (redraw: bool, grab: Option<ClientId>)
    requires ct.Valid()
    modifies tb
    ensures w == taskbarWindow ==> tb.inside && tb.showing && grab.None?
    ensures w != taskbarWindow ==>
      !tb.inside && (tb.showing <==> ct.fullscreen.None?) && grab == Lookup(ct.clients, ct.table, w, ByFrame)
    ensures redraw <==> tb.showing != old(tb.showing)
  {
    redraw, grab := false, None;
    if w == taskbarWindow {
      tb.inside := true;
      if !tb.showing {
        tb.showing := true;
        redraw := true;
      }
    } else {
      tb.inside := false;
      if ct.fullscreen.Some? {
        if tb.showing {
          tb.showing := false;
          redraw := true;
        }
      } else {
        if !tb.showing {
          tb.showing := true;
          redraw := true;
        }
      }
      grab := ct.Find(w, ByFrame);
    }
  }

  /** What an Expose event redraws. */
  datatype Redraw = NoRedraw | RedrawTaskbar | RedrawFrame(client: ClientId)

  /**
   * handle_expose_event: only the last Expose of a series (count 0) redraws, the taskbar
   * or the managed frame exposed; exposures of other windows are ignored.
   */
  method HandleExpose(ct: ClientTracker, w: Window, count: int, taskbarWindow: Window) returns (r: Redraw)
    requires ct.Valid()
    ensures r != NoRedraw ==> count == 0
    ensures w == taskbarWindow ==> r == if count == 0 then RedrawTaskbar else NoRedraw
    ensures w != taskbarWindow && count == 0 ==>
      r == match Lookup(ct.clients, ct.table, w, ByFrame) case None => NoRedraw case Some(c) => RedrawFrame(c)
  {
    if w == taskbarWindow {
      r := if count == 0 then RedrawTaskbar else NoRedraw;
    } else {
      var c := ct.Find(w, ByFrame);
      r := if c.Some? && count == 0 then RedrawFrame(c.value) else NoRedraw;
    }
  }

  /** X protocol error code BadAccess. */
  const BadAccess: int := 10

  /**
   * handle_xerror: BadAccess on the root window means another manager runs, and the
   * manager exits (fatal); otherwise a managed window the error names is withdrawn.
   */
  method HandleXError(ct: ClientTracker, errorCode: int, resource: Window, root: Window)
    returns (fatal: bool, c: Option<ClientId>)
    requires ct.Valid()
    modifies ct
    ensures ct.Valid()
    ensures fatal <==> errorCode == BadAccess && resource == root
    ensures c == Lookup(old(ct.clients), old(ct.table), resource, ByWindow)
    ensures fatal || c.None? ==> unchanged(ct)
    ensures !fatal && c.Some? ==>
      && ct.clients == Without(old(ct.clients), c.value) && ct.table.Keys == old(ct.table.Keys) - {c.value}
      && ct.wmProps == SetWMState(old(ct.wmProps), resource, WithdrawnState)
      && ct.fullscreen == (if old(ct.fullscreen) == Some(c.value) then None else old(ct.fullscreen))
      && ct.topmost == old(ct.topmost) && ct.fsPrevDims == old(ct.fsPrevDims) && ct.nextId == old(ct.nextId)
    ensures !fatal && c.Some? && old(ct.focused) != Some(c.value) ==>
      ct.table == old(ct.table) - {c.value} && ct.focused == old(ct.focused) && ct.focusCount == old(ct.focusCount)
    ensures !fatal && c.Some? && old(ct.focused) == Some(c.value) ==>
      && ct.focused == PrevFocused(ct.clients, old(ct.table) - {c.value})
      && ct.table == (if ct.focused.None? then old(ct.table) - {c.value}
                      else Restamp(old(ct.table) - {c.value}, ct.focused.value, ct.focusCount))
      && ct.focusCount == if ct.focused.None? then old(ct.focusCount) else old(ct.focusCount) + 1
  {
    c := ct.Find(resource, ByWindow);
    fatal := errorCode == BadAccess && resource == root;
    if fatal {
      return;
    }
    if c.Some? {
      ct.Remove(c.value, Withdraw);
    }
  }

  /** What boxClicked reports: UINT_MAX (outside the window) or the box counted from the right. */
  datatype BoxHit = Outside | Box(n: nat)

  /**
   * Client::boxClicked: x is measured from the client's left edge; the title-bar boxes
   * are BARHEIGHT - BORDERWIDTH pixels wide and are counted from the right edge, so
   * box 0 is the rightmost; a point beyond the right edge is outside.
   */
  function BoxClicked(width: int, x: int, scr: Screen): (h: BoxHit)
    requires scr.Valid()
    ensures h == Outside <==> x > width
    ensures h.Box? ==> h.n * (scr.barHeight - BorderWidth) <= width - x < (h.n + 1) * (scr.barHeight - BorderWidth)
  {
    var pixFromRight := width - x;
    if pixFromRight < 0 then Outside else Box(pixFromRight / (scr.barHeight - BorderWidth))
  }

  /** The three title-bar buttons, right to left. */
  datatype Button = CloseButton | ToggleDepthButton | HideButton

  /** Box 0 closes, box 1 raises or lowers, box 2 hides; further left is the bar itself. */
  function ButtonAt(h: BoxHit): (b: Option<Button>)
    ensures b.Some? <==> h.Box? && h.n <= 2
  {
    match h
    case Box(0) => Some(CloseButton)
    case Box(1) => Some(ToggleDepthButton)
    case Box(2) => Some(HideButton)
    case _ => None
  }

  /** DEF_DBLCLKTIME: the longest gap, in milliseconds, between the clicks of a double click. */
  const DoubleClickTime: nat := 400

  /** X timestamps: an unsigned long of 64 bits. */
  const TimeModulus: nat := 0x1_0000_0000_0000_0000
  type Time = t: nat | t < TimeModulus

  /** The unsigned difference now - since, wrapping round. */
  function Elapsed(now: Time, since: Time): (d: Time)
    ensures now >= since ==> d == now - since
    ensures now < since ==> d == now - since + TimeModulus
  {
    (now - since) % TimeModulus
  }

  /**
   * The static state of handle_windowbar_click: the client clicked last in its title
   * bar (outside the buttons) and the time of that click.
   */
  class ClickLatch {
    var firstClick: Option<ClientId>
    var firstTime: Time

    constructor ()
      ensures firstClick == None && firstTime == 0
    {
      firstClick, firstTime := None, 0;
    }

    /**
     * A title-bar click on client c (not on a button) at time `now`: a second click on the
     * same client within DEF_DBLCLKTIME raises or lowers it and empties the latch, so that
     * a third click does not count again; any other click is remembered. The time is
     * always recorded.
     */
    method TitleBarClick(ct: ClientTracker, c: ClientId, now: Time) returns (double: bool)
      requires ct.Valid() && c in ct.table
      modifies this, ct
      ensures double <==> old(firstClick) == Some(c) && Elapsed(now, old(firstTime)) < DoubleClickTime
      ensures firstClick == if double then None else Some(c)
      ensures firstTime == now
      ensures double ==> ct.topmost == if old(ct.topmost) == Some(c) then None else Some(c)
      ensures !double ==> ct.topmost == old(ct.topmost)
      ensures ct.clients == old(ct.clients) && ct.table == old(ct.table) && ct.focused == old(ct.focused)
      ensures ct.fullscreen == old(ct.fullscreen) && ct.focusCount == old(ct.focusCount) && ct.wmProps == old(ct.wmProps)
      ensures ct.fsPrevDims == old(ct.fsPrevDims) && ct.nextId == old(ct.nextId)
      ensures ct.Valid()
    {
      double := firstClick == Some(c) && Elapsed(now, firstTime) < DoubleClickTime;
      if double {
        RaiseLower(ct, c);
        firstClick := None;
      } else {
        firstClick := Some(c);
      }
      firstTime := now;
    }
  }

  /**
   * The Button1 branch of handle_button_press for a press on window w at (x, y) in the
   * window's coordinates: a managed frame is focused (click to focus); a press in its
   * title bar, unless the client is fullscreen, is hit-tested against the boxes. A press
   * on a button starts the grab loop that decides on release (returned as the hit); a
   * press on the bar itself goes through the double-click latch, and whether it
   * completed a double click is returned.
   */
  method ButtonPressOnFrame(ct: ClientTracker, latch: ClickLatch, w: Window, x: int, y: int, now: Time, scr: Screen)
    returns (c: Option<ClientId>, hit: Option<BoxHit>, double: bool)
    requires ct.Valid() && scr.Valid()
    modifies ct, latch
    ensures ct.Valid()
    ensures c == Lookup(old(ct.clients), old(ct.table), w, ByFrame)
    ensures c.None? ==> unchanged(ct) && unchanged(latch) && hit.None?
    ensures c.Some? ==> ct.focused == c && ct.clients == old(ct.clients) && ct.table.Keys == old(ct.table.Keys)
    // click to focus: a client not yet focused is stamped with the new counter value
    ensures c.Some? && c == old(ct.focused) ==> ct.table == old(ct.table) && ct.focusCount == old(ct.focusCount)
    ensures c.Some? && c != old(ct.focused) ==>
      ct.focusCount == old(ct.focusCount) + 1 && ct.table == Restamp(old(ct.table), c.value, ct.focusCount)
    ensures ct.fullscreen == old(ct.fullscreen) && ct.wmProps == old(ct.wmProps)
    ensures ct.fsPrevDims == old(ct.fsPrevDims) && ct.nextId == old(ct.nextId)
    // the topmost token moves only on a double click in the bar
    ensures double <==>
      hit.Some? && hit.value.Box? && hit.value.n > 2
      && old(latch.firstClick) == c && Elapsed(now, old(latch.firstTime)) < DoubleClickTime
    ensures double ==> ct.topmost == (if old(ct.topmost) == c then None else c) && latch.firstClick.None?
    ensures !double ==> ct.topmost == old(ct.topmost)
    ensures hit.Some? <==> c.Some? && y < scr.barHeight && c != old(ct.fullscreen)
    ensures hit.Some? ==> hit.value == BoxClicked(old(ct.table[c.value].rect.width), x, scr)
    ensures (hit.None? || hit.value == Outside || ButtonAt(hit.value).Some?) ==> unchanged(latch)
    ensures hit.Some? && hit.value.Box? && hit.value.n > 2 ==> latch.firstTime == now
  {
    c := ct.Find(w, ByFrame);
    hit, double := None, false;
    if c.Some? {
      ct.CheckFocus(c);
      if y < scr.barHeight && c != ct.fullscreen {
        var h := BoxClicked(ct.table[c.value].rect.width, x, scr);
        hit := Some(h);
        if h.Box? && h.n > 2 {
          double := latch.TitleBarClick(ct, c.value, now);
        }
      }
    }
  }
}
