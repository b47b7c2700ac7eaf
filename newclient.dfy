/**
 * Taking a new window under management (new.cc, makeNewClient and init_position):
 * the client is appended at the tail of the registry, placed on screen, given its
 * WM_STATE, and made visible and topmost or hidden according to that state; when
 * nothing has the focus it takes the focus.
 */
module NewClient {
  import opened Wrappers
  import opened Geometry
  import opened Placement
  import opened Registry

  /**
   * The rectangle init_position makes: big enough for the three title-bar buttons and a
   * bit of bar; a window that asked for position (0, 0) is put at the pointer, one
   * title-bar height lower, with gravity then taken off.
   */
  function InitPos(r: Rect, hints: SizeHints, mouseX: int, mouseY: int, scr: Screen): (p: Rect)
    requires scr.Valid()
    ensures p.width == if r.width < 4 * scr.barHeight then 4 * scr.barHeight else r.width
    ensures p.height == if r.height < scr.barHeight then scr.barHeight else r.height
    ensures !(r.x == 0 && r.y == 0) ==> p.x == r.x && p.y == r.y
    ensures r.x == 0 && r.y == 0 ==>
      Gravitate(p, hints, scr, ApplyGravity) == Rect(mouseX, mouseY + scr.barHeight, p.width, p.height)
  {
    var sized := r.(width := if r.width < 4 * scr.barHeight then 4 * scr.barHeight else r.width,
                    height := if r.height < scr.barHeight then scr.barHeight else r.height);
    if r.x == 0 && r.y == 0 then
      var atPointer := sized.(x := mouseX, y := mouseY + scr.barHeight);
      GravitateRoundTrip(atPointer, hints, scr);
      Gravitate(atPointer, hints, scr, RemoveGravity)
    else
      sized
  }

  /** init_position as the source runs it: the adjustments one after the other, giving InitPos. */
  method InitPosition(r: Rect, hints: SizeHints, mouseX: int, mouseY: int, scr: Screen) returns (p: Rect)
    requires scr.Valid()
    ensures p == InitPos(r, hints, mouseX, mouseY, scr)
    ensures p.width == if r.width < 4 * scr.barHeight then 4 * scr.barHeight else r.width
    ensures p.height == if r.height < scr.barHeight then scr.barHeight else r.height
    ensures !(r.x == 0 && r.y == 0) ==> p.x == r.x && p.y == r.y
    // applying gravity afterwards brings the window back to the pointer, a title bar below it
    ensures r.x == 0 && r.y == 0 ==>
      Gravitate(p, hints, scr, ApplyGravity) == Rect(mouseX, mouseY + scr.barHeight, p.width, p.height)
  {
    p := r;
    if p.width < 4 * scr.barHeight {
      p := p.(width := 4 * scr.barHeight);
    }
    if p.height < scr.barHeight {
      p := p.(height := scr.barHeight);
    }
    if p.x == 0 && p.y == 0 {
      p := p.(x := mouseX, y := mouseY + scr.barHeight);
      GravitateRoundTrip(p, hints, scr);
      p := Gravitate(p, hints, scr, RemoveGravity);
    }
  }

  /** The WM_STATE makeNewClient writes on a window that is not yet viewable. */
  function InitialState(stateHint: Option<int>): (st: int)
    ensures stateHint.Some? ==> st == stateHint.value
    ensures stateHint.None? ==> st == NormalState
  {
    if stateHint.Some? then stateHint.value else NormalState
  }

  /**
   * Adding a client whose window is new to the registry, with a fresh handle, focus
   * stamp 0, and hidden exactly when its WM_STATE says Iconic, keeps the registry
   * consistent; it becomes topmost when it is visible.
   */
  lemma NewClientConsistent(
    ids: seq<ClientId>, table: map<ClientId, Client>,
    focused: Option<ClientId>, topmost: Option<ClientId>, fullscreen: Option<ClientId>,
    count: nat, props: map<Window, WmProperty>, props': map<Window, WmProperty>,
    nextId: ClientId, rec: Client)
    requires Consistent(ids, table, focused, topmost, fullscreen, count, props, nextId)
    requires forall id :: id in table ==> table[id].window != rec.window
    requires forall v :: v != rec.window ==> StateOf(props', v) == StateOf(props, v)
    requires rec.focusOrder == 0
    requires rec.hidden <==> StateOf(props', rec.window) == IconicState
    ensures Consistent(ids + [nextId], table[nextId := rec], focused,
      if rec.hidden then topmost else Some(nextId), fullscreen, count, props', nextId + 1)
  {
    var ids', t := ids + [nextId], table[nextId := rec];
    assert nextId !in table;
    assert forall i :: 0 <= i < |ids| ==> ids'[i] == ids[i];
    forall id ensures id in t <==> id in ids' {
      if id in ids' && id != nextId {
        var i :| 0 <= i < |ids'| && ids'[i] == id;
        assert ids[i] == id;
      }
    }
  }

  /**
   * The record and the WM_STATE properties makeNewClient prepares for window w before
   * linking it in: one unmap to ignore for the reparent (two when the window is viewable
   * and Iconic, since it is then unmapped), a rectangle fixed on screen with gravity
   * applied, and hidden exactly when the state is Iconic. A window not yet viewable is
   * positioned by init_position and gets WM_STATE Normal, or the hinted initial state.
   */
  method PrepareClient(props: map<Window, WmProperty>, w: Window, frame: Window, attr: Rect, viewable: bool,
                       trans: Window, hints: SizeHints, stateHint: Option<int>,
                       mouseX: int, mouseY: int, scr: Screen) returns (rec: Client, props': map<Window, WmProperty>)
    requires scr.Valid()
    ensures rec.window == w && rec.frame == frame && rec.trans == trans && rec.hints == hints
    ensures !rec.wasHidden && rec.focusOrder == 0
    ensures props' == if viewable then props else SetWMState(props, w, InitialState(stateHint))
    ensures rec.hidden <==> StateOf(props', w) == IconicState
    ensures rec.ignoreUnmap == if rec.hidden && viewable then 2 else 1
    ensures OnScreen(Gravitate(rec.rect, hints, scr, RemoveGravity), scr, false)
    ensures scr.width >= MinWinWidth(scr) ==> rec.rect.width >= MinWinWidth(scr)
    // fix_position of the window's own rectangle, or of init_position's when it is not
    // yet viewable; the record holds that frame with gravity applied
    ensures Fixed(if viewable then attr else InitPos(attr, hints, mouseX, mouseY, scr), scr, false,
                  Gravitate(rec.rect, hints, scr, RemoveGravity))
  {
    var r := attr;
    props' := props;
    if !viewable {
      r := InitPosition(r, hints, mouseX, mouseY, scr);
      props' := SetWMState(props', w, NormalState);
      if stateHint.Some? {
        props' := SetWMState(props', w, stateHint.value);
      }
    }
    var f := FixPosition(r, scr, false);
    GravitateRoundTrip(f, hints, scr);
    r := Gravitate(f, hints, scr, ApplyGravity);
    var hidden := StateOf(props', w) == IconicState;
    rec := Client(w, frame, trans, r, hints, if hidden && viewable then 2 else 1, hidden, false, 0);
  }

  /** Links a prepared record in at the tail under the next handle; it is topmost when visible. */
  method Link(ct: ClientTracker, rec: Client, props': map<Window, WmProperty>) returns (id: ClientId)
    requires ct.Valid()
    requires forall k :: k in ct.table ==> ct.table[k].window != rec.window
    requires forall v :: v != rec.window ==> StateOf(props', v) == StateOf(ct.wmProps, v)
    requires rec.focusOrder == 0
    requires rec.hidden <==> StateOf(props', rec.window) == IconicState
    modifies ct
    ensures ct.Valid()
    ensures id == old(ct.nextId) && ct.nextId == id + 1
    ensures ct.clients == old(ct.clients) + [id] && ct.table == old(ct.table)[id := rec]
    ensures ct.topmost == if rec.hidden then old(ct.topmost) else Some(id)
    ensures ct.wmProps == props'
    ensures ct.focused == old(ct.focused) && ct.focusCount == old(ct.focusCount)
    ensures ct.fullscreen == old(ct.fullscreen) && ct.fsPrevDims == old(ct.fsPrevDims)
  {
    id := ct.nextId;
    NewClientConsistent(ct.clients, ct.table, ct.focused, ct.topmost, ct.fullscreen, ct.focusCount,
      ct.wmProps, props', ct.nextId, rec);
    ct.clients, ct.table, ct.topmost, ct.wmProps, ct.nextId :=
      ct.clients + [id], ct.table[id := rec], if rec.hidden then ct.topmost else Some(id), props', ct.nextId + 1;
  }

  /**
   * makeNewClient: window w, not yet managed, with the attributes the server reports
   * (rectangle and whether it is viewable), its WM_TRANSIENT_FOR owner, its normal
   * hints and the initial_state of its WM_HINTS when StateHint is set. The frame is
   * the window reparent creates; the pointer position is the one init_position reads.
   */
  method MakeNewClient(ct: ClientTracker, w: Window, frame: Window, attr: Rect, viewable: bool,
                       trans: Window, hints: SizeHints, stateHint: Option<int>,
                       mouseX: int, mouseY: int, scr: Screen) returns (id: ClientId)
    requires ct.Valid() && scr.Valid()
    requires forall k :: k in ct.table ==> ct.table[k].window != w
    modifies ct
    ensures ct.Valid()
    // appended at the tail; nobody else moves
    ensures id == old(ct.nextId) && ct.clients == old(ct.clients) + [id]
    ensures ct.table.Keys == old(ct.table.Keys) + {id}
    ensures forall k :: k in old(ct.table) ==> ct.table[k] == old(ct.table[k])
    ensures ct.table[id].window == w && ct.table[id].frame == frame && ct.table[id].trans == trans
    ensures ct.table[id].hints == hints && !ct.table[id].wasHidden
    // WM_STATE: kept on a viewable window, otherwise Normal or the hinted initial state
    ensures ct.wmProps == if viewable then old(ct.wmProps) else SetWMState(old(ct.wmProps), w, InitialState(stateHint))
    // hidden exactly when Iconic; one unmap to ignore for the reparent, two when already
    // viewable and unmapped again because it is Iconic
    ensures ct.table[id].hidden <==> StateOf(ct.wmProps, w) == IconicState
    ensures ct.table[id].ignoreUnmap == if ct.table[id].hidden && viewable then 2 else 1
    ensures ct.topmost == if ct.table[id].hidden then old(ct.topmost) else Some(id)
    // the frame lies on the display once gravity is taken off again
    ensures OnScreen(Gravitate(ct.table[id].rect, hints, scr, RemoveGravity), scr, false)
    ensures scr.width >= MinWinWidth(scr) ==> ct.table[id].rect.width >= MinWinWidth(scr)
    ensures Fixed(if viewable then attr else InitPos(attr, hints, mouseX, mouseY, scr), scr, false,
                  Gravitate(ct.table[id].rect, hints, scr, RemoveGravity))
    // focus goes to the new client only when nothing had it
    ensures old(ct.focused).None? ==>
      ct.focused == Some(id) && ct.focusCount == old(ct.focusCount) + 1 && ct.table[id].focusOrder == ct.focusCount
    ensures old(ct.focused).Some? ==>
      ct.focused == old(ct.focused) && ct.focusCount == old(ct.focusCount) && ct.table[id].focusOrder == 0
    ensures ct.fullscreen == old(ct.fullscreen) && ct.fsPrevDims == old(ct.fsPrevDims)
  {
    var rec, props := PrepareClient(ct.wmProps, w, frame, attr, viewable, trans, hints, stateHint, mouseX, mouseY, scr);
    id := Link(ct, rec, props);
    if ct.focused.None? {
      ct.CheckFocus(Some(id));
    }
  }
}
