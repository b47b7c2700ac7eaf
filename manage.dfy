/**
 * The per-client state changes of manage.cc: raising or lowering (the topmost token),
 * iconifying and de-iconifying (hide and unhide, with the ignore-unmap accounting and
 * the WM_STATE they write), and toggling fullscreen (saving and restoring the client
 * rectangle).
 */
module Manage {
  import opened Wrappers
  import opened Geometry
  import opened Sizing
  import opened Registry
  import opened TaskbarState

  /** Marking a visible client hidden together with writing Iconic keeps the registry consistent. */
  lemma HideConsistent(
    ids: seq<ClientId>, table: map<ClientId, Client>,
    focused: Option<ClientId>, topmost: Option<ClientId>, fullscreen: Option<ClientId>,
    count: nat, props: map<Window, WmProperty>, nextId: ClientId, c: ClientId)
    requires Consistent(ids, table, focused, topmost, fullscreen, count, props, nextId)
    requires c in table
    ensures Consistent(ids, table[c := HiddenRecord(table[c])],
      focused, if topmost == Some(c) then None else topmost, fullscreen, count,
      SetWMState(props, table[c].window, IconicState), nextId)
  {
    var t := table[c := HiddenRecord(table[c])];
    var p := SetWMState(props, table[c].window, IconicState);
    forall id | id in t
      ensures t[id].hidden <==> StateOf(p, t[id].window) == IconicState
    {
      if id != c {
        assert t[id].window != table[c].window;
      }
    }
  }

  /** Marking a client visible together with writing Normal keeps the registry consistent. */
  lemma UnhideConsistent(
    ids: seq<ClientId>, table: map<ClientId, Client>,
    focused: Option<ClientId>, topmost: Option<ClientId>, fullscreen: Option<ClientId>,
    count: nat, props: map<Window, WmProperty>, nextId: ClientId, c: ClientId)
    requires Consistent(ids, table, focused, topmost, fullscreen, count, props, nextId)
    requires c in table
    ensures Consistent(ids, table[c := table[c].(hidden := false)], focused, Some(c), fullscreen, count,
      SetWMState(props, table[c].window, NormalState), nextId)
  {
    var t := table[c := table[c].(hidden := false)];
    var p := SetWMState(props, table[c].window, NormalState);
    forall id | id in t
      ensures t[id].hidden <==> StateOf(p, t[id].window) == IconicState
    {
      if id != c {
        assert t[id].window != table[c].window;
      }
    }
  }

  /**
   * Client::raiseLower: the topmost client is lowered and the token dropped; any
   * other client is raised and takes the token. Nothing else changes.
   */
  method RaiseLower(ct: ClientTracker, c: ClientId)
    requires ct.Valid() && c in ct.table
    modifies ct
    ensures ct.Valid()
    ensures ct.topmost == if old(ct.topmost) == Some(c) then None else Some(c)
    ensures ct.clients == old(ct.clients) && ct.table == old(ct.table) && ct.focused == old(ct.focused)
    ensures ct.fullscreen == old(ct.fullscreen) && ct.focusCount == old(ct.focusCount)
    ensures ct.wmProps == old(ct.wmProps) && ct.fsPrevDims == old(ct.fsPrevDims) && ct.nextId == old(ct.nextId)
    ensures old(ct.TopmostVisible()) && !ct.table[c].hidden ==> ct.TopmostVisible()
  {
    if ct.topmost == Some(c) {
      ct.topmost := None;
    } else {
      ct.topmost := Some(c);
    }
  }

  /**
   * Client::hide: on a hidden client nothing happens. Otherwise one more UnmapNotify
   * is to be ignored (the manager unmaps the window itself), the client is marked
   * hidden, drops the topmost token if it held it, WM_STATE becomes Iconic, and focus
   * passes to the most recently focused client still visible.
   */
  method Hide(ct: ClientTracker, c: ClientId)
    requires ct.Valid() && c in ct.table
    modifies ct
    ensures ct.Valid()
    ensures old(ct.table[c].hidden) ==> unchanged(ct)
    ensures !old(ct.table[c].hidden) ==>
      && ct.clients == old(ct.clients)
      && ct.topmost == (if old(ct.topmost) == Some(c) then None else old(ct.topmost))
      && ct.wmProps == SetWMState(old(ct.wmProps), old(ct.table[c].window), IconicState)
      && ct.fullscreen == old(ct.fullscreen) && ct.fsPrevDims == old(ct.fsPrevDims) && ct.nextId == old(ct.nextId)
    // the record of c is marked hidden; the focus stamp of the client that takes focus is renewed
    ensures !old(ct.table[c].hidden) ==>
      ct.table == if ct.focused.Some? && ct.focused != old(ct.focused)
                  then Restamp(old(ct.table)[c := HiddenRecord(old(ct.table[c]))], ct.focused.value, ct.focusCount)
                  else old(ct.table)[c := HiddenRecord(old(ct.table[c]))]
    // focus ends on the visible client focused most recently (or on nothing)
    ensures !old(ct.table[c].hidden) ==> ct.focused == PrevFocused(ct.clients, ct.table)
    ensures !old(ct.table[c].hidden) ==>
      ct.focused == PrevFocused(old(ct.clients), old(ct.table)[c := HiddenRecord(old(ct.table[c]))])
    ensures !old(ct.table[c].hidden) ==>
      ct.focusCount == if ct.focused == old(ct.focused) then old(ct.focusCount) else old(ct.focusCount) + 1
    ensures old(ct.TopmostVisible()) ==> ct.TopmostVisible()
  {
    if !ct.table[c].hidden {
      MarkHidden(ct, c);
      ct.FocusPrevious();
    }
  }

  /** What hide does to a client record: one more UnmapNotify to ignore, and hidden. */
  function HiddenRecord(r: Client): (h: Client)
    ensures h.hidden && h.ignoreUnmap == r.ignoreUnmap + 1
    ensures h.(ignoreUnmap := r.ignoreUnmap, hidden := r.hidden) == r
  {
    r.(ignoreUnmap := r.ignoreUnmap + 1, hidden := true)
  }

  /**
   * From t0 to t1 no client came or went, and every record kept all its fields (window,
   * frame, owner, rectangle, hints, was-hidden flag) except possibly the hidden flag, the
   * count of unmaps to ignore and the focus stamp; the first two changed at most for the
   * clients in `touched`.
   */
  ghost predicate FlagsKept(t0: map<ClientId, Client>, t1: map<ClientId, Client>, touched: set<ClientId>) {
    && t1.Keys == t0.Keys
    && (forall id :: id in t0 ==>
          t1[id].(hidden := t0[id].hidden, ignoreUnmap := t0[id].ignoreUnmap, focusOrder := t0[id].focusOrder) == t0[id])
    && (forall id :: id in t0 && id !in touched ==>
          t1[id].hidden == t0[id].hidden && t1[id].ignoreUnmap == t0[id].ignoreUnmap)
  }

  /** A new focus stamp changes no window and no hidden or was-hidden flag. */
  lemma RestampKeepsFlags(table: map<ClientId, Client>, id: ClientId, stamp: nat)
    requires id in table
    ensures FlagsKept(table, Restamp(table, id, stamp), {})
  {
  }

  /**
   * The table hide leaves behind (c's record marked hidden, then possibly a new focus
   * stamp) differs from the old one only in c's hidden flag, which is set.
   */
  lemma HideKeepsFlags(t0: map<ClientId, Client>, t: map<ClientId, Client>, c: ClientId, focused: Option<ClientId>, count: nat)
    requires c in t0 && (focused.Some? ==> focused.value in t0)
    requires t == if focused.Some? then Restamp(t0[c := HiddenRecord(t0[c])], focused.value, count)
                  else t0[c := HiddenRecord(t0[c])]
    ensures FlagsKept(t0, t, {c}) && t[c].hidden
  {
    var t1 := t0[c := HiddenRecord(t0[c])];
    assert FlagsKept(t0, t1, {c});
  }

  /** Two steps that each keep the flags outside their own clients keep them outside both. */
  lemma FlagsKeptCompose(t0: map<ClientId, Client>, t1: map<ClientId, Client>, t2: map<ClientId, Client>,
                         a: set<ClientId>, b: set<ClientId>)
    requires FlagsKept(t0, t1, a) && FlagsKept(t1, t2, b)
    ensures FlagsKept(t0, t2, a + b)
  {
  }

  /** The part of hide before the focus moves. */
  method MarkHidden(ct: ClientTracker, c: ClientId)
    requires ct.Valid() && c in ct.table && !ct.table[c].hidden
    modifies ct
    ensures ct.Valid()
    ensures ct.table == old(ct.table)[c := HiddenRecord(old(ct.table[c]))]
    ensures ct.topmost == (if old(ct.topmost) == Some(c) then None else old(ct.topmost))
    ensures ct.wmProps == SetWMState(old(ct.wmProps), old(ct.table[c].window), IconicState)
    ensures ct.clients == old(ct.clients) && ct.focused == old(ct.focused) && ct.focusCount == old(ct.focusCount)
    ensures ct.fullscreen == old(ct.fullscreen) && ct.fsPrevDims == old(ct.fsPrevDims) && ct.nextId == old(ct.nextId)
    ensures old(ct.TopmostVisible()) ==> ct.TopmostVisible()
  {
    var rec := ct.table[c];
    HideConsistent(ct.clients, ct.table, ct.focused, ct.topmost, ct.fullscreen, ct.focusCount, ct.wmProps, ct.nextId, c);
    ct.table, ct.topmost, ct.wmProps :=
      ct.table[c := HiddenRecord(rec)],
      if ct.topmost == Some(c) then None else ct.topmost,
      SetWMState(ct.wmProps, rec.window, IconicState);
  }

  /**
   * Client::unhide: on a visible client nothing happens. Otherwise the client is marked
   * visible, takes the topmost token (it is mapped raised) and WM_STATE becomes Normal.
   * Focus does not move.
   */
  method Unhide(ct: ClientTracker, c: ClientId)
    requires ct.Valid() && c in ct.table
    modifies ct
    ensures ct.Valid()
    ensures !old(ct.table[c].hidden) ==> unchanged(ct)
    ensures old(ct.table[c].hidden) ==>
      && ct.table == old(ct.table)[c := old(ct.table[c]).(hidden := false)]
      && ct.topmost == Some(c)
      && ct.wmProps == SetWMState(old(ct.wmProps), old(ct.table[c].window), NormalState)
    ensures ct.clients == old(ct.clients) && ct.focused == old(ct.focused) && ct.focusCount == old(ct.focusCount)
    ensures ct.fullscreen == old(ct.fullscreen) && ct.fsPrevDims == old(ct.fsPrevDims) && ct.nextId == old(ct.nextId)
    ensures old(ct.TopmostVisible()) ==> ct.TopmostVisible()
  {
    if ct.table[c].hidden {
      UnhideConsistent(ct.clients, ct.table, ct.focused, ct.topmost, ct.fullscreen, ct.focusCount, ct.wmProps, ct.nextId, c);
      var rec := ct.table[c];
      ct.table := ct.table[c := rec.(hidden := false)];
      ct.topmost := Some(c);
      ct.wmProps := SetWMState(ct.wmProps, rec.window, NormalState);
    }
  }

  /**
   * ClientTracker::toggleFullscreen, on the focused client; nothing happens without a
   * focused client or when it is transient. The fullscreen client leaves fullscreen
   * (LeaveFullscreen); any other client enters it (EnterFullscreen).
   */
  method ToggleFullscreen(ct: ClientTracker, tb: TaskbarFlags, scr: Screen)
    requires ct.Valid() && scr.Valid()
    modifies ct, tb
    ensures ct.Valid()
    ensures ct.clients == old(ct.clients) && ct.table.Keys == old(ct.table.Keys) && ct.focused == old(ct.focused)
    ensures ct.topmost == old(ct.topmost) && ct.focusCount == old(ct.focusCount)
    ensures ct.wmProps == old(ct.wmProps) && ct.nextId == old(ct.nextId) && tb.inside == old(tb.inside)
    ensures old(ct.focused).None? || old(ct.table[ct.focused.value].IsTransient()) ==> unchanged(ct) && unchanged(tb)
    ensures old(ct.focused).Some? && !old(ct.table[ct.focused.value].IsTransient()) ==>
      ct.fullscreen == if old(ct.fullscreen) == old(ct.focused) then None else old(ct.focused)
    // leaving fullscreen: exactly the saved rectangle comes back
    ensures old(ct.focused).Some? && !old(ct.table[ct.focused.value].IsTransient()) && old(ct.fullscreen) == old(ct.focused) ==>
      ct.table[ct.focused.value].rect == old(ct.fsPrevDims)
    // leaving fullscreen: only the focused record's rectangle changes; the taskbar shows
    ensures old(ct.focused).Some? && !old(ct.table[ct.focused.value].IsTransient()) && old(ct.fullscreen) == old(ct.focused) ==>
      && ct.table == old(ct.table)[ct.focused.value := old(ct.table[ct.focused.value]).(rect := old(ct.fsPrevDims))]
      && tb.showing && ct.fsPrevDims == old(ct.fsPrevDims)
    // entering fullscreen: the rectangle left behind is the one saved, the layout is the
    // fullscreen one, a client fullscreen before is put back, nobody else moves
    ensures old(ct.focused).Some? && !old(ct.table[ct.focused.value].IsTransient()) && old(ct.fullscreen) != old(ct.focused) ==>
      && ct.fsPrevDims == old(ct.table[ct.focused.value].rect)
      && FullscreenFit(old(ct.table[ct.focused.value].hints), scr, ct.table[ct.focused.value].rect, ct.table[ct.focused.value].hints)
      && ct.table[ct.focused.value] == old(ct.table[ct.focused.value]).(rect := ct.table[ct.focused.value].rect, hints := ct.table[ct.focused.value].hints)
      && tb.showing == old(tb.inside)
    ensures old(ct.focused).Some? && !old(ct.table[ct.focused.value].IsTransient()) &&
            old(ct.fullscreen) != old(ct.focused) && old(ct.fullscreen).Some? ==>
      ct.table[old(ct.fullscreen).value] == old(ct.table[ct.fullscreen.value]).(rect := old(ct.fsPrevDims))
    ensures forall id :: id in ct.table && Some(id) != old(ct.focused) && Some(id) != old(ct.fullscreen) ==>
      ct.table[id] == old(ct.table[id])
  {
    var c := ct.focused;
    if c.Some? && !ct.table[c.value].IsTransient() {
      if c == ct.fullscreen {
        LeaveFullscreen(ct, tb, c.value);
      } else {
        EnterFullscreen(ct, tb, c.value, scr);
      }
    }
  }

  /** The fullscreen client returns to the saved rectangle; the taskbar is shown again. */
  method LeaveFullscreen(ct: ClientTracker, tb: TaskbarFlags, c: ClientId)
    requires ct.Valid() && ct.fullscreen == Some(c)
    modifies ct, tb
    ensures ct.Valid()
    ensures ct.table == old(ct.table)[c := old(ct.table[c]).(rect := old(ct.fsPrevDims))]
    ensures ct.fullscreen == None && tb.showing
    ensures ct.clients == old(ct.clients) && ct.focused == old(ct.focused) && ct.topmost == old(ct.topmost)
    ensures ct.focusCount == old(ct.focusCount) && ct.wmProps == old(ct.wmProps) && ct.nextId == old(ct.nextId)
    ensures ct.fsPrevDims == old(ct.fsPrevDims) && tb.inside == old(tb.inside)
    ensures old(ct.TopmostVisible()) ==> ct.TopmostVisible()
  {
    RestoreSavedRect(ct, c);
    ct.fullscreen := None;
    tb.showing := true;
  }

  /** Client::setDimensions(fs_prevdims): the client gets the saved rectangle back. */
  method RestoreSavedRect(ct: ClientTracker, c: ClientId)
    requires ct.Valid() && c in ct.table
    modifies ct
    ensures ct.Valid()
    ensures ct.table == old(ct.table)[c := old(ct.table[c]).(rect := old(ct.fsPrevDims))]
    ensures ct.clients == old(ct.clients) && ct.focused == old(ct.focused) && ct.topmost == old(ct.topmost)
    ensures ct.fullscreen == old(ct.fullscreen) && ct.focusCount == old(ct.focusCount)
    ensures ct.wmProps == old(ct.wmProps) && ct.nextId == old(ct.nextId) && ct.fsPrevDims == old(ct.fsPrevDims)
    ensures old(ct.TopmostVisible()) ==> ct.TopmostVisible()
  {
    RecordUpdateConsistent(ct.clients, ct.table, ct.focused, ct.topmost, ct.fullscreen, ct.focusCount, ct.wmProps, ct.nextId,
      c, ct.table[c].(rect := ct.fsPrevDims));
    ct.table := ct.table[c := ct.table[c].(rect := ct.fsPrevDims)];
  }

  /**
   * A client that is not fullscreen takes the screen: a client already fullscreen is
   * first put back to the saved rectangle; then this client's rectangle is saved and
   * replaced by the fullscreen layout (which may rewrite its maximum size hints); the
   * taskbar stays shown only while the pointer is in it.
   */
  method EnterFullscreen(ct: ClientTracker, tb: TaskbarFlags, c: ClientId, scr: Screen)
    requires ct.Valid() && scr.Valid() && c in ct.table && ct.fullscreen != Some(c)
    modifies ct, tb
    ensures ct.Valid()
    ensures ct.fullscreen == Some(c) && ct.fsPrevDims == old(ct.table[c].rect)
    ensures ct.table.Keys == old(ct.table.Keys)
    ensures FullscreenFit(old(ct.table[c].hints), scr, ct.table[c].rect, ct.table[c].hints)
    ensures ct.table[c] == old(ct.table[c]).(rect := ct.table[c].rect, hints := ct.table[c].hints)
    ensures old(ct.fullscreen).Some? ==>
      ct.table[old(ct.fullscreen).value] == old(ct.table[ct.fullscreen.value]).(rect := old(ct.fsPrevDims))
    ensures forall id :: id in ct.table && id != c && Some(id) != old(ct.fullscreen) ==> ct.table[id] == old(ct.table[id])
    ensures tb.showing == old(tb.inside) && tb.inside == old(tb.inside)
    ensures ct.clients == old(ct.clients) && ct.focused == old(ct.focused) && ct.topmost == old(ct.topmost)
    ensures ct.focusCount == old(ct.focusCount) && ct.wmProps == old(ct.wmProps) && ct.nextId == old(ct.nextId)
    ensures old(ct.TopmostVisible()) ==> ct.TopmostVisible()
  {
    if ct.fullscreen.Some? {
      RestoreSavedRect(ct, ct.fullscreen.value);
    }
    TakeScreen(ct, c, scr);
    tb.showing := tb.inside;
  }

  /** The second half of entering fullscreen: save the rectangle, apply the layout. */
  method TakeScreen(ct: ClientTracker, c: ClientId, scr: Screen)
    requires ct.Valid() && scr.Valid() && c in ct.table
    modifies ct
    ensures ct.Valid()
    ensures ct.fullscreen == Some(c) && ct.fsPrevDims == old(ct.table[c].rect)
    ensures ct.table.Keys == old(ct.table.Keys)
    ensures FullscreenFit(old(ct.table[c].hints), scr, ct.table[c].rect, ct.table[c].hints)
    ensures ct.table[c] == old(ct.table[c]).(rect := ct.table[c].rect, hints := ct.table[c].hints)
    ensures forall id :: id in ct.table && id != c ==> ct.table[id] == old(ct.table[id])
    ensures ct.clients == old(ct.clients) && ct.focused == old(ct.focused) && ct.topmost == old(ct.topmost)
    ensures ct.focusCount == old(ct.focusCount) && ct.wmProps == old(ct.wmProps) && ct.nextId == old(ct.nextId)
    ensures old(ct.TopmostVisible()) ==> ct.TopmostVisible()
  {
    var r, xoffset, yoffset, hints' := FullscreenLayout(ct.table[c].hints, scr);
    RecordUpdateConsistent(ct.clients, ct.table, ct.focused, ct.topmost, ct.fullscreen, ct.focusCount, ct.wmProps, ct.nextId,
      c, ct.table[c].(rect := r, hints := hints'));
    ct.fsPrevDims, ct.table, ct.fullscreen := ct.table[c].rect, ct.table[c := ct.table[c].(rect := r, hints := hints')], Some(c);
  }
}
