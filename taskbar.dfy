/**
 * The taskbar's effect on the registry (taskbar.cc): the was-hidden bookkeeping around
 * a drag along the task buttons, a click on one task button, cycling the focus forwards
 * and backwards through the clients, and finding the root-menu item under the pointer.
 * Drawing, the pointer grab and the float division that turns a pointer position into a
 * task button are not modelled.
 */
module Taskbar {
  import opened Wrappers
  import opened Registry
  import opened Manage
  import opened MenuFile

  /** remember_hidden on one record: was_hidden takes the value of hidden. */
  function Remember(r: Client): (m: Client)
    ensures m.wasHidden == r.hidden && m.(wasHidden := r.wasHidden) == r
  {
    r.(wasHidden := r.hidden)
  }

  /** forget_hidden on one record: the focused client remembers its hidden flag, any other forgets. */
  function Forget(r: Client, isFocused: bool): (m: Client)
    ensures m.wasHidden == (isFocused && r.hidden) && m.(wasHidden := r.wasHidden) == r
  {
    r.(wasHidden := if isFocused then r.hidden else false)
  }

  /**
   * Rewriting every record while keeping its window, hidden flag and focus stamp keeps the
   * registry consistent.
   */
  lemma SameShapeConsistent(
    ids: seq<ClientId>, table: map<ClientId, Client>, table': map<ClientId, Client>,
    focused: Option<ClientId>, topmost: Option<ClientId>, fullscreen: Option<ClientId>,
    count: nat, props: map<Window, WmProperty>, nextId: ClientId)
    requires Consistent(ids, table, focused, topmost, fullscreen, count, props, nextId)
    requires table'.Keys == table.Keys
    requires forall id :: id in table ==>
      table'[id].window == table[id].window && table'[id].hidden == table[id].hidden && table'[id].focusOrder == table[id].focusOrder
    ensures Consistent(ids, table', focused, topmost, fullscreen, count, props, nextId)
  {
    assert forall id :: id in table' <==> id in table;
  }

  /**
   * remember_hidden, run when a drag along the task buttons starts: every client records
   * whether it is hidden now. Nothing else changes.
   */
  method RememberHidden(ct: ClientTracker)
    requires ct.Valid()
    modifies ct
    ensures ct.Valid()
    ensures ct.table.Keys == old(ct.table.Keys)
    ensures forall id :: id in ct.table ==> ct.table[id] == Remember(old(ct.table[id]))
    ensures ct.clients == old(ct.clients) && ct.focused == old(ct.focused) && ct.topmost == old(ct.topmost)
    ensures ct.fullscreen == old(ct.fullscreen) && ct.focusCount == old(ct.focusCount)
    ensures ct.wmProps == old(ct.wmProps) && ct.fsPrevDims == old(ct.fsPrevDims) && ct.nextId == old(ct.nextId)
  {
    var ids, t := ct.clients, ct.table;
    var i := 0;
    while i < |ids|
      invariant 0 <= i <= |ids| && t.Keys == ct.table.Keys
      invariant forall id :: id in t ==> t[id] == if id in ids[..i] then Remember(ct.table[id]) else ct.table[id]
    {
      var id := ids[i];
      assert ids[..i + 1] == ids[..i] + [id];
      t := t[id := Remember(t[id])];
      i := i + 1;
    }
    assert ids[..i] == ids;
    SameShapeConsistent(ct.clients, ct.table, t, ct.focused, ct.topmost, ct.fullscreen, ct.focusCount, ct.wmProps, ct.nextId);
    ct.table := t;
  }

  /**
   * forget_hidden, run when the drag ends: the focused client records whether it is
   * hidden, every other client forgets that it was hidden. Nothing else changes.
   */
  method ForgetHidden(ct: ClientTracker)
    requires ct.Valid()
    modifies ct
    ensures ct.Valid()
    ensures ct.table.Keys == old(ct.table.Keys)
    ensures forall id :: id in ct.table ==> ct.table[id] == Forget(old(ct.table[id]), old(ct.focused) == Some(id))
    ensures ct.clients == old(ct.clients) && ct.focused == old(ct.focused) && ct.topmost == old(ct.topmost)
    ensures ct.fullscreen == old(ct.fullscreen) && ct.focusCount == old(ct.focusCount)
    ensures ct.wmProps == old(ct.wmProps) && ct.fsPrevDims == old(ct.fsPrevDims) && ct.nextId == old(ct.nextId)
  {
    var ids, t := ct.clients, ct.table;
    var i := 0;
    while i < |ids|
      invariant 0 <= i <= |ids| && t.Keys == ct.table.Keys
      invariant forall id :: id in t ==>
        t[id] == if id in ids[..i] then Forget(ct.table[id], ct.focused == Some(id)) else ct.table[id]
    {
      var id := ids[i];
      assert ids[..i + 1] == ids[..i] + [id];
      t := t[id := Forget(t[id], ct.focused == Some(id))];
      i := i + 1;
    }
    assert ids[..i] == ids;
    SameShapeConsistent(ct.clients, ct.table, t, ct.focused, ct.topmost, ct.fullscreen, ct.focusCount, ct.wmProps, ct.nextId);
    ct.table := t;
  }

  /**
   * hide, seen from the taskbar: c ends hidden and no other client's flags change; when c
   * was visible, WM_STATE becomes Iconic, the topmost token is dropped if c held it and
   * focus passes to the most recently focused visible client.
   */
  method HideClient(ct: ClientTracker, c: ClientId)
    requires ct.Valid() && c in ct.table
    modifies ct
    ensures ct.Valid()
    ensures FlagsKept(old(ct.table), ct.table, {c}) && ct.table[c].hidden
    ensures ct.topmost == if old(ct.topmost) == Some(c) && !old(ct.table[c].hidden) then None else old(ct.topmost)
    ensures ct.wmProps ==
      if old(ct.table[c].hidden) then old(ct.wmProps) else SetWMState(old(ct.wmProps), old(ct.table[c].window), IconicState)
    ensures old(ct.table[c].hidden) ==> ct.focused == old(ct.focused) && ct.focusCount == old(ct.focusCount)
    ensures !old(ct.table[c].hidden) ==>
      ct.focused == PrevFocused(old(ct.clients), old(ct.table)[c := HiddenRecord(old(ct.table[c]))])
    ensures ct.clients == old(ct.clients) && ct.fullscreen == old(ct.fullscreen)
    ensures ct.fsPrevDims == old(ct.fsPrevDims) && ct.nextId == old(ct.nextId)
    // the exact records and counter hide leaves behind
    ensures old(ct.table[c].hidden) ==> ct.table == old(ct.table)
    ensures !old(ct.table[c].hidden) ==>
      ct.table == if ct.focused.Some? && ct.focused != old(ct.focused)
                  then Restamp(old(ct.table)[c := HiddenRecord(old(ct.table[c]))], ct.focused.value, ct.focusCount)
                  else old(ct.table)[c := HiddenRecord(old(ct.table[c]))]
    ensures !old(ct.table[c].hidden) ==>
      ct.focusCount == if ct.focused == old(ct.focused) then old(ct.focusCount) else old(ct.focusCount) + 1
  {
    ghost var t0, f0 := ct.table, ct.focused;
    Hide(ct, c);
    if !t0[c].hidden {
      HideKeepsFlags(t0, ct.table, c, if ct.focused.Some? && ct.focused != f0 then ct.focused else None, ct.focusCount);
    }
  }

  /** Marking a hidden client visible changes no other flag. */
  lemma UnhideKeepsFlags(t0: map<ClientId, Client>, c: ClientId)
    requires c in t0
    ensures FlagsKept(t0, t0[c := t0[c].(hidden := false)], {c})
  {
  }

  /** The state Client::hide leaves behind, read as a view, is HideView's. */
  lemma HideViewOf(ids: seq<ClientId>, v: View, c: ClientId, w: View)
    requires Registered(ids, v.table) && c in v.table && !v.table[c].hidden
    requires w.focused.Some? ==> w.focused.value in v.table
    requires var t := v.table[c := HiddenRecord(v.table[c])];
      && w.table == (if w.focused.Some? && w.focused != v.focused then Restamp(t, w.focused.value, w.count) else t)
      && w.focused == PrevFocused(ids, t)
      && w.count == (if w.focused == v.focused then v.count else v.count + 1)
      && w.topmost == (if v.topmost == Some(c) then None else v.topmost)
      && w.props == SetWMState(v.props, v.table[c].window, IconicState)
    ensures w == HideView(ids, v, c)
    ensures FlagsKept(v.table, w.table, {c}) && w.table[c].hidden
  {
    HideKeepsFlags(v.table, w.table, c, if w.focused.Some? && w.focused != v.focused then w.focused else None, w.count);
  }

  /** The clients whose hidden flag a click may change: the clicked one and the one the pointer left. */
  function Touched(oldC: Option<ClientId>, c: ClientId): (s: set<ClientId>)
    ensures c in s && (oldC.Some? ==> oldC.value in s) && |s| <= 2
  {
    if oldC.Some? then {c, oldC.value} else {c}
  }

  /** The first step of lclick_taskbutton re-hides old_c: it was hidden when the drag began and is visible now. */
  predicate Rehides(t0: map<ClientId, Client>, oldC: Option<ClientId>)
    requires oldC.Some? ==> oldC.value in t0
  {
    oldC.Some? && !t0[oldC.value].hidden && t0[oldC.value].wasHidden
  }

  /**
   * What lclick_taskbutton(old_c, c) does to the records, the topmost token and the
   * WM_STATE properties, from (t0, top0, p0) to (t, top, p): only old_c and c change
   * visibility and no other field but the focus stamps changes; old_c (when it is
   * another client) ends hidden if it was hidden at the start of the drag; c ends
   * hidden exactly when it is visible before the click (after old_c's step) and was
   * hidden at the start of the drag. A client shown again is raised and gets
   * WM_STATE Normal; a client hidden again gets WM_STATE Iconic and gives up the
   * topmost token; a client neither hidden now nor at the start is raised or lowered.
   */
  ghost predicate ClickOutcome(t0: map<ClientId, Client>, top0: Option<ClientId>, p0: map<Window, WmProperty>,
                               t: map<ClientId, Client>, top: Option<ClientId>, p: map<Window, WmProperty>,
                               oldC: Option<ClientId>, c: ClientId)
    requires c in t0 && (oldC.Some? ==> oldC.value in t0)
  {
    FlagsKept(t0, t, Touched(oldC, c)) && ClickEffect(t0, top0, p0, t, top, p, oldC, c)
  }

  /** ClickOutcome on the two clients concerned, the topmost token and WM_STATE. */
  ghost predicate ClickEffect(t0: map<ClientId, Client>, top0: Option<ClientId>, p0: map<Window, WmProperty>,
                              t: map<ClientId, Client>, top: Option<ClientId>, p: map<Window, WmProperty>,
                              oldC: Option<ClientId>, c: ClientId)
    requires c in t0 && c in t && (oldC.Some? ==> oldC.value in t0 && oldC.value in t)
  {
    // after re-hiding old_c
    var top1 := if Rehides(t0, oldC) && top0 == oldC then None else top0;
    var p1 := if Rehides(t0, oldC) then SetWMState(p0, t0[oldC.value].window, IconicState) else p0;
    var hidden1 := t0[c].hidden || (Rehides(t0, oldC) && oldC == Some(c));
    && (oldC.Some? && oldC.value != c ==> t[oldC.value].hidden == (t0[oldC.value].hidden || t0[oldC.value].wasHidden))
    && t[c].hidden == (!hidden1 && t0[c].wasHidden)
    && (hidden1 ==> top == Some(c) && p == SetWMState(p1, t0[c].window, NormalState))
    && (!hidden1 && t0[c].wasHidden ==>
          top == (if top1 == Some(c) then None else top1) && p == SetWMState(p1, t0[c].window, IconicState))
    && (!hidden1 && !t0[c].wasHidden ==> top == (if top1 == Some(c) then None else Some(c)) && p == p1)
  }

  /** The three steps of lclick_taskbutton (re-hide old_c, act on c, focus c) add up to ClickOutcome. */
  lemma ClickSteps(t0: map<ClientId, Client>, top0: Option<ClientId>, p0: map<Window, WmProperty>,
                   t1: map<ClientId, Client>, top1: Option<ClientId>, p1: map<Window, WmProperty>,
                   t2: map<ClientId, Client>, top2: Option<ClientId>, p2: map<Window, WmProperty>,
                   t3: map<ClientId, Client>, oldC: Option<ClientId>, c: ClientId)
    requires c in t0 && (oldC.Some? ==> oldC.value in t0)
    // re-hiding old_c
    requires FlagsKept(t0, t1, if oldC.Some? then {oldC.value} else {})
    requires oldC.Some? ==> t1[oldC.value].hidden == (t0[oldC.value].hidden || t0[oldC.value].wasHidden)
    requires top1 == if Rehides(t0, oldC) && top0 == oldC then None else top0
    requires p1 == if Rehides(t0, oldC) then SetWMState(p0, t0[oldC.value].window, IconicState) else p0
    // acting on c
    requires FlagsKept(t1, t2, {c})
    requires t2[c].hidden == (!t1[c].hidden && t1[c].wasHidden)
    requires t1[c].hidden ==> top2 == Some(c) && p2 == SetWMState(p1, t1[c].window, NormalState)
    requires !t1[c].hidden && t1[c].wasHidden ==>
      top2 == (if top1 == Some(c) then None else top1) && p2 == SetWMState(p1, t1[c].window, IconicState)
    requires !t1[c].hidden && !t1[c].wasHidden ==> top2 == (if top1 == Some(c) then None else Some(c)) && p2 == p1
    // focusing c
    requires FlagsKept(t2, t3, {})
    ensures ClickOutcome(t0, top0, p0, t3, top2, p2, oldC, c)
  {
    var a := if oldC.Some? then {oldC.value} else {};
    FlagsKeptCompose(t0, t1, t2, a, {c});
    FlagsKeptCompose(t0, t2, t3, a + {c}, {});
    assert a + {c} + {} == Touched(oldC, c);
    KeptRecord(t0, t1, a, c);
    KeptRecord(t1, t2, {c}, c);
    KeptRecord(t2, t3, {}, c);
    if oldC.Some? && oldC.value != c {
      KeptRecord(t1, t2, {c}, oldC.value);
      KeptRecord(t2, t3, {}, oldC.value);
    }
    if oldC.Some? {
      KeptRecord(t0, t3, Touched(oldC, c), oldC.value);
    }
    ClickEffectSteps(t0, top0, p0, t1[c].hidden, top1, p1, t3, top2, p2, oldC, c);
  }

  /** ClickSteps on the clients concerned alone. */
  lemma ClickEffectSteps(t0: map<ClientId, Client>, top0: Option<ClientId>, p0: map<Window, WmProperty>,
                         hidden1: bool, top1: Option<ClientId>, p1: map<Window, WmProperty>,
                         t: map<ClientId, Client>, top: Option<ClientId>, p: map<Window, WmProperty>,
                         oldC: Option<ClientId>, c: ClientId)
    requires c in t0 && c in t && (oldC.Some? ==> oldC.value in t0 && oldC.value in t)
    requires hidden1 == (t0[c].hidden || (Rehides(t0, oldC) && oldC == Some(c)))
    requires top1 == if Rehides(t0, oldC) && top0 == oldC then None else top0
    requires p1 == if Rehides(t0, oldC) then SetWMState(p0, t0[oldC.value].window, IconicState) else p0
    requires oldC.Some? && oldC.value != c ==> t[oldC.value].hidden == (t0[oldC.value].hidden || t0[oldC.value].wasHidden)
    requires t[c].hidden == (!hidden1 && t0[c].wasHidden)
    requires hidden1 ==> top == Some(c) && p == SetWMState(p1, t0[c].window, NormalState)
    requires !hidden1 && t0[c].wasHidden ==>
      top == (if top1 == Some(c) then None else top1) && p == SetWMState(p1, t0[c].window, IconicState)
    requires !hidden1 && !t0[c].wasHidden ==> top == (if top1 == Some(c) then None else Some(c)) && p == p1
    ensures ClickEffect(t0, top0, p0, t, top, p, oldC, c)
  {
  }

  /** One record under FlagsKept: same window and was-hidden flag, and same hidden flag when untouched. */
  lemma KeptRecord(t0: map<ClientId, Client>, t1: map<ClientId, Client>, touched: set<ClientId>, id: ClientId)
    requires FlagsKept(t0, t1, touched) && id in t0
    ensures id in t1 && t1[id].window == t0[id].window && t1[id].wasHidden == t0[id].wasHidden
    ensures id !in touched ==> t1[id].hidden == t0[id].hidden
  {
    assert t1[id].(hidden := t0[id].hidden, ignoreUnmap := t0[id].ignoreUnmap, focusOrder := t0[id].focusOrder) == t0[id];
  }

  /**
   * The part of the registry a click on a task button can change: the records, the
   * focused client, the topmost token, the focus counter and the WM_STATE properties.
   */
  datatype View = View(table: map<ClientId, Client>, focused: Option<ClientId>, topmost: Option<ClientId>,
                       count: nat, props: map<Window, WmProperty>)

  function ViewOf(ct: ClientTracker): View
    reads ct
  {
    View(ct.table, ct.focused, ct.topmost, ct.focusCount, ct.wmProps)
  }

  /** From t0 to t1 no client came or went and only focus stamps changed. */
  ghost predicate StampsOnly(t0: map<ClientId, Client>, t1: map<ClientId, Client>) {
    && t1.Keys == t0.Keys
    && forall id :: id in t0 ==> t1[id].(focusOrder := t0[id].focusOrder) == t0[id]
  }

  /**
   * checkFocus(f) on a view: nothing happens when f is focused already; otherwise f
   * takes the focus, the counter goes up by one and f carries the new counter value.
   */
  function FocusTo(v: View, f: Option<ClientId>): (w: View)
    requires f.Some? ==> f.value in v.table
    ensures StampsOnly(v.table, w.table)
    ensures w.focused == f && w.topmost == v.topmost && w.props == v.props
    ensures w.count == if f == v.focused then v.count else v.count + 1
    ensures f.Some? && f != v.focused ==> w.table[f.value].focusOrder == w.count
    ensures forall id :: id in v.table && (Some(id) != f || f == v.focused) ==> w.table[id] == v.table[id]
  {
    if f == v.focused then v
    else View(if f.Some? then Restamp(v.table, f.value, v.count + 1) else v.table, f, v.topmost, v.count + 1, v.props)
  }

  /** The client getPreviousFocused picks is registered and visible. */
  lemma PrevFocusedIn(ids: seq<ClientId>, table: map<ClientId, Client>)
    requires Registered(ids, table)
    ensures var r := PrevFocused(ids, table); r.Some? ==> r.value in table && !table[r.value].hidden
  {
    PrevFocusedSpec(ids, table);
  }

  /**
   * hide on a view: nothing on a hidden client; otherwise its record counts one more
   * unmap to ignore and is marked hidden, it gives up the topmost token, WM_STATE
   * becomes Iconic, and focus passes to the visible client focused most recently.
   */
  function HideView(ids: seq<ClientId>, v: View, c: ClientId): (w: View)
    requires Registered(ids, v.table) && c in v.table
    ensures v.table[c].hidden ==> w == v
    ensures !v.table[c].hidden ==>
      && StampsOnly(v.table[c := HiddenRecord(v.table[c])], w.table)
      && w.topmost == (if v.topmost == Some(c) then None else v.topmost)
      && w.props == SetWMState(v.props, v.table[c].window, IconicState)
      && w.focused == PrevFocused(ids, v.table[c := HiddenRecord(v.table[c])])
  {
    if v.table[c].hidden then v
    else
      var t := v.table[c := HiddenRecord(v.table[c])];
      PrevFocusedIn(ids, t);
      FocusTo(View(t, v.focused, if v.topmost == Some(c) then None else v.topmost, v.count,
                   SetWMState(v.props, v.table[c].window, IconicState)),
              PrevFocused(ids, t))
  }

  /** unhide on a view: a hidden client is marked visible, takes the topmost token and becomes Normal. */
  function UnhideView(v: View, c: ClientId): (w: View)
    requires c in v.table
    ensures w.table.Keys == v.table.Keys && !w.table[c].hidden
    ensures v.table[c].hidden ==> w.props == SetWMState(v.props, v.table[c].window, NormalState) && w.topmost == Some(c)
    ensures !v.table[c].hidden ==> w == v
  {
    if !v.table[c].hidden then v
    else v.(table := v.table[c := v.table[c].(hidden := false)], topmost := Some(c),
            props := SetWMState(v.props, v.table[c].window, NormalState))
  }

  /** The first step of lclick_taskbutton on a view: old_c is hidden again if it was hidden when the drag began. */
  function RehideView(ids: seq<ClientId>, v: View, oldC: Option<ClientId>): (w: View)
    requires Registered(ids, v.table) && (oldC.Some? ==> oldC.value in v.table)
    ensures w.table.Keys == v.table.Keys
    ensures oldC.Some? ==> w.table[oldC.value].hidden == (v.table[oldC.value].hidden || v.table[oldC.value].wasHidden)
  {
    if oldC.Some? && v.table[oldC.value].wasHidden then HideView(ids, v, oldC.value) else v
  }

  /** The second step of lclick_taskbutton on a view: c is shown, hidden again, or raised or lowered. */
  function ButtonView(ids: seq<ClientId>, v: View, c: ClientId): (w: View)
    requires Registered(ids, v.table) && c in v.table
    ensures w.table.Keys == v.table.Keys
    ensures w.table[c].hidden == (!v.table[c].hidden && v.table[c].wasHidden)
  {
    if v.table[c].hidden then UnhideView(v, c)
    else if v.table[c].wasHidden then HideView(ids, v, c)
    else v.(topmost := if v.topmost == Some(c) then None else Some(c))
  }

  /** lclick_taskbutton(old_c, c) on a view: re-hide old_c, act on c, then focus c. */
  function ClickView(ids: seq<ClientId>, v: View, oldC: Option<ClientId>, c: ClientId): (w: View)
    requires Registered(ids, v.table) && c in v.table && (oldC.Some? ==> oldC.value in v.table)
    ensures w.table.Keys == v.table.Keys && w.focused == Some(c)
  {
    var v1 := RehideView(ids, v, oldC);
    FocusTo(ButtonView(ids, v1, c), Some(c))
  }

  /**
   * What a click does to the unmap counts and the focus: the clicked client ends focused;
   * every client hidden by the click (old_c re-hidden, or c hidden again) counts one more
   * unmap to ignore and no other count changes; when the counter moved, c carries its
   * final value, and when it did not, c was focused already and keeps its stamp.
   */
  lemma ClickViewCounts(ids: seq<ClientId>, v: View, oldC: Option<ClientId>, c: ClientId)
    requires Registered(ids, v.table) && c in v.table && (oldC.Some? ==> oldC.value in v.table)
    ensures var w := ClickView(ids, v, oldC, c);
      var hidden1 := v.table[c].hidden || (Rehides(v.table, oldC) && oldC == Some(c));
      && w.focused == Some(c)
      && w.table[c].ignoreUnmap ==
           v.table[c].ignoreUnmap + (if (Rehides(v.table, oldC) && oldC == Some(c)) || (!hidden1 && v.table[c].wasHidden) then 1 else 0)
      && (oldC.Some? && oldC.value != c ==>
            w.table[oldC.value].ignoreUnmap == v.table[oldC.value].ignoreUnmap + (if Rehides(v.table, oldC) then 1 else 0))
      && (forall id :: id in v.table && id != c && Some(id) != oldC ==> w.table[id].ignoreUnmap == v.table[id].ignoreUnmap)
      && (w.count > v.count ==> w.table[c].focusOrder == w.count)
      && (w.count == v.count ==> v.focused == Some(c) && w.table[c].focusOrder == v.table[c].focusOrder)
  {
    var v1 := RehideView(ids, v, oldC);
    var v2 := ButtonView(ids, v1, c);
    var w := FocusTo(v2, Some(c));
    forall id | id in v.table
      ensures w.table[id].ignoreUnmap == v.table[id].ignoreUnmap
        + (if Rehides(v.table, oldC) && Some(id) == oldC then 1 else 0)
        + (if id == c && !v1.table[c].hidden && v.table[c].wasHidden then 1 else 0)
    {
      RehideStep(ids, v, oldC, id);
      RehideStep(ids, v, oldC, c);
      ButtonStep(ids, v1, c, id);
    }
    RehideStep(ids, v, oldC, c);
    ButtonStep(ids, v1, c, c);
  }

  /** The first step of a click on one record: only a re-hidden old_c changes its flags or unmap count. */
  lemma RehideStep(ids: seq<ClientId>, v: View, oldC: Option<ClientId>, id: ClientId)
    requires Registered(ids, v.table) && (oldC.Some? ==> oldC.value in v.table) && id in v.table
    ensures var v1 := RehideView(ids, v, oldC); var hit := Rehides(v.table, oldC) && Some(id) == oldC;
      && v1.table[id].ignoreUnmap == v.table[id].ignoreUnmap + (if hit then 1 else 0)
      && v1.table[id].hidden == (v.table[id].hidden || hit)
      && v1.table[id].wasHidden == v.table[id].wasHidden
      && (v1.count == v.count <==> v1.focused == v.focused)
      && (v1.count == v.count || v1.count == v.count + 1)
      && (v1.count == v.count ==> v1.table[id].focusOrder == v.table[id].focusOrder)
  {
    if Rehides(v.table, oldC) {
      var t := v.table[oldC.value := HiddenRecord(v.table[oldC.value])];
      assert t[id].(focusOrder := v.table[id].focusOrder) == if Some(id) == oldC then HiddenRecord(v.table[id]) else v.table[id];
    }
  }

  /** The second step of a click on one record: only c, when hidden again, counts one more unmap. */
  lemma ButtonStep(ids: seq<ClientId>, v: View, c: ClientId, id: ClientId)
    requires Registered(ids, v.table) && c in v.table && id in v.table
    ensures var v2 := ButtonView(ids, v, c);
      && v2.table[id].ignoreUnmap ==
           v.table[id].ignoreUnmap + (if id == c && !v.table[c].hidden && v.table[c].wasHidden then 1 else 0)
      && (v2.count == v.count <==> v2.focused == v.focused)
      && (v2.count == v.count || v2.count == v.count + 1)
      && (v2.count == v.count ==> v2.table[id].focusOrder == v.table[id].focusOrder)
  {
  }

  /**
   * lclick_taskbutton(old_c, c): the button the pointer left (old_c) is hidden again if
   * it was hidden when the drag began; then c is shown if it is hidden, hidden again if
   * it was hidden when the drag began, and otherwise raised or lowered; finally c takes
   * the focus.
   */
  method LClickTaskbutton(ct: ClientTracker, oldC: Option<ClientId>, c: ClientId)
    requires ct.Valid() && c in ct.table && (oldC.Some? ==> oldC.value in ct.table)
    modifies ct
    ensures ct.Valid()
    ensures ct.focused == Some(c)
    ensures ViewOf(ct) == ClickView(old(ct.clients), old(ViewOf(ct)), oldC, c)
    ensures ClickOutcome(old(ct.table), old(ct.topmost), old(ct.wmProps), ct.table, ct.topmost, ct.wmProps, oldC, c)
    ensures ct.clients == old(ct.clients) && ct.fullscreen == old(ct.fullscreen)
    ensures ct.fsPrevDims == old(ct.fsPrevDims) && ct.nextId == old(ct.nextId)
  {
    ghost var t0, top0, p0 := ct.table, ct.topmost, ct.wmProps;
    RehideLeft(ct, oldC);
    ghost var t1, top1, p1 := ct.table, ct.topmost, ct.wmProps;
    ClickButton(ct, c);
    ghost var t2, top2, p2 := ct.table, ct.topmost, ct.wmProps;
    FocusClient(ct, c);
    ClickSteps(t0, top0, p0, t1, top1, p1, t2, top2, p2, ct.table, oldC, c);
  }

  /** The last step of lclick_taskbutton, check_focus(c): c takes the focus and only focus stamps change. */
  method FocusClient(ct: ClientTracker, c: ClientId)
    requires ct.Valid() && c in ct.table
    modifies ct
    ensures ct.Valid()
    ensures ViewOf(ct) == FocusTo(old(ViewOf(ct)), Some(c))
    ensures FlagsKept(old(ct.table), ct.table, {})
    ensures ct.clients == old(ct.clients) && ct.fullscreen == old(ct.fullscreen)
    ensures ct.fsPrevDims == old(ct.fsPrevDims) && ct.nextId == old(ct.nextId)
  {
    ghost var t := ct.table;
    ct.CheckFocus(Some(c));
    if ct.table != t {
      RestampKeepsFlags(t, c, ct.focusCount);
    }
  }

  /** The first step of lclick_taskbutton: the button the pointer left is hidden again if it was hidden at the start. */
  method RehideLeft(ct: ClientTracker, oldC: Option<ClientId>)
    requires ct.Valid() && (oldC.Some? ==> oldC.value in ct.table)
    modifies ct
    ensures ct.Valid()
    ensures ViewOf(ct) == RehideView(old(ct.clients), old(ViewOf(ct)), oldC)
    ensures FlagsKept(old(ct.table), ct.table, if oldC.Some? then {oldC.value} else {})
    ensures oldC.Some? ==>
      ct.table[oldC.value].hidden == (old(ct.table[oldC.value].hidden) || old(ct.table[oldC.value].wasHidden))
    ensures ct.topmost == if Rehides(old(ct.table), oldC) && old(ct.topmost) == oldC then None else old(ct.topmost)
    ensures ct.wmProps ==
      if Rehides(old(ct.table), oldC) then SetWMState(old(ct.wmProps), old(ct.table[oldC.value].window), IconicState)
      else old(ct.wmProps)
    ensures ct.clients == old(ct.clients) && ct.fullscreen == old(ct.fullscreen)
    ensures ct.fsPrevDims == old(ct.fsPrevDims) && ct.nextId == old(ct.nextId)
  {
    if oldC.Some? && ct.table[oldC.value].wasHidden {
      ghost var v0 := ViewOf(ct);
      HideClient(ct, oldC.value);
      if !v0.table[oldC.value].hidden {
        HideViewOf(ct.clients, v0, oldC.value, ViewOf(ct));
      }
    }
  }

  /** The second step of lclick_taskbutton, on the clicked client c. */
  method ClickButton(ct: ClientTracker, c: ClientId)
    requires ct.Valid() && c in ct.table
    modifies ct
    ensures ct.Valid()
    ensures FlagsKept(old(ct.table), ct.table, {c})
    ensures ct.table[c].hidden == (!old(ct.table[c].hidden) && old(ct.table[c].wasHidden))
    ensures old(ct.table[c].hidden) ==>
      ct.topmost == Some(c) && ct.wmProps == SetWMState(old(ct.wmProps), old(ct.table[c].window), NormalState)
    ensures !old(ct.table[c].hidden) && old(ct.table[c].wasHidden) ==>
      && ct.topmost == (if old(ct.topmost) == Some(c) then None else old(ct.topmost))
      && ct.wmProps == SetWMState(old(ct.wmProps), old(ct.table[c].window), IconicState)
    ensures !old(ct.table[c].hidden) && !old(ct.table[c].wasHidden) ==>
      ct.topmost == (if old(ct.topmost) == Some(c) then None else Some(c)) && ct.wmProps == old(ct.wmProps)
    ensures ct.clients == old(ct.clients) && ct.fullscreen == old(ct.fullscreen)
    ensures ct.fsPrevDims == old(ct.fsPrevDims) && ct.nextId == old(ct.nextId)
    ensures ViewOf(ct) == ButtonView(old(ct.clients), old(ViewOf(ct)), c)
  {
    if ct.table[c].hidden {
      Unhide(ct, c);
      UnhideKeepsFlags(old(ct.table), c);
    } else if ct.table[c].wasHidden {
      ghost var v0 := ViewOf(ct);
      HideClient(ct, c);
      HideViewOf(ct.clients, v0, c, ViewOf(ct));
    } else {
      RaiseLower(ct, c);
    }
  }

  /**
   * The client cyclePrevious selects: none when there are fewer than two clients;
   * otherwise the one before the focused client in list order, or the last client when
   * the focused client is the head or nothing is focused.
   */
  function PrevTarget(ids: seq<ClientId>, focused: Option<ClientId>): (r: Option<ClientId>)
    ensures r.None? <==> |ids| < 2
    ensures r.Some? ==> r.value in ids
  {
    if |ids| < 2 then None
    else
      var s := if focused.Some? && focused.value in ids then IndexOf(ids, focused.value) else 0;
      Some(ids[if s == 0 then |ids| - 1 else s - 1])
  }

  /**
   * The client cycleNext selects: none when there are fewer than two clients; otherwise
   * the one after the focused client, or the head when the focused client is the last
   * one or nothing is focused.
   */
  function NextTarget(ids: seq<ClientId>, focused: Option<ClientId>): (r: Option<ClientId>)
    ensures r.None? <==> |ids| < 2
    ensures r.Some? ==> r.value in ids
  {
    if |ids| < 2 then None
    else if focused.None? || focused.value !in ids || IndexOf(ids, focused.value) == |ids| - 1 then Some(ids[0])
    else Some(ids[IndexOf(ids, focused.value) + 1])
  }

  /** In a list without repetitions, the position of the element at k is k. */
  lemma IndexOfDistinct(ids: seq<ClientId>, k: nat)
    requires Distinct(ids) && k < |ids|
    ensures IndexOf(ids, ids[k]) == k
  {
  }

  /**
   * cycleNext and cyclePrevious undo each other: from any focused client among at least
   * two, stepping forwards then backwards, or backwards then forwards, comes back to it.
   */
  lemma CycleRoundTrip(ids: seq<ClientId>, f: ClientId)
    requires Distinct(ids) && |ids| >= 2 && f in ids
    ensures PrevTarget(ids, NextTarget(ids, Some(f))) == Some(f)
    ensures NextTarget(ids, PrevTarget(ids, Some(f))) == Some(f)
  {
    var n, k := |ids|, IndexOf(ids, f);
    var next := if k == n - 1 then 0 else k + 1;
    var prev := if k == 0 then n - 1 else k - 1;
    IndexOfDistinct(ids, next);
    IndexOfDistinct(ids, prev);
    assert NextTarget(ids, Some(f)) == Some(ids[next]);
    assert PrevTarget(ids, Some(f)) == Some(ids[prev]);
  }

  /**
   * cyclePrevious: with at least two clients, walks forwards from the focused client (the
   * head when nothing is focused), wrapping at the end, until the client whose successor
   * is the focused one (the last client when the focused one is the head), and clicks its
   * task button. The target is returned; none means nothing happened.
   */
  method CyclePrevious(ct: ClientTracker) returns (target: Option<ClientId>)
    requires ct.Valid()
    modifies ct
    ensures ct.Valid()
    ensures target == PrevTarget(old(ct.clients), old(ct.focused))
    ensures target.None? ==> unchanged(ct)
    ensures target.Some? ==>
      && ct.focused == target && ct.clients == old(ct.clients)
      && ct.table[target.value].hidden == (!old(ct.table[target.value].hidden) && old(ct.table[target.value].wasHidden))
      && ClickOutcome(old(ct.table), old(ct.topmost), old(ct.wmProps), ct.table, ct.topmost, ct.wmProps, None, target.value)
    ensures target.Some? ==> ViewOf(ct) == ClickView(old(ct.clients), old(ViewOf(ct)), None, target.value)
  {
    var ids := ct.clients;
    var n := |ids|;
    if n < 2 {
      return None;
    }
    if ct.focused.Some? {
      assert ct.focused.value in ct.table;
    }
    // positions in the list stand for the client pointers; None for a null original_c
    var start := if ct.focused.Some? then IndexOf(ids, ct.focused.value) else 0;
    var original: Option<nat> := if start == 0 then None else Some(start);
    ghost var goal := if start == 0 then n - 1 else start - 1;
    var c := if start == n - 1 then 0 else start + 1;
    while !(if c == n - 1 then original.None? else original == Some(c + 1))
      invariant 0 <= c < n
      decreases if c <= goal then goal - c else goal - c + n
    {
      c := if c == n - 1 then 0 else c + 1;
    }
    assert c == goal;
    target := Some(ids[c]);
    LClickTaskbutton(ct, None, ids[c]);
  }

  /**
   * cycleNext: with at least two clients, clicks the task button of the client after the
   * focused one (the head when the focused one is last or nothing is focused).
   */
  method CycleNext(ct: ClientTracker) returns (target: Option<ClientId>)
    requires ct.Valid()
    modifies ct
    ensures ct.Valid()
    ensures target == NextTarget(old(ct.clients), old(ct.focused))
    ensures target.None? ==> unchanged(ct)
    ensures target.Some? ==>
      && ct.focused == target && ct.clients == old(ct.clients)
      && ct.table[target.value].hidden == (!old(ct.table[target.value].hidden) && old(ct.table[target.value].wasHidden))
      && ClickOutcome(old(ct.table), old(ct.topmost), old(ct.wmProps), ct.table, ct.topmost, ct.wmProps, None, target.value)
    ensures target.Some? ==> ViewOf(ct) == ClickView(old(ct.clients), old(ViewOf(ct)), None, target.value)
  {
    var ids := ct.clients;
    if |ids| < 2 {
      return None;
    }
    var c: ClientId;
    if ct.focused.None? || IndexOf(ids, ct.focused.value) == |ids| - 1 {
      c := ids[0];
    } else {
      c := ids[IndexOf(ids, ct.focused.value) + 1];
    }
    if ct.focused.Some? {
      assert ct.focused.value in ct.table;
    }
    target := Some(c);
    LClickTaskbutton(ct, None, c);
  }

  /** UINT_MAX, the "no item" answer of updateMenuItem and the initial last_item. */
  const UintMax: nat := 0xFFFF_FFFF
  /** INT_MAX, the pointer position that asks updateMenuItem only to reset last_item. */
  const IntMax: int := 0x7FFF_FFFF

  /** The pointer's x lies over the item, both edges included. */
  predicate Covers(m: MenuItem, x: int) {
    m.x <= x <= m.x + m.width
  }

  /** In a laid-out menu the items lie left to right: a later item starts after an earlier one ends. */
  lemma {:induction false} LaidOutOrdered(items: seq<MenuItem>, textWidth: string -> nat, j: nat, k: nat)
    requires LaidOut(items, textWidth) && j < k < |items|
    ensures items[k].x > items[j].x + items[j].width
    decreases k - j
  {
    if k > j + 1 {
      LaidOutOrdered(items, textWidth, j + 1, k);
    }
  }

  /** No pointer position lies over two items of a laid-out menu. */
  lemma LaidOutDisjoint(items: seq<MenuItem>, textWidth: string -> nat, x: int, j: nat, k: nat)
    requires LaidOut(items, textWidth) && j < k < |items|
    ensures !(Covers(items[j], x) && Covers(items[k], x))
  {
    LaidOutOrdered(items, textWidth, j, k);
  }

  /**
   * A laid-out menu leaves no gaps: every position from 0 to the end of item n - 1 lies
   * over one of the first n items.
   */
  lemma {:induction false} LaidOutCovers(items: seq<MenuItem>, textWidth: string -> nat, x: int, n: nat)
    requires LaidOut(items, textWidth) && 0 < n <= |items|
    requires 0 <= x <= items[n - 1].x + items[n - 1].width
    ensures exists k :: 0 <= k < n && Covers(items[k], x)
  {
    if x >= items[n - 1].x {
      assert Covers(items[n - 1], x);
    } else {
      assert n > 1;
      LaidOutCovers(items, textWidth, x, n - 1);
    }
  }

  /** Taskbar::updateMenuItem and its static last_item (the item highlighted last). */
  class MenuHighlight {
    var lastItem: nat

    /** last_item starts at UINT_MAX. */
    constructor ()
      ensures lastItem == UintMax
    {
      lastItem := UintMax;
    }

    /**
     * updateMenuItem(x): the pointer position INT_MAX only sets last_item to the item
     * count (nothing highlighted). Otherwise the answer is the first item under the
     * pointer, or UINT_MAX when there is none; when that differs from last_item, the old
     * item (if any) is drawn plain, the new one (if any) highlighted, and it becomes
     * last_item.
     */
    method UpdateMenuItem(items: seq<MenuItem>, x: int) returns (r: nat, plain: Option<nat>, highlighted: Option<nat>)
      requires |items| < UintMax
      modifies this
      ensures x == IntMax ==> lastItem == |items| && r == UintMax && plain.None? && highlighted.None?
      ensures x != IntMax ==> r == UintMax || r < |items|
      ensures x != IntMax && r < |items| ==> Covers(items[r], x) && forall j :: 0 <= j < r ==> !Covers(items[j], x)
      ensures x != IntMax && r == UintMax ==> forall j :: 0 <= j < |items| ==> !Covers(items[j], x)
      ensures x != IntMax ==> lastItem == if r == UintMax then |items| else r
      ensures x != IntMax ==>
        plain == if lastItem != old(lastItem) && old(lastItem) != |items| then Some(old(lastItem)) else None
      ensures x != IntMax ==>
        highlighted == if lastItem != old(lastItem) && r != UintMax then Some(r) else None
    {
      plain, highlighted := None, None;
      if x == IntMax {
        lastItem := |items|;
        return UintMax, None, None;
      }
      var i := 0;
      while i < |items| && !Covers(items[i], x)
        invariant 0 <= i <= |items|
        invariant forall j :: 0 <= j < i ==> !Covers(items[j], x)
      {
        i := i + 1;
      }
      if i != lastItem {
        if lastItem != |items| {
          plain := Some(lastItem);
        }
        if i != |items| {
          highlighted := Some(i);
        }
        lastItem := i;
      }
      r := if i != |items| then i else UintMax;
    }
  }
}
