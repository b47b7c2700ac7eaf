/**
 * The client registry of client.cc (ClientTracker): the managed clients in registration
 * order, the three singleton references (focused, topmost, fullscreen), the focus
 * counter, the rectangle saved for the fullscreen client, and the WM_STATE property
 * the manager writes on each client window (section 4.1.3.1 of the ICCCM).
 *
 * The legacy globals of new.cc and taskbar.cc (head_client with its next pointers,
 * focused_client, topmost_client) denote the same registry and are mapped onto it.
 * A client is named by a handle (ClientId) that is never reused, standing in for the
 * identity of the shared pointer; its record lives in `table`.
 */
module Registry {
  import opened Wrappers
  import opened Geometry

  type ClientId = nat
  /** An X resource id; 0 is None. */
  type Window = nat
  const NoWindow: Window := 0

  /** WM_STATE values of the ICCCM. */
  const WithdrawnState: int := 0
  const NormalState: int := 1
  const IconicState: int := 3

  /** find's mode: match the client window (WINDOW) or the frame (FRAME). */
  datatype FindMode = ByWindow | ByFrame
  /** remove's mode: the client is going away (WITHDRAW) or the manager is exiting (REMAP). */
  datatype RemoveMode = Withdraw | Remap

  /** The WM_STATE property: the state and the icon window (always None here). */
  datatype WmProperty = WmProperty(state: int, icon: Window)

  /** What getWMState reads: the stored state, or Withdrawn when there is no property. */
  function StateOf(props: map<Window, WmProperty>, w: Window): (s: int)
    ensures w !in props ==> s == WithdrawnState
  {
    if w in props then props[w].state else WithdrawnState
  }

  /**
   * setWMState: replaces the property on the window with the pair [state, None];
   * no other window's property changes.
   */
  function SetWMState(props: map<Window, WmProperty>, w: Window, state: int): (p: map<Window, WmProperty>)
    ensures w in p && p[w] == WmProperty(state, NoWindow)
    ensures forall v :: v != w ==> StateOf(p, v) == StateOf(props, v)
    ensures p.Keys == props.Keys + {w}
  {
    props[w := WmProperty(state, NoWindow)]
  }

  /**
   * The per-client record: the client window, its frame, the WM_TRANSIENT_FOR owner
   * (NoWindow for a normal window), the client rectangle, the size hints, the number of
   * UnmapNotify events to ignore, the hidden and was-hidden flags, and the focus stamp.
   */
  datatype Client = Client(
    window: Window, frame: Window, trans: Window,
    rect: Rect, hints: SizeHints,
    ignoreUnmap: nat, hidden: bool, wasHidden: bool, focusOrder: nat)
  {
    predicate IsTransient() { trans != NoWindow }
  }

  function Handle(c: Client, mode: FindMode): Window {
    match mode
    case ByWindow => c.window
    case ByFrame => c.frame
  }

  predicate Registered(ids: seq<ClientId>, table: map<ClientId, Client>) {
    forall i :: 0 <= i < |ids| ==> ids[i] in table
  }

  ghost predicate Distinct(ids: seq<ClientId>) {
    forall i, j :: 0 <= i < j < |ids| ==> ids[i] != ids[j]
  }

  /** The position of an element of a sequence (its first occurrence). */
  function IndexOf(ids: seq<ClientId>, x: ClientId): (k: nat)
    requires x in ids
    ensures k < |ids| && ids[k] == x
    ensures forall j :: 0 <= j < k ==> ids[j] != x
  {
    if ids[0] == x then 0 else 1 + IndexOf(ids[1..], x)
  }

  /**
   * The index of the first client, in registration order, whose window (or frame)
   * is w; None when there is none.
   */
  function FirstMatch(ids: seq<ClientId>, table: map<ClientId, Client>, w: Window, mode: FindMode): (r: Option<nat>)
    requires Registered(ids, table)
    ensures r.Some? ==> r.value < |ids| && Handle(table[ids[r.value]], mode) == w
    ensures r.Some? ==> forall j :: 0 <= j < r.value ==> Handle(table[ids[j]], mode) != w
    ensures r.None? <==> forall j :: 0 <= j < |ids| ==> Handle(table[ids[j]], mode) != w
    decreases |ids|
  {
    if |ids| == 0 then None
    else if Handle(table[ids[0]], mode) == w then Some(0)
    else
      match FirstMatch(ids[1..], table, w, mode)
      case None => None
      case Some(k) => Some(k + 1)
  }

  function IdAt(ids: seq<ClientId>, i: Option<nat>): Option<ClientId>
    requires i.Some? ==> i.value < |ids|
  {
    match i
    case None => None
    case Some(k) => Some(ids[k])
  }

  /** What find reports: the first client, in registration order, whose window (or frame) is w. */
  function Lookup(ids: seq<ClientId>, table: map<ClientId, Client>, w: Window, mode: FindMode): (r: Option<ClientId>)
    requires Registered(ids, table)
    ensures r.Some? ==> r.value in table && Handle(table[r.value], mode) == w
    ensures r.None? <==> forall j :: 0 <= j < |ids| ==> Handle(table[ids[j]], mode) != w
  {
    IdAt(ids, FirstMatch(ids, table, w, mode))
  }

  /** The table with one client's focus stamp replaced. */
  function Restamp(table: map<ClientId, Client>, id: ClientId, stamp: nat): (t: map<ClientId, Client>)
    requires id in table
    ensures t.Keys == table.Keys && t[id].focusOrder == stamp
    ensures forall other :: other in table && other != id ==> t[other] == table[other]
  {
    table[id := table[id].(focusOrder := stamp)]
  }

  /** The stamp getPreviousFocused compares: 0 for a hidden client, which it skips. */
  function Recency(c: Client): nat {
    if c.hidden then 0 else c.focusOrder
  }

  /** getPreviousFocused's loop after the first k clients: the index it holds and the highest stamp seen. */
  function ScanRecent(ids: seq<ClientId>, table: map<ClientId, Client>, k: nat): (r: (Option<nat>, nat))
    requires Registered(ids, table) && k <= |ids|
    ensures r.0.Some? ==> r.0.value < k
  {
    if k == 0 then (None, 0)
    else
      var (b, h) := ScanRecent(ids, table, k - 1);
      var rec := Recency(table[ids[k - 1]]);
      if rec > h then (Some(k - 1), rec) else (b, h)
  }

  /**
   * What the scan holds: the earliest client with the strictly greatest positive
   * recency among the first k, or nothing while every recency is 0.
   */
  lemma {:induction false} ScanRecentSpec(ids: seq<ClientId>, table: map<ClientId, Client>, k: nat)
    requires Registered(ids, table) && k <= |ids|
    ensures var r := ScanRecent(ids, table, k);
      && (r.0.None? ==> r.1 == 0)
      && (r.0.None? <==> forall j :: 0 <= j < k ==> Recency(table[ids[j]]) == 0)
      && (r.0.Some? ==> r.1 == Recency(table[ids[r.0.value]]) > 0)
      && (forall j :: 0 <= j < k ==> Recency(table[ids[j]]) <= r.1)
      && (r.0.Some? ==> forall j :: 0 <= j < r.0.value ==> Recency(table[ids[j]]) < r.1)
  {
    if k > 0 {
      ScanRecentSpec(ids, table, k - 1);
    }
  }

  /** The client getPreviousFocused returns. */
  function PrevFocused(ids: seq<ClientId>, table: map<ClientId, Client>): Option<ClientId>
    requires Registered(ids, table)
  {
    IdAt(ids, ScanRecent(ids, table, |ids|).0)
  }

  /**
   * getPreviousFocused picks a visible client with a positive stamp, none carries a
   * higher one, and every client before it in registration order carries a lower one;
   * it picks nothing exactly when no visible client has a positive stamp.
   */
  lemma PrevFocusedSpec(ids: seq<ClientId>, table: map<ClientId, Client>)
    requires Registered(ids, table)
    ensures var r := PrevFocused(ids, table);
      && (r.None? <==> forall j :: 0 <= j < |ids| ==> Recency(table[ids[j]]) == 0)
      && (r.Some? ==>
            exists i :: (0 <= i < |ids| && ids[i] == r.value
              && Recency(table[r.value]) > 0
              && (forall j :: 0 <= j < |ids| ==> Recency(table[ids[j]]) <= Recency(table[r.value]))
              && (forall j :: 0 <= j < i ==> Recency(table[ids[j]]) < Recency(table[r.value]))))
  {
    ScanRecentSpec(ids, table, |ids|);
  }

  /**
   * The focus stamps: none exceeds the counter; the focused client carries the counter
   * itself, and while the counter is positive no other client does.
   */
  ghost predicate StampsValid(table: map<ClientId, Client>, focused: Option<ClientId>, count: nat) {
    && (forall id :: id in table ==> table[id].focusOrder <= count)
    && (forall id :: id in table && table[id].focusOrder == count && count > 0 ==> focused == Some(id))
    && (focused.Some? ==> focused.value in table && table[focused.value].focusOrder == count > 0)
  }

  /** No two clients share a client window. */
  ghost predicate WindowsDistinct(table: map<ClientId, Client>) {
    forall a, b :: a in table && b in table && a != b ==> table[a].window != table[b].window
  }

  /** A client is hidden exactly when the WM_STATE on its window says Iconic. */
  ghost predicate StatesAgree(table: map<ClientId, Client>, props: map<Window, WmProperty>) {
    forall id :: id in table ==> (table[id].hidden <==> StateOf(props, table[id].window) == IconicState)
  }

  /**
   * The focused client, when it is visible, is the one getPreviousFocused picks:
   * it carries the highest stamp and no other client carries that stamp.
   */
  lemma {:induction false} FocusedIsMostRecent(ids: seq<ClientId>, table: map<ClientId, Client>, focused: Option<ClientId>, count: nat)
    requires Registered(ids, table) && StampsValid(table, focused, count)
    requires focused.Some? && focused.value in ids && !table[focused.value].hidden
    ensures PrevFocused(ids, table) == focused
  {
    var f := focused.value;
    var k := IndexOf(ids, f);
    var r := ScanRecent(ids, table, |ids|);
    ScanRecentSpec(ids, table, |ids|);
    assert Recency(table[ids[k]]) == count;
    assert r.0.Some?;
    var chosen := ids[r.0.value];
    assert table[chosen].focusOrder == count;
  }

  /** Without a visible client carrying a positive stamp, getPreviousFocused finds nothing. */
  lemma NoCandidateNoFocus(ids: seq<ClientId>, table: map<ClientId, Client>)
    requires Registered(ids, table)
    requires forall i :: 0 <= i < |ids| ==> table[ids[i]].hidden || table[ids[i]].focusOrder == 0
    ensures PrevFocused(ids, table) == None
  {
    ScanRecentSpec(ids, table, |ids|);
    assert forall j :: 0 <= j < |ids| ==> Recency(table[ids[j]]) == 0;
  }

  /** The registration order with one client taken out; the others keep their order. */
  function Without(ids: seq<ClientId>, c: ClientId): (r: seq<ClientId>)
    requires c in ids
    ensures |r| == |ids| - 1
    ensures r == ids[..IndexOf(ids, c)] + ids[IndexOf(ids, c) + 1..]
  {
    var k := IndexOf(ids, c);
    ids[..k] + ids[k + 1..]
  }

  /**
   * Focusing the client getPreviousFocused returned leaves focus on the client a new
   * getPreviousFocused would return.
   */
  lemma FocusAfterCheck(ids: seq<ClientId>, table: map<ClientId, Client>, focused: Option<ClientId>, count: nat, prev: Option<ClientId>)
    requires Members(ids, table) && StampsValid(table, focused, count)
    requires focused == prev
    requires prev.Some? ==> prev.value in table && !table[prev.value].hidden
    requires prev.None? ==> PrevFocused(ids, table) == None
    ensures focused == PrevFocused(ids, table)
  {
    if prev.Some? {
      FocusedIsMostRecent(ids, table, focused, count);
    }
  }

  /** Removing one element of a sequence without repetitions. */
  lemma RemoveAt(ids: seq<ClientId>, k: nat)
    requires Distinct(ids) && k < |ids|
    ensures Distinct(ids[..k] + ids[k + 1..])
    ensures forall x :: x in ids[..k] + ids[k + 1..] <==> x in ids && x != ids[k]
  {
    var s := ids[..k] + ids[k + 1..];
    forall i | 0 <= i < |s| ensures s[i] == if i < k then ids[i] else ids[i + 1] {
    }
    forall x ensures x in s <==> x in ids && x != ids[k] {
      if x in s {
        var i :| 0 <= i < |s| && s[i] == x;
      }
      if x in ids && x != ids[k] {
        var i :| 0 <= i < |ids| && ids[i] == x;
        assert i != k;
        if i < k { assert s[i] == x; } else { assert s[i - 1] == x; }
      }
    }
  }

  /** The registration order lists exactly the clients in the table, each once. */
  ghost predicate Members(ids: seq<ClientId>, table: map<ClientId, Client>) {
    Distinct(ids) && (forall id :: id in table <==> id in ids)
  }

  /**
   * The registry invariant: the order and the table agree; handles are below the next
   * one to be given out (so a stale topmost handle never names a later client); the
   * fullscreen reference names a live client; the focus stamps are consistent; client
   * windows are distinct; and hidden agrees with WM_STATE.
   */
  ghost predicate Consistent(
    ids: seq<ClientId>, table: map<ClientId, Client>,
    focused: Option<ClientId>, topmost: Option<ClientId>, fullscreen: Option<ClientId>,
    count: nat, props: map<Window, WmProperty>, nextId: ClientId)
  {
    && Members(ids, table)
    && (forall id :: id in table ==> id < nextId)
    && (fullscreen.Some? ==> fullscreen.value in table)
    && (topmost.Some? ==> topmost.value < nextId)
    && StampsValid(table, focused, count)
    && WindowsDistinct(table)
    && StatesAgree(table, props)
  }

  /**
   * Replacing a client record by one with the same window, hidden flag and focus stamp
   * (a new rectangle, size hints, unmap count or was-hidden flag) keeps the registry consistent.
   */
  lemma RecordUpdateConsistent(
    ids: seq<ClientId>, table: map<ClientId, Client>,
    focused: Option<ClientId>, topmost: Option<ClientId>, fullscreen: Option<ClientId>,
    count: nat, props: map<Window, WmProperty>, nextId: ClientId, c: ClientId, rec: Client)
    requires Consistent(ids, table, focused, topmost, fullscreen, count, props, nextId)
    requires c in table && rec.window == table[c].window
    requires rec.hidden == table[c].hidden && rec.focusOrder == table[c].focusOrder
    ensures Consistent(ids, table[c := rec], focused, topmost, fullscreen, count, props, nextId)
  {
    var t := table[c := rec];
    assert forall id :: id in t ==>
      t[id].window == table[id].window && t[id].hidden == table[id].hidden && t[id].focusOrder == table[id].focusOrder;
  }

  /** Taking a client out of the registry (before a new focus is chosen) keeps it consistent. */
  lemma UnlinkConsistent(
    ids: seq<ClientId>, table: map<ClientId, Client>,
    focused: Option<ClientId>, topmost: Option<ClientId>, fullscreen: Option<ClientId>,
    count: nat, props: map<Window, WmProperty>, nextId: ClientId, c: ClientId, withdraw: bool)
    requires Consistent(ids, table, focused, topmost, fullscreen, count, props, nextId)
    requires c in table
    ensures Consistent(Without(ids, c), table - {c},
        if focused == Some(c) then None else focused, topmost,
        if fullscreen == Some(c) then None else fullscreen, count,
        if withdraw then SetWMState(props, table[c].window, WithdrawnState) else props, nextId)
  {
    var k := IndexOf(ids, c);
    RemoveAt(ids, k);
    var w := table[c].window;
    var t := table - {c};
    var p := if withdraw then SetWMState(props, w, WithdrawnState) else props;
    forall id | id in t
      ensures t[id].hidden <==> StateOf(p, t[id].window) == IconicState
    {
      assert t[id].window != w;
    }
  }

  class ClientTracker {
    var clients: seq<ClientId>
    var table: map<ClientId, Client>
    var focused: Option<ClientId>
    var topmost: Option<ClientId>
    var fullscreen: Option<ClientId>
    var focusCount: nat
    /** fs_prevdims: the rectangle the fullscreen client returns to. */
    var fsPrevDims: Rect
    /** The WM_STATE properties held by the X server, by window. */
    var wmProps: map<Window, WmProperty>
    /** The next handle to give out; handles are never reused. */
    var nextId: ClientId

    ghost predicate Valid()
      reads this
    {
      Consistent(clients, table, focused, topmost, fullscreen, focusCount, wmProps, nextId)
    }

    /** The registry when the manager starts: no clients, no references, counter 0. */
    constructor ()
      ensures Valid()
      ensures clients == [] && table == map[] && wmProps == map[]
      ensures focused == None && topmost == None && fullscreen == None && focusCount == 0
    {
      clients, table := [], map[];
      focused, topmost, fullscreen := None, None, None;
      focusCount := 0;
      fsPrevDims := Rect(0, 0, 0, 0);
      wmProps := map[];
      nextId := 0;
    }

    /** The topmost reference, when it names a live client, names a visible one. */
    ghost predicate TopmostVisible()
      reads this
    {
      topmost.Some? && topmost.value in table ==> !table[topmost.value].hidden
    }

    /** ClientTracker::find: the first client whose window (or frame) is w. */
    method Find(w: Window, mode: FindMode) returns (r: Option<ClientId>)
      requires Valid()
      ensures r == IdAt(clients, FirstMatch(clients, table, w, mode))
      ensures r.Some? ==> r.value in table && Handle(table[r.value], mode) == w
      ensures r.None? <==> forall id :: id in table ==> Handle(table[id], mode) != w
    {
      assert Registered(clients, table);
      var i := 0;
      while i < |clients|
        invariant 0 <= i <= |clients|
        invariant forall j :: 0 <= j < i ==> Handle(table[clients[j]], mode) != w
      {
        if Handle(table[clients[i]], mode) == w {
          r := Some(clients[i]);
          return;
        }
        i := i + 1;
      }
      r := None;
      forall id | id in table ensures Handle(table[id], mode) != w {
        var j :| 0 <= j < |clients| && clients[j] == id;
      }
    }

    /** ClientTracker::getPreviousFocused: the visible client focused most recently. */
    method GetPreviousFocused() returns (r: Option<ClientId>)
      requires Valid()
      ensures r == PrevFocused(clients, table)
      ensures r.Some? ==> r.value in table && !table[r.value].hidden && table[r.value].focusOrder > 0
    {
      assert Registered(clients, table);
      var prev: Option<nat> := None;
      var highest: nat := 0;
      var i := 0;
      while i < |clients|
        invariant 0 <= i <= |clients|
        invariant (prev, highest) == ScanRecent(clients, table, i)
      {
        var c := table[clients[i]];
        if !c.hidden && c.focusOrder > highest {
          highest := c.focusOrder;
          prev := Some(i);
        }
        i := i + 1;
      }
      ScanRecentSpec(clients, table, |clients|);
      r := IdAt(clients, prev);
    }

    /**
     * ClientTracker::checkFocus: focusing the client already focused changes nothing;
     * otherwise the reference moves to c, the counter goes up by one and c is stamped
     * with the new counter value.
     */
    method CheckFocus(c: Option<ClientId>)
      requires Valid()
      requires c.Some? ==> c.value in table
      modifies this
      ensures Valid()
      ensures c == old(focused) ==> focused == old(focused) && focusCount == old(focusCount) && table == old(table)
      ensures c != old(focused) ==> focused == c && focusCount == old(focusCount) + 1
      ensures c != old(focused) && c.Some? ==>
        table == Restamp(old(table), c.value, focusCount)
      ensures c.None? ==> table == old(table)
      ensures clients == old(clients) && topmost == old(topmost) && fullscreen == old(fullscreen)
      ensures wmProps == old(wmProps) && fsPrevDims == old(fsPrevDims) && nextId == old(nextId)
    {
      if c != focused {
        focused := c;
        focusCount := focusCount + 1;
        if c.Some? {
          table := Restamp(table, c.value, focusCount);
        }
      }
    }

    /**
     * checkFocus(getPreviousFocused()), the step hide and remove end with: focus moves
     * to the visible client focused most recently (or to nothing), and that client is
     * then also what getPreviousFocused returns.
     */
    method FocusPrevious()
      requires Valid()
      modifies this
      ensures Valid()
      ensures focused == PrevFocused(old(clients), old(table))
      ensures focused == PrevFocused(clients, table)
      ensures focused.Some? ==> focused.value in table && !table[focused.value].hidden
      ensures focused != old(focused) && focused.Some? ==> table == Restamp(old(table), focused.value, focusCount)
      ensures focused == old(focused) || focused.None? ==> table == old(table)
      ensures focusCount == if focused == old(focused) then old(focusCount) else old(focusCount) + 1
      ensures clients == old(clients) && topmost == old(topmost) && fullscreen == old(fullscreen)
      ensures wmProps == old(wmProps) && fsPrevDims == old(fsPrevDims) && nextId == old(nextId)
    {
      var prev := GetPreviousFocused();
      CheckFocus(prev);
      FocusAfterCheck(clients, table, focused, focusCount, prev);
    }

    /**
     * ClientTracker::remove: WITHDRAW writes WM_STATE Withdrawn (REMAP re-maps the
     * window instead, which is not modelled); the client leaves the registry; a
     * fullscreen reference to it is cleared; if it was focused, focus passes to the
     * most recently focused visible client that remains. The topmost reference is
     * left as it was.
     */
    method Remove(c: ClientId, mode: RemoveMode)
      requires Valid() && c in table
      modifies this
      ensures Valid()
      ensures clients == Without(old(clients), c)
      ensures c !in clients && table.Keys == old(table.Keys) - {c}
      ensures mode == Withdraw ==> wmProps == SetWMState(old(wmProps), old(table[c].window), WithdrawnState)
      ensures mode == Remap ==> wmProps == old(wmProps)
      ensures fullscreen == if old(fullscreen) == Some(c) then None else old(fullscreen)
      ensures old(focused) == Some(c) ==> focused == PrevFocused(clients, old(table) - {c})
      ensures old(focused) == Some(c) && focused.Some? ==>
        focused.value in old(table) - {c} && table == Restamp(old(table) - {c}, focused.value, focusCount)
      ensures old(focused) != Some(c) || focused.None? ==> table == old(table) - {c}
      ensures old(focused) != Some(c) ==> focused == old(focused) && focusCount == old(focusCount)
      ensures old(focused) == Some(c) ==> focusCount == if focused.None? then old(focusCount) else old(focusCount) + 1
      ensures topmost == old(topmost) && fsPrevDims == old(fsPrevDims) && nextId == old(nextId)
    {
      var wasFocused := focused == Some(c);
      Unlink(c, mode);
      if wasFocused {
        FocusPrevious();
      }
    }

    /** The first half of remove: everything up to the choice of the next focus. */
    method Unlink(c: ClientId, mode: RemoveMode)
      requires Valid() && c in table
      modifies this
      ensures Valid()
      ensures clients == Without(old(clients), c)
      ensures c !in clients && table == old(table) - {c}
      ensures mode == Withdraw ==> wmProps == SetWMState(old(wmProps), old(table[c].window), WithdrawnState)
      ensures mode == Remap ==> wmProps == old(wmProps)
      ensures fullscreen == if old(fullscreen) == Some(c) then None else old(fullscreen)
      ensures focused == if old(focused) == Some(c) then None else old(focused)
      ensures focusCount == old(focusCount) && topmost == old(topmost)
      ensures fsPrevDims == old(fsPrevDims) && nextId == old(nextId)
    {
      var ids, t := Without(clients, c), table - {c};
      var f := if focused == Some(c) then None else focused;
      var fs := if fullscreen == Some(c) then None else fullscreen;
      var p := if mode == Withdraw then SetWMState(wmProps, table[c].window, WithdrawnState) else wmProps;
      UnlinkConsistent(clients, table, focused, topmost, fullscreen, focusCount, wmProps, nextId, c, mode == Withdraw);
      assert Consistent(ids, t, f, topmost, fs, focusCount, p, nextId);
      clients, table, focused, fullscreen, wmProps := ids, t, f, fs, p;
    }
  }
}
