# windowlab — a verified model of the window manager's core

WindowLab is a small X11 window manager. Every top-level window it manages gets a
frame with a title bar (close, raise/lower and hide buttons). A taskbar along the top
edge shows a button per client and the application menu read from a `windowlab.menurc`
file. This project models in Dafny the state and decisions at the centre of the manager.
X server I/O is left out.

* **Geometry** (`geometry.dfy`): the `Rect` value type with its setters and conditional
  setters, the screen and title-bar height, the size hints, and the constants of
  `windowlab.h`.
* **Placement** (`placement.dfy`):
  * window gravity (`gravitate`);
  * clamping a client rectangle to the display (`fixPosition`, `refixPosition`).
* **Registry** (`registry.dfy`): the client tracker, as the class `ClientTracker`. It holds:
  * the clients in registration order, and a table of client records keyed by stable handles;
  * the focused, topmost and fullscreen clients, and the focus counter;
  * the rectangle saved by fullscreen;
  * the WM_STATE property on each window.

  Its operations are `find`, `checkFocus`, `getPreviousFocused` and `remove`. The class
  keeps one invariant, `Consistent`:
  * the order and the table agree;
  * focus stamps are consistent with the focused client;
  * client windows are distinct;
  * `hidden` agrees with WM_STATE.
* **Manage** (`manage.dfy`): `raiseLower`, `hide`, `unhide` and `toggleFullscreen`.
* **Sizing** (`sizing.dfy`): the arithmetic of one motion step of an interactive resize.
  This covers the outward and inward edge drags, `get_incsize` with C's truncating `%`
  and `/`, and `limit_size`. It also covers one step of a move and the fullscreen layout.
* **NewClient** (`newclient.dfy`): `makeNewClient` and `init_position`.
* **Events** (`events.cc` / `misc.cc` handlers, in `events.dfy`):
  * map, unmap, destroy, client message, configure, enter and expose;
  * the X error handler;
  * the frame's button press, `boxClicked`, and the title-bar double-click latch.
* **TaskbarState** (`taskbar_state.dfy`): the flags `in_taskbar` and `showing_taskbar`.
* **MenuFile** (`menufile.dfy`):
  * `trimLeadingWs` and `parseLine`;
  * the loop that reads menu lines;
  * the fallback entry and the layout of menu items;
  * the reload flag.
* **Taskbar** (`taskbar.dfy`):
  * `remember_hidden` and `forget_hidden`;
  * the click on a task button;
  * cycling to the previous or next client;
  * `updateMenuItem`'s hit test with its remembered last item.

Where the source's comments and its code differ, the model follows the code:

* A new client that starts Iconic still gets focus when no client has it (`new.cc:119-124`).
* `ClientTracker::remove` clears the focused and fullscreen references but not the
  topmost one (`client.cc:139-147`). `topmost` may therefore name a removed handle.
  Handles are never reused, so it never names a later client.
* `raiseLower` on a hidden client makes it topmost. "A hidden client is never topmost"
  is therefore the separate predicate `TopmostVisible`. Every operation except that one
  preserves it.
* `handle_configure_request` sends the client window the requested width and height
  (`events.cc:337-338`), not the clamped ones. The model records this call as written.
* When a client declares a zero resize increment, `resize` leaves the new width at 0
  (and the new height at 0 before the title bar is added back) before `limit_size`
  (`manage.cc:259, 325-330`). `Sizing.SnapToIncrements` states exactly that.

The C++ field `MenuItem::label` is called `caption` here, because `label` is a Dafny
keyword. Client identity (a `shared_ptr` in the source) is a natural-number handle,
taken from a counter that only grows.

## Model

| member | source | states |
|---|---|---|
| Geometry.MinimumSizeIsSquare | windowlab.h:135-141 | the minimum window width and height are both four title-bar heights |
| Geometry.Clamp | misc.cc:170-200 | raising to a lower limit and then lowering to an upper one gives the value itself when it is within the limits, the crossed limit otherwise, and the upper limit when the limits cross; never above the upper limit, never below the lower one when the limits leave room |
| Geometry.ClampIdempotent | misc.cc:170-200 | clamping a clamped value changes nothing |
| Geometry.GravityMultipliersAreInverse | windowlab.h:144-145 | applying and removing gravity use opposite multipliers |
| Geometry.Rect.SetX | windowlab.h:214 | the new x is the value and the other three fields are kept |
| Geometry.Rect.SetY | windowlab.h:220 | the new y is the value and the other three fields are kept |
| Geometry.Rect.SetWidth | windowlab.h:226 | the new width is the value and the other three fields are kept |
| Geometry.Rect.SetHeight | windowlab.h:232 | the new height is the value and the other three fields are kept |
| Geometry.Rect.SetXIf | windowlab.h:215-219 | x becomes the value exactly when the condition holds of the old x; otherwise the rectangle is unchanged |
| Geometry.Rect.SetYIf | windowlab.h:221-225 | y becomes the value exactly when the condition holds of the old y; otherwise unchanged |
| Geometry.Rect.SetWidthIf | windowlab.h:227-231 | the width becomes the value exactly when the condition holds of the old width; otherwise unchanged |
| Geometry.Rect.SetHeightIf | windowlab.h:233-237 | the height becomes the value exactly when the condition holds of the old height; otherwise unchanged |
| Geometry.Rect.AddToHeight | windowlab.h:238-240 | the height grows by exactly the amount; nothing else changes |
| Geometry.Rect.AddToWidth | windowlab.h:241-243 | the width grows by exactly the amount; nothing else changes |
| Geometry.Rect.SubtractFromHeight | windowlab.h:244-246 | the height shrinks by exactly the amount; nothing else changes |
| Geometry.Rect.SubtractFromWidth | windowlab.h:247-249 | the width shrinks by exactly the amount; nothing else changes |
| Geometry.AddSubtractRoundTrip | windowlab.h:238-249 | adding to a dimension and then subtracting the same amount gives back the rectangle, in either order |
| Placement.GravityOffset | client.cc:191-203 | the vertical offset lies between 0 and the bar height; it is the full bar height exactly for the north gravities, half of it (rounded down) for center gravity, and 0 exactly for the others; an unset hint counts as NorthWest |
| Placement.Gravitate | client.cc:183-206 | only y moves; applying gravity moves the window down by at most a bar height, removing it moves the window up by at most a bar height |
| Placement.GravitateRoundTrip | client.cc:183-206 | removing gravity undoes applying it, and applying undoes removing |
| Placement.TitlebarHeight | misc.cc:166 | no title bar is reserved for the fullscreen client; every other client reserves one bar height |
| Placement.FixPosition | misc.cc:159-204 | Fixed: each dimension is clamped between the minimum window size and what the screen leaves (the height less the taskbar and, except for the fullscreen client, the title bar); the position is moved right of the left edge and under the taskbar, then flush against the right or bottom edge when the window would reach it, then shifted by the border width; so the frame is on the display, at least the minimum size whenever the screen allows, and a size or position that already fits is kept |
| Placement.RefixPosition | misc.cc:207-226 | the frame is exactly what fixPosition makes (Fixed), so it is on screen; the value mask gains exactly the bits of the fields whose value changed, keeps every bit it had, and gains no other bit |
| Placement.FixedIdempotent | misc.cc:159-226 | fixing a frame fixPosition produced (taken back to inner coordinates) gives the same frame, so refixPosition on an already fixed client marks no field |
| Registry.StateOf | client.cc:55-75 | a window with no WM_STATE property reads as Withdrawn |
| Registry.SetWMState | client.cc:43-53 | the window's WM_STATE becomes the given state with no icon window; the state read from every other window is unchanged |
| Registry.FirstMatch | client.cc:25-41 | the index of the first client whose window (or frame) is the one asked for, or none exactly when no client has it |
| Registry.Lookup | client.cc:25-41 | the handle found names a client with that window (or frame); none exactly when no client has it |
| Registry.Restamp | client.cc:263-265 | the client's focus stamp becomes the counter value; every other record is unchanged |
| Registry.ScanRecentSpec | client.cc:274-286 | after any prefix of the scan, the held client is visible with the highest stamp seen, earlier clients have strictly lower stamps, and nothing is held exactly when every client so far is hidden or unstamped |
| Registry.PrevFocusedSpec | client.cc:274-286 | getPreviousFocused returns the first visible client with the highest non-zero focus stamp, or nothing exactly when no visible client has been focused |
| Registry.FocusedIsMostRecent | client.cc:252-286 | under the focus-stamp invariant, a visible focused client is the one getPreviousFocused returns |
| Registry.NoCandidateNoFocus | client.cc:279-285 | when every client is hidden or unstamped, getPreviousFocused returns nothing |
| Registry.Without | client.cc:140 | removing a client from the order drops exactly its position and keeps the others in order |
| Registry.RemoveAt | client.cc:140 | dropping one position of a duplicate-free order keeps it duplicate-free and removes exactly that element |
| Registry.FocusAfterCheck | client.cc:144-147 | after the focus falls back to getPreviousFocused, the focused client is again the most recent visible one |
| Registry.RecordUpdateConsistent | events.cc:300-315 | changing a client record without touching its window, hidden flag or focus stamp keeps the registry invariant |
| Registry.UnlinkConsistent | client.cc:134-145 | unlinking a client (clearing the focused and fullscreen references to it, writing Withdrawn when withdrawing) keeps the registry invariant |
| Registry.ClientTracker.constructor | main.cc:37-40 | the manager starts with no clients, no focused, topmost or fullscreen client, and the focus counter at 0 |
| Registry.ClientTracker.Find | client.cc:25-41 | returns the first client in order whose window (or frame) matches, or none exactly when no client has that handle |
| Registry.ClientTracker.GetPreviousFocused | client.cc:274-286 | the loop returns the first visible client with the highest focus stamp; the result is visible and has been focused |
| Registry.ClientTracker.CheckFocus | client.cc:252-272 | refocusing the focused client changes nothing; otherwise the counter goes up by one, the new client becomes focused and gets the counter as its stamp, and the invariant holds |
| Registry.ClientTracker.FocusPrevious | manage.cc:53 | the focus moves to the most recent visible client, which is visible; its stamp is renewed only when the focus changed |
| Registry.ClientTracker.Remove | client.cc:122-155 | the client leaves the order and the table; WITHDRAW writes Withdrawn (REMAP leaves WM_STATE alone); a fullscreen reference to it is cleared; if it was focused, focus passes to the most recent visible remaining client, whose stamp is renewed with the counter one higher; topmost is not cleared |
| Registry.ClientTracker.Unlink | client.cc:134-145 | the list and table removal of remove, clearing only the references to the removed client |
| Manage.HideConsistent | manage.cc:40-55 | marking a client hidden and Iconic, and dropping it as topmost, keeps the registry invariant |
| Manage.UnhideConsistent | manage.cc:57-68 | marking a client visible and Normal, and making it topmost, keeps the registry invariant |
| Manage.RaiseLower | manage.cc:27-37 | the topmost client is lowered (topmost cleared); any other client becomes topmost; nothing else changes |
| Manage.HiddenRecord | manage.cc:42-44 | the record is marked hidden and its count of unmaps to ignore goes up by one; nothing else in it changes |
| Manage.HideKeepsFlags | manage.cc:40-55 | hiding keeps every field of every record but the hidden flag and unmap count of the client hidden and the focus stamps; the client hidden ends hidden |
| Manage.Hide | manage.cc:40-55 | a hidden client is left alone; otherwise it becomes hidden and Iconic, stops being topmost, and focus moves to the most recent visible client of the table with this client hidden (whose stamp is renewed), the focus counter going up exactly when focus moved |
| Manage.MarkHidden | manage.cc:42-52 | the state changes of hide before the focus update: hidden record, Iconic WM_STATE, topmost cleared if it was this client |
| Manage.Unhide | manage.cc:57-68 | a visible client is left alone; a hidden one becomes visible, Normal and topmost |
| Manage.ToggleFullscreen | manage.cc:71-120 | does nothing without a focused non-transient client; otherwise the focused client leaves fullscreen (its saved rectangle comes back exactly and the taskbar shows) or takes it: its rectangle is saved, it gets the fullscreen layout and only its rectangle and maximum size hints change, a previous fullscreen client gets the saved rectangle back, every other record is kept, and the taskbar shows exactly when the pointer is in it |
| Manage.LeaveFullscreen | manage.cc:77-83 | the client gets the saved rectangle back, no client is fullscreen, and the taskbar shows |
| Manage.RestoreSavedRect | manage.cc:89-94 | the previous fullscreen client gets the saved rectangle back; nothing else changes |
| Manage.EnterFullscreen | manage.cc:84-117 | a previous fullscreen client is restored; the client's old rectangle is saved; it gets the fullscreen layout (FullscreenFit) and only its rectangle and hints change; the taskbar shows exactly when the pointer is in it |
| Manage.TakeScreen | manage.cc:96-115 | the client's rectangle is saved, it becomes the fullscreen client and gets the fullscreen layout of FullscreenFit; no other record changes |
| Sizing.CRem | manage.cc:406 | C's remainder: smaller in magnitude than the divisor and carrying the sign of the dividend |
| Sizing.CDiv | manage.cc:406 | C's quotient truncates toward zero: its magnitude is the floor of the magnitudes' quotient, and a non-zero quotient is positive exactly when dividend and divisor have the same sign |
| Sizing.CDivRem | manage.cc:406-416 | C's quotient and remainder recombine to the dividend |
| Sizing.SnapOne | manage.cc:405-410 | subtracting the remainder snaps a size onto the increment grid anchored at the base, between the base and the request, less than one increment from the request |
| Sizing.GetIncSize | manage.cc:398-422 | reports whether the increment hint is set; in pixel mode each dimension with a non-zero increment is snapped to the grid; a dimension with a zero increment (or no hint) keeps the caller's value |
| Sizing.PixelsAreBasePlusIncrements | manage.cc:398-422 | the pixel size is the base plus the increment times the increment count |
| Sizing.SnapExample | manage.cc:404-416 | with base 10 and increment 7, a request of 30 snaps to 24 pixels (2 increments) and 24 stays 24 |
| Sizing.LimitSize | manage.cc:374-391 | the result is exactly Limited: the position is kept; each dimension goes through the hint minimum, the hint maximum, the global minimum and the screen, in that order; so the size is within the screen and at least the minimum window size where the screen allows; the hints win when compatible with the global limits; a size already within every limit is kept |
| Sizing.LimitedDim | manage.cc:376-390 | one dimension through limit_size: never more than the room on the screen, never less than the global minimum when the room allows it, unchanged when within every limit, and otherwise equal to one of the limits |
| Sizing.Limited | manage.cc:374-391 | the position is kept, and a rectangle within every limit is kept |
| Sizing.DragEdges | manage.cc:272-318 | one motion step of resize (Dragged): never moves both edges of an axis; outwards moves exactly the edges the pointer crossed (the far edge one pixel past the pointer); inwards moves nothing outside the outline and otherwise exactly one edge, the nearest, with ties going to the edge tested later; a moved left or top edge keeps the opposite edge fixed |
| Sizing.DragOutwards | manage.cc:272-289 | the outward drag: each edge moves exactly when the pointer has crossed it, the far edges landing one pixel past the pointer, the opposite edge fixed |
| Sizing.DragInwards | manage.cc:290-318 | the inward drag: something moves exactly when the pointer is in the outline, and then only the nearest edge (ties go to the edge tested later, since each test is a strict `<`), landing at the pointer |
| Sizing.SnapToIncrements | manage.cc:321-339 | SnappedOutline: with an increment hint, each moved dimension is snapped to the grid (a moved width becomes 0 and a moved height the title-bar height when that increment is 0), and a moved left or top edge keeps the right or bottom edge fixed; unmoved axes and hint-less clients are unchanged |
| Sizing.ResizeMotion | manage.cc:253-346 | a motion over the taskbar changes nothing; otherwise the edges move as Dragged says and are returned; with no edge moved the outline is kept; otherwise the outline is exactly Limited applied to an outline snapped as SnappedOutline says, which without increment hints is the dragged rectangle itself, so a drag within every limit and without hints shows exactly the dragged rectangle; an edge not moved keeps the outline's left or top where the drag left it; any new outline is within the screen and at least the minimum width and height where the screen allows |
| Sizing.ResizeStart | manage.cc:216 | the outline includes the title bar: same left edge, width and bottom, one bar height taller |
| Sizing.DraggingOutwards | manage.cc:200-203 | the `outwards` argument of every ResizeMotion step: true exactly when the press is strictly inside the client rectangle with its title bar, more than the border from each side; such a press lies in the starting outline |
| Sizing.PressPointMovesNothing | manage.cc:200-203 | for a press that drags outwards, a motion step back at the press point moves no edge and leaves the starting outline as it is |
| Sizing.ResizeCommit | manage.cc:355-356 | the committed client keeps the outline's left edge, width and bottom edge |
| Sizing.ResizeWithoutMotion | manage.cc:216-356 | a resize without motion gives back the client's rectangle |
| Sizing.MoveTo | manage.cc:179-180 | the window moves by exactly the pointer's displacement and keeps its size |
| Sizing.MoveBackIsIdentity | manage.cc:179-180 | a pointer back at its start puts the window back where it was |
| Sizing.FullscreenLayout | manage.cc:85-111 | FullscreenFit: the frame is placed under the title bar; the window fills the screen, or is exactly as wide or high as the maximum size when that is smaller; with increment hints the maximum size is overwritten by the screen size snapped to the increments and no other hint changes; the offsets centre the window (to within a pixel) |
| NewClient.InitPos | new.cc:151-170 | the rectangle init_position makes: at least wide enough for the buttons and one bar high; a window at the origin is placed so that applying gravity brings it to the pointer, one bar height below; any other position is kept |
| NewClient.InitPosition | new.cc:151-170 | the sequential adjustments yield exactly InitPos; the window is at least wide enough for the buttons and one bar high; a window at the origin is placed so that applying gravity brings it to the pointer, one bar height below; any other position is kept |
| NewClient.InitialState | new.cc:80-92 | a window not yet viewable gets the initial_state of its WM hints when they carry one, and NormalState otherwise |
| NewClient.NewClientConsistent | new.cc:102-117 | adding a new window's record with a fresh handle, no focus stamp and hidden exactly when Iconic keeps the registry invariant; a visible one becomes topmost |
| NewClient.PrepareClient | new.cc:58-117 | the new record: WM_STATE Normal or the hinted initial state unless the window is already viewable; hidden exactly when Iconic; one unmap to ignore (two when a viewable Iconic window is unmapped); on screen once gravity is removed, and with gravity removed exactly the frame fix_position (Fixed) makes of the window's own rectangle, or of InitPos's when the window is not yet viewable |
| NewClient.Link | new.cc:41-108 | the client is appended at the tail with the next handle; a visible one becomes topmost; the focus is untouched |
| NewClient.MakeNewClient | new.cc:34-130 | the window is added at the tail with the recorded hints, WM_STATE and hidden flag as above, its rectangle the Fixed frame of the window's rectangle or of InitPos's, with gravity applied; no other client changes; it takes focus exactly when nothing had focus |
| Events.HandleUnmap | events.cc:372-380 | an unknown window changes nothing; an unmap of our own is counted off and nothing else changes; otherwise the client is removed and withdrawn, a fullscreen reference to it cleared and, if it was focused, focus passed to the most recent visible remaining client with a renewed stamp |
| Events.HandleDestroy | events.cc:386-391 | a known window's client is removed and withdrawn, with the fullscreen reference and focus handled as by remove; an unknown one changes nothing |
| Events.HandleMapRequest | events.cc:349-356 | a new window is managed with a fresh handle at the tail, as makeNewClient builds it (WM_STATE, hidden exactly when Iconic, one or two unmaps to ignore, its rectangle with gravity removed exactly the Fixed frame of the window's rectangle or of InitPos's, topmost when visible, focus only when nothing had it); a known hidden client is unhidden, becomes topmost and gets WM_STATE Normal; a known visible client changes nothing |
| Events.HandleClientMessage | events.cc:397-401 | the client is hidden exactly for a 32-bit WM_CHANGE_STATE message asking for Iconic about a known window: it ends Iconic, loses the topmost token and focus moves to the most recent visible client (the counter going up when focus moved); otherwise nothing changes |
| Events.MaskedCopy | events.cc:292-297 | each field named in the value mask takes the requested value; the others are kept |
| Events.FrameGeometry | events.cc:317-320 | the frame is the client rectangle extended upwards by the title bar |
| Events.RefixRequest | events.cc:300-315 | Refixed: the requested fields are applied with gravity removed, the result is exactly what fixPosition makes of them (Fixed), so it is on screen, and gravity is re-applied; the mask records every changed field |
| Events.HandleConfigureRequest | events.cc:286-342 | for the fullscreen client only the saved rectangle takes the masked fields; for another client only its rectangle changes, to exactly what refixPosition makes of the masked request (Refixed), and the frame and then the window are configured; for an unknown window the request is passed on as it came |
| Events.HandleEnter | events.cc:439-466 | entering the taskbar marks the pointer inside it and shows it; entering elsewhere marks it outside, shows the taskbar exactly when no client is fullscreen, and grabs buttons on a client frame; a redraw happens exactly when the shown state changed |
| Events.HandleExpose | events.cc:489-499 | only the last expose of a series redraws: the taskbar, or the frame of a known client |
| Events.HandleXError | misc.cc:101-118 | fatal exactly for BadAccess on the root window; otherwise a client owning the failing window is removed and withdrawn, with the fullscreen reference and focus handled as by remove |
| Events.BoxClicked | events.cc:244-251 | outside exactly when the click is right of the width; otherwise the box index counts button widths from the right edge |
| Events.ButtonAt | events.cc:217-227 | only the three rightmost boxes are buttons |
| Events.Elapsed | events.cc:231 | the time difference wraps around like the unsigned X timestamp |
| Events.ClickLatch.constructor | events.cc:180-181 | no first click remembered, time 0 |
| Events.ClickLatch.TitleBarClick | events.cc:230-240 | a double click is a second click on the same client within 400 ms; it raises or lowers the client and clears the latch, so a third click starts over; the click time is always remembered; nothing else in the registry changes |
| Events.ButtonPressOnFrame | events.cc:160-171 | a left click on a client frame focuses the client (stamping it when it was not focused); on its title bar (unless it is fullscreen) the click is resolved by boxClicked; only clicks outside the buttons touch the double-click latch, and a double click (returned) raises or lowers the client |
| TaskbarState.TaskbarFlags.constructor | main.cc:38-39 | the pointer starts outside the taskbar and the taskbar starts shown |
| MenuFile.FirstNonSpace | menufile.cc:61 | every character before the index is white space, and the character at it is not |
| MenuFile.TrimLeadingWsSpec | menufile.cc:60-62 | the result is a suffix of the line, everything cut off is white space, and the result does not start with white space |
| MenuFile.TrimSplit | menufile.cc:60-62 | a white-space prefix followed by text that starts with a non-space trims to exactly that text |
| MenuFile.TrimIdempotent | menufile.cc:60-62 | trimming twice is trimming once |
| MenuFile.TrimEmpty | menufile.cc:60-62 | the trimmed line is empty exactly when the line is all white space |
| MenuFile.UpTo | menufile.cc:70 | getline's field: the longest prefix without the delimiter, shorter than the line exactly when the delimiter occurs |
| MenuFile.ParseLine | menufile.cc:64-83 | an entry's caption is the text before the first ':', and its command is the rest of that line with leading white space removed: non-empty and starting with no space |
| MenuFile.ParseLineFails | menufile.cc:64-83 | parsing fails exactly for an empty line, a line without ':', or a line whose command part is all white space |
| MenuFile.LineEntry | menufile.cc:110-117 | a line yields an entry only when, trimmed, it is non-empty and not a '#' comment |
| MenuFile.LineEntryCases | menufile.cc:110-117 | a line yields nothing exactly when it is all white space, a '#' comment once trimmed, or rejected by parseLine once trimmed; otherwise it yields what parseLine makes of the trimmed line |
| MenuFile.Entries | menufile.cc:109-119 | a file yields at most one entry per line |
| MenuFile.EntriesAppend | menufile.cc:109-119 | the entries of two files read one after the other are the entries of each, in order |
| MenuFile.ReadItems | menufile.cc:107-119 | the loop skips empty lines and, after trimming, empty or '#' lines, and parses the rest; the items read are exactly the entries of the file's lines, in order |
| MenuFile.Menu.constructor | menufile.cc:32 | the menu starts empty and no reload is requested |
| MenuFile.Menu.GetMenuItem | menufile.cc:52-58 | none exactly for an index past the end; otherwise the item at that index |
| MenuFile.Menu.RequestMenuItems | menufile.cc:149-151 | a reload is requested (shouldDoMenuItems then holds); the items are kept |
| MenuFile.Menu.ShouldDoMenuItems | menufile.cc:146-148 | true exactly when a reload is requested |
| MenuFile.Menu.ClearMenuItems | menufile.cc:141-144 | the menu is emptied; the reload flag is kept |
| MenuFile.Menu.AcquireMenuItems | menufile.cc:85-139 | the menu holds the file's entries in order, or the single xterm entry when no file opens; the items are laid out; the reload request is cleared (shouldDoMenuItems no longer holds) |
| MenuFile.Menu.LayOut | menufile.cc:125-135 | the captions and commands are kept; each item is its text width plus padding wide, the first starts at 0, and each starts one pixel after the previous ends |
| Taskbar.Remember | taskbar.cc:60 | the was-hidden flag records the hidden flag; nothing else changes |
| Taskbar.Forget | taskbar.cc:69-76 | the was-hidden flag keeps the hidden flag for the focused client and is cleared for the others |
| Taskbar.SameShapeConsistent | taskbar.cc:55-78 | changing records without touching window, hidden flag or focus stamp keeps the registry invariant |
| Taskbar.RememberHidden | taskbar.cc:55-62 | every client remembers whether it is hidden; nothing else changes |
| Taskbar.ForgetHidden | taskbar.cc:64-78 | only the focused client keeps what it remembered; the others forget; nothing else changes |
| Taskbar.HideClient | taskbar.cc:83-85 | hide changes only the hidden client's flag and unmap count (and focus stamps); the client ends hidden; a client already hidden leaves the records, focus and counter as they were; a visible one gets exactly one more unmap to ignore, becomes Iconic, gives up topmost and passes focus to the most recent visible client, which is stamped with the counter, raised by one exactly when the focus moved |
| Taskbar.HideViewOf | taskbar.cc:83-85 | the state hide leaves behind is exactly HideView of the state before, and only the hidden client's flag changes |
| Taskbar.FocusTo | taskbar.cc:97 | check_focus on the registry state: the client ends focused; when it was not focused already the counter goes up by one and the client carries the new value; every other record, the topmost token and WM_STATE are kept, and only focus stamps change |
| Taskbar.HideView | taskbar.cc:83-85 | hide on the registry state: nothing on a hidden client; otherwise only the client's record changes, to one more unmap to ignore and hidden (besides focus stamps), it gives up topmost, becomes Iconic, and focus goes to the visible client focused most recently |
| Taskbar.UnhideView | taskbar.cc:88-89 | unhide on the registry state: the client ends visible; a hidden one becomes topmost and Normal; a visible one changes nothing |
| Taskbar.RehideView | taskbar.cc:82-86 | the first step of a click on the registry state: the client left behind ends hidden exactly when it was hidden or hidden at the start of the drag |
| Taskbar.ButtonView | taskbar.cc:88-96 | the second step on the registry state: the clicked client ends hidden exactly when it was visible and hidden at the start of the drag |
| Taskbar.ClickView | taskbar.cc:80-98 | lclick_taskbutton on the registry state: no client comes or goes and the clicked client ends focused |
| Taskbar.RehideStep | taskbar.cc:82-86 | on each record, the first step adds one unmap to ignore and sets hidden exactly for a re-hidden client left behind; the counter moves by at most one, exactly when the focus moves, and a record's stamp changes only when it does |
| Taskbar.ButtonStep | taskbar.cc:88-96 | on each record, the second step adds one unmap to ignore exactly for a clicked client hidden again; the counter moves by at most one, exactly when the focus moves, and a record's stamp changes only when it does |
| Taskbar.ClickViewCounts | taskbar.cc:80-98 | after a click the clicked client is focused; a client hidden by the click (the one left behind, or the clicked one) has exactly one more unmap to ignore and every other count is kept; when the counter moved the clicked client carries its final value, and when it did not the clicked client was focused already and keeps its stamp |
| Taskbar.RehideLeft | taskbar.cc:82-86 | the new state is exactly RehideView of the old one: the client left behind is hidden again exactly when it had been hidden before; when that hides it, it becomes Iconic and gives up topmost |
| Taskbar.ClickButton | taskbar.cc:88-96 | the new state is exactly ButtonView of the old one: a hidden client is shown, becomes topmost and Normal; a visible client that was hidden before is hidden again, Iconic and not topmost; otherwise it is raised or lowered and WM_STATE is kept |
| Taskbar.FocusClient | taskbar.cc:97 | the new state is exactly FocusTo of the old one, and no flag changes |
| Taskbar.ClickSteps | taskbar.cc:80-98 | the three steps of a task-button click compose into the click's overall effect on records, topmost and WM_STATE (ClickOutcome) |
| Taskbar.LClickTaskbutton | taskbar.cc:80-98 | the new records, focus, topmost token, counter and WM_STATE are exactly ClickView of the old ones (so ClickViewCounts holds of them); the clicked client ends focused; ClickOutcome: the left client is re-hidden when it had been hidden; the clicked one is shown, re-hidden, or raised/lowered as above, with the topmost token and WM_STATE following; no other record changes beyond focus stamps |
| Taskbar.PrevTarget | taskbar.cc:374-402 | there is a previous client exactly when at least two clients exist, and it is one of them |
| Taskbar.NextTarget | taskbar.cc:408-421 | there is a next client exactly when at least two clients exist, and it is one of them |
| Taskbar.CycleRoundTrip | taskbar.cc:374-421 | cycling forward then back (or back then forward) returns to the same client |
| Taskbar.CyclePrevious | taskbar.cc:374-402 | the do-while loop finds the client before the focused one (wrapping round), which is then clicked with no client left behind: the new state is exactly ClickView of the old one, ClickOutcome holds, and the client is focused; with fewer than two clients nothing changes |
| Taskbar.CycleNext | taskbar.cc:408-421 | the client after the focused one (wrapping round) is clicked with no client left behind: the new state is exactly ClickView of the old one, ClickOutcome holds, and the client is focused; with fewer than two clients nothing changes |
| Taskbar.LaidOutOrdered | menufile.cc:125-135 | in a laid-out menu every later item starts after every earlier item ends |
| Taskbar.LaidOutDisjoint | menufile.cc:125-135 | no pointer position is inside two items |
| Taskbar.LaidOutCovers | menufile.cc:125-135 | every position from 0 to the end of an item lies inside some item up to it |
| Taskbar.MenuHighlight.constructor | taskbar.cc:315 | the remembered item starts at UINT_MAX |
| Taskbar.MenuHighlight.UpdateMenuItem | taskbar.cc:311-343 | INT_MAX only resets the remembered item to the item count; otherwise the result is the first item under the pointer (UINT_MAX for none), the old item is drawn plain and the new one highlighted exactly when the item changed, and the item is remembered |

## Left out

- Drawing and the X requests themselves: the Xlib calls, frames, buttons, title text, Xft fonts, cursors, the taskbar's painting and `sendConfig`. The model records what is decided, and names the windows to configure only for configure requests.
- The grab loops of `move`, `resize`, `handle_windowbar_click`, `leftClick` and `rightClick`: only one motion step, the click outcome and the commit are modelled (a resize step's drag direction is DraggingOutwards of the press), because each loop waits on X events.
- `Taskbar::getButtonWidth` (taskbar.cc:362-373) and the task-button hit test that uses it, because they work in floating point.
- The event loop, key presses, signals, `forkExec` and the handlers for property changes, colormaps and shapes, because they are I/O with no manager state to decide.
- The button-press branches for the modifier key and the root window (events.cc:131-159), and the Button3 press on a frame that calls `rightClickRoot` (events.cc:172-173), because they only dispatch to the loops above.
- Locating the menu file (the home directory, `/proc/self/exe`, the default path) and reading it: the file arrives as a sequence of lines, or none when no file opens. Font metrics arrive as a text-width function.
- `main.cc` and `menufile.c` are not part of this model. Only the initial global values in `main.cc` are used.
- `sendWMDelete` (manage.cc:126-143) is not part of this model, because it only sends a message to the client.
- `getWMState`'s round trip to the server is modelled by a map from windows to properties.
- Manage.LeaveFullscreen: the call at manage.cc:80 passes the width where the window belongs. It is an X request, so only the restored rectangle is modelled.
- Registry.ClientTracker.CheckFocus: the focus counter is an unsigned int in the source. The model does not wrap it at 2^32, because that needs four billion focus changes.
- Registry.ClientTracker.Remove: REMAP's re-mapping of the window is an X request. Only its effect of leaving WM_STATE alone is modelled.
- Events.HandleConfigureRequest: the border width, sibling and stack-mode changes are not modelled, because the manager forwards them without looking at them.
- NewClient.MakeNewClient: `focus_order` is never initialised in the source (malloc). The model starts it at 0.
- MenuFile.Menu.LayOut: the x position is an unsigned int in the source. The model does not wrap it, because menus are far narrower than 2^32 pixels.
- Taskbar.MenuHighlight.UpdateMenuItem: requires fewer than UINT_MAX menu items. With that many items the UINT_MAX sentinel would collide with an index.
- Taskbar.CyclePrevious: the walk along `next` pointers is modelled on positions in the client order. Pointer identity is not modelled.
