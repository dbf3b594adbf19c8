# xdg surface window management, in Dafny

This project models the compositor side of one `xdg_surface` of the Wayland
xdg-shell protocol (unstable version), as Green Island implements it in the
class `XdgSurface`. A surface has:

- a window type, Toplevel or Transient, and possibly a transient parent;
- a committed window state (Normal, Maximized or FullScreen), with the
  state it had before;
- a global position and a saved geometry;
- a minimized flag;
- a map from serials to proposed changes that the client has not yet
  acknowledged;
- two slots for an interactive move grab and an interactive resize grab.

Every state or geometry change goes through a handshake with the client:

1. The compositor records the proposed `Changes` under a fresh serial.
2. It sends a configure event. The event carries a size, an ordered array
   of states (fullscreen or maximized, then resizing, then activated) and
   the serial.
3. The change takes effect only when the client acknowledges that serial.

The project has four files:

- `geometry.dfy`: an `Option` type and integer points, sizes and
  rectangles.
- `xdg_surface_spec.dfy` (module `XdgSurfaceSpec`):
  - the surface as a value (`Surface`);
  - its invariant `Inv`: at most one grab is held; every pending serial was
    handed out and sent in a configure event; the surface's own state
    mirrors the committed state;
  - one transition function per request or compositor event. Each one
    states its effect and that it keeps `Inv`.
- `xdg_surface.dfy` (module `XdgSurfaces`): the class `XdgSurface`, whose
  fields are updated in place by one method per request handler. Each
  request handler proves that its new state is the matching transition
  applied to the old state, and that it keeps the invariant. The two
  halves of the acknowledgement, `CommitStateChange` and
  `CommitGeometryChange`, are proved equal to their transitions only.
- `xdg_surface_properties.dfy` (module `XdgSurfaceProperties`): properties
  that relate several requests:
  - the state array is determined by the flags it reports;
  - many outstanding configures are kept apart by their serials;
  - maximize and fullscreen form round trips with their unset requests;
  - the two grabs exclude each other.

The following are parameters, because other parts of the compositor own
them:

- whether the surface's view has keyboard focus;
- the rectangles of the main output and of a requested output;
- the pointer position;
- the surface's current size;
- the views of the transient parent and the output of the surface's view.

A maximize configure carries the states maximized, resizing and, when the
view has focus, activated, because `surface_set_maximized` also sets the resizing flag
(xdgsurface.cpp:442); `MaximizeNewSurface` proves it.

## Model

| member | source | states |
|---|---|---|
| XdgSurfaceSpec.Initial | src/libgreenisland/protocols/xdg-shell/xdgsurface.cpp:45-73 | a new surface is a toplevel with no transient parent, Normal, not minimized, with nothing pending and no grab, and it satisfies the invariant |
| XdgSurfaceSpec.StatesFor | src/libgreenisland/protocols/xdg-shell/xdgsurface.cpp:195-218 | fullscreen is reported iff the change sets a new FullScreen state, maximized iff it sets a new Maximized state, resizing iff it resizes, activated iff it is active; the entries are in rank order (window state, resizing, activated) without repeats |
| XdgSurfaceSpec.Request | src/libgreenisland/protocols/xdg-shell/xdgsurface.cpp:193-229 | the serial is the next one and was not pending; the change is stored under exactly that key, so the map grows by one; one configure is appended with that serial, the state array and the size (the change's size when it sets a state or resizes, else (0,0)); nothing else changes; the invariant is kept |
| XdgSurfaceSpec.FocusChanged | src/libgreenisland/protocols/xdg-shell/xdgsurface.cpp:80-91 | a focus change sends a configure of size (0,0) whose only possible state is activated, present iff focused |
| XdgSurfaceSpec.Ack | src/libgreenisland/protocols/xdg-shell/xdgsurface.cpp:361-406 | an unknown serial changes nothing; a known serial is removed and no other entry is; a change with a new state saves the old state and takes the new one, otherwise both stay; a move or a resize to a valid size saves the pre-ack geometry and moves to the change's position (or keeps the position for a resize alone), otherwise geometry and saved geometry stay; the invariant is kept |
| XdgSurfaceSpec.Commit | src/libgreenisland/protocols/xdg-shell/xdgsurface.cpp:370-405 | committing a change touches only the state, saved state, mirrored state, position and saved geometry, and keeps the invariant |
| XdgSurfaceSpec.CommitState | src/libgreenisland/protocols/xdg-shell/xdgsurface.cpp:370-388 | the state commit leaves the position alone and keeps the invariant |
| XdgSurfaceSpec.CommitGeometry | src/libgreenisland/protocols/xdg-shell/xdgsurface.cpp:390-405 | the geometry commit keeps the invariant |
| XdgSurfaceSpec.Maximize | src/libgreenisland/protocols/xdg-shell/xdgsurface.cpp:419-446 | a surface that is not toplevel, or is already maximized, is left unchanged; otherwise exactly one entry is added (Maximized, new state, moving and resizing, at the available rectangle), with a configure of that size and the states maximized, resizing and activated-if-focused; nothing else changes, so the state and position wait for the acknowledgement |
| XdgSurfaceSpec.Fullscreen | src/libgreenisland/protocols/xdg-shell/xdgsurface.cpp:465-493 | the same guards for fullscreen; the entry and the configure target the requested output's rectangle, or the main output's when none is given; nothing else changes |
| XdgSurfaceSpec.Unset | src/libgreenisland/protocols/xdg-shell/xdgsurface.cpp:448-463 | whatever the state, one entry is added that sets the saved state, moving to the saved top-left corner with the saved size, and one configure with the saved size and that entry's state array is sent; nothing else changes |
| XdgSurfaceSpec.RestoreAt | src/libgreenisland/protocols/xdg-shell/xdgsurface.cpp:165-181 | ignored when Normal; otherwise one entry is added that sets Normal at the given position with the saved size, and one configure with the saved size and the states resizing and activated-if-focused is sent; nothing else changes |
| XdgSurfaceSpec.Restore | src/libgreenisland/protocols/xdg-shell/xdgsurface.cpp:160-163 | ignored when Normal; otherwise exactly one entry is added that sets Normal at the saved top-left corner with the saved size, with the same configure as `RestoreAt`; nothing else changes |
| XdgSurfaceSpec.Minimize | src/libgreenisland/protocols/xdg-shell/xdgsurface.cpp:512-520 | only the minimized flag changes, and it is raised |
| XdgSurfaceSpec.SetParent | src/libgreenisland/protocols/xdg-shell/xdgsurface.cpp:283-299 | a parent makes the surface transient to that parent; a null parent makes it toplevel and keeps the recorded parent; nothing else changes |
| XdgSurfaceSpec.StartMove | src/libgreenisland/protocols/xdg-shell/xdgsurface.cpp:258-276 | nothing happens while a grab is held or the window is Maximized or FullScreen; otherwise only the move slot is filled, with the pointer's offset from the position |
| XdgSurfaceSpec.StartResize | src/libgreenisland/protocols/xdg-shell/xdgsurface.cpp:334-359 | the same guards; otherwise only the resize slot is filled, with the pointer position, the edges and the current width and height |
| XdgSurfaceSpec.ResetMove | src/libgreenisland/protocols/xdg-shell/xdgsurface.cpp:183-186 | only the move slot is emptied; with no resize grab and a Normal window a new grab may then start |
| XdgSurfaceSpec.ResetResize | src/libgreenisland/protocols/xdg-shell/xdgsurface.cpp:188-191 | only the resize slot is emptied; with no move grab and a Normal window a new grab may then start |
| XdgSurfaceSpec.Operate | src/libgreenisland/protocols/xdg-shell/xdgsurface.cpp:231-256 | close and ping append one event and change nothing else; a resize adds one entry that resizes to the requested size, with a configure of that size whose states are resizing and activated-if-focused, and nothing else changes; a move is `StartMove`; any other operation changes nothing |
| XdgSurfaceSpec.FirstViewOn | src/libgreenisland/protocols/xdg-shell/xdgsurface.cpp:130-139 | a view is found iff some present view lies on the output, and the one found is the first such view |
| XdgSurfaces.XdgSurface.constructor | src/libgreenisland/protocols/xdg-shell/xdgsurface.cpp:45-73 | the new object's state is `Initial` |
| XdgSurfaces.XdgSurface.RequestConfigure | src/libgreenisland/protocols/xdg-shell/xdgsurface.cpp:193-229 | the new state is `Request` of the old; the returned serial is the new last serial and was not pending |
| XdgSurfaces.XdgSurface.ConfigureStates | src/libgreenisland/protocols/xdg-shell/xdgsurface.cpp:195-218 | the array built by appending entry by entry is `StatesFor` of the change |
| XdgSurfaces.XdgSurface.FocusChanged | src/libgreenisland/protocols/xdg-shell/xdgsurface.cpp:80-91 | the new state is `FocusChanged` of the old |
| XdgSurfaces.XdgSurface.AckConfigure | src/libgreenisland/protocols/xdg-shell/xdgsurface.cpp:361-406 | the new state is `Ack` of the old |
| XdgSurfaces.XdgSurface.CommitStateChange | src/libgreenisland/protocols/xdg-shell/xdgsurface.cpp:370-388 | the new state is `CommitState` of the old |
| XdgSurfaces.XdgSurface.CommitGeometryChange | src/libgreenisland/protocols/xdg-shell/xdgsurface.cpp:390-405 | the new state is `CommitGeometry` of the old |
| XdgSurfaces.XdgSurface.SetMaximized | src/libgreenisland/protocols/xdg-shell/xdgsurface.cpp:419-446 | the new state is `Maximize` of the old |
| XdgSurfaces.XdgSurface.UnsetMaximized | src/libgreenisland/protocols/xdg-shell/xdgsurface.cpp:448-463 | the new state is `Unset` of the old |
| XdgSurfaces.XdgSurface.SetFullscreen | src/libgreenisland/protocols/xdg-shell/xdgsurface.cpp:465-493 | the new state is `Fullscreen` of the old |
| XdgSurfaces.XdgSurface.UnsetFullscreen | src/libgreenisland/protocols/xdg-shell/xdgsurface.cpp:495-510 | the new state is `Unset` of the old, the same request as unset_maximized |
| XdgSurfaces.XdgSurface.RestoreAt | src/libgreenisland/protocols/xdg-shell/xdgsurface.cpp:165-181 | the new state is `RestoreAt` of the old |
| XdgSurfaces.XdgSurface.Restore | src/libgreenisland/protocols/xdg-shell/xdgsurface.cpp:160-163 | the new state is `Restore` of the old |
| XdgSurfaces.XdgSurface.SetMinimized | src/libgreenisland/protocols/xdg-shell/xdgsurface.cpp:512-520 | the new state is `Minimize` of the old; the window is hidden iff one exists |
| XdgSurfaces.XdgSurface.SetParent | src/libgreenisland/protocols/xdg-shell/xdgsurface.cpp:283-299 | the new state is `SetParent` of the old |
| XdgSurfaces.XdgSurface.MoveWindow | src/libgreenisland/protocols/xdg-shell/xdgsurface.cpp:258-276 | the new state is `StartMove` of the old |
| XdgSurfaces.XdgSurface.Resize | src/libgreenisland/protocols/xdg-shell/xdgsurface.cpp:334-359 | the new state is `StartResize` of the old |
| XdgSurfaces.XdgSurface.ResetMoveGrab | src/libgreenisland/protocols/xdg-shell/xdgsurface.cpp:183-186 | the new state is `ResetMove` of the old |
| XdgSurfaces.XdgSurface.ResetResizeGrab | src/libgreenisland/protocols/xdg-shell/xdgsurface.cpp:188-191 | the new state is `ResetResize` of the old |
| XdgSurfaces.XdgSurface.RunOperation | src/libgreenisland/protocols/xdg-shell/xdgsurface.cpp:231-256 | the new state is `Operate` of the old; the operation is reported handled iff it is close, resize, ping or move |
| XdgSurfaces.XdgSurface.ParentView | src/libgreenisland/protocols/xdg-shell/xdgsurface.cpp:124-140 | without a transient parent there is no parent view; with one, a view is found iff one of the parent's views is on the surface's output, and it is the first such view |
| XdgSurfaceProperties.StatesDetermined | src/libgreenisland/protocols/xdg-shell/xdgsurface.cpp:200-218 | any state array that reports exactly the change's flags, in rank order, is the one sent |
| XdgSurfaceProperties.RankSortedUnique | src/libgreenisland/protocols/xdg-shell/xdgsurface.cpp:200-218 | two rank-ordered state arrays with the same entries are equal |
| XdgSurfaceProperties.RequestAllRecords | src/libgreenisland/protocols/xdg-shell/xdgsurface.cpp:220-221 | after a sequence of requests the last serial has grown by their number, and each change is recorded under the next serial in turn |
| XdgSurfaceProperties.RequestAllInv | src/libgreenisland/protocols/xdg-shell/xdgsurface.cpp:220-228 | a sequence of requests keeps the invariant |
| XdgSurfaceProperties.RequestAllFresh | src/libgreenisland/protocols/xdg-shell/xdgsurface.cpp:220-221 | the n-th of a sequence of requests is pending under the n-th serial after the last one handed out |
| XdgSurfaceProperties.RequestAllOld | src/libgreenisland/protocols/xdg-shell/xdgsurface.cpp:220-221 | a sequence of requests keeps every earlier entry and adds entries only under the serials it hands out |
| XdgSurfaceProperties.RequestAllKeeps | src/libgreenisland/protocols/xdg-shell/xdgsurface.cpp:220-228 | the same, together with the invariant and the new last serial |
| XdgSurfaceProperties.AckAmongMany | src/libgreenisland/protocols/xdg-shell/xdgsurface.cpp:366-368 | of many outstanding configures, acknowledging one removes that serial and leaves every other request's change under its own serial |
| XdgSurfaceProperties.AckKeepsOthers | src/libgreenisland/protocols/xdg-shell/xdgsurface.cpp:366-368 | on any surface whose serials after a given one hold a sequence of changes in order, acknowledging one of those serials removes it and every other serial still holds its own change |
| XdgSurfaceProperties.AckAmongManyKeepsEarlier | src/libgreenisland/protocols/xdg-shell/xdgsurface.cpp:366-368 | acknowledging one of them leaves the entries pending before the requests untouched |
| XdgSurfaceProperties.AckOfRequest | src/libgreenisland/protocols/xdg-shell/xdgsurface.cpp:361-406 | acknowledging the configure just requested commits its change and restores the pending map to what it was before the request |
| XdgSurfaceProperties.AckTwice | src/libgreenisland/protocols/xdg-shell/xdgsurface.cpp:366-368 | acknowledging a serial a second time changes nothing |
| XdgSurfaceProperties.FocusAckKeepsWindow | src/libgreenisland/protocols/xdg-shell/xdgsurface.cpp:80-91 | a focus change, once acknowledged, leaves the window as it was; only the serial counter and the sent events differ |
| XdgSurfaceProperties.ResizeAckKeepsPosition | src/libgreenisland/protocols/xdg-shell/xdgsurface.cpp:237-244 | a resize operation to a valid size, once acknowledged, keeps the position and the window state and saves the geometry the surface had |
| XdgSurfaceProperties.MaximizeRoundTrip | src/libgreenisland/protocols/xdg-shell/xdgsurface.cpp:419-463 | for a toplevel that is not maximized, maximize then ack gives Maximized at the available corner and saves the old state and geometry; then unset then ack returns to the old state at the old position, with the pending map as it was |
| XdgSurfaceProperties.FullscreenRoundTrip | src/libgreenisland/protocols/xdg-shell/xdgsurface.cpp:465-510 | the same round trip for fullscreen, on the requested or the main output: after the first ack the old state and geometry are saved, and after the second the old state, position and pending map are back |
| XdgSurfaceProperties.MaximizeNewSurface | src/libgreenisland/protocols/xdg-shell/xdgsurface.cpp:419-446 | a focused new surface, maximized, is sent one configure with the available size, serial 1 and the states maximized, resizing, activated; once acknowledged it is Maximized at the available corner, with its old geometry saved and nothing pending |
| XdgSurfaceProperties.UnsetTwiceRemaximizes | src/libgreenisland/protocols/xdg-shell/xdgsurface.cpp:448-463 | unset has no guard: after maximize, ack, unset, ack the saved state is Maximized, so a second unset and its ack make the window Maximized again at the maximized position |
| XdgSurfaceProperties.RestoreIsUnset | src/libgreenisland/protocols/xdg-shell/xdgsurface.cpp:160-181 | when the saved state is Normal, restore asks for exactly what unset does |
| XdgSurfaceProperties.TransientIgnoresStateRequests | src/libgreenisland/protocols/xdg-shell/xdgsurface.cpp:283-475 | after set_parent with a parent, maximize and fullscreen change nothing |
| XdgSurfaceProperties.RepeatedStateRequestIgnored | src/libgreenisland/protocols/xdg-shell/xdgsurface.cpp:419-475 | maximizing a maximized surface, or making a fullscreen surface fullscreen, changes nothing |
| XdgSurfaceProperties.GrabsExclusive | src/libgreenisland/protocols/xdg-shell/xdgsurface.cpp:258-346 | once a move or a resize grab has started, neither a move nor a resize can start |
| XdgSurfaceProperties.ResetThenGrab | src/libgreenisland/protocols/xdg-shell/xdgsurface.cpp:183-186 | after a move grab is reset on a Normal window, a resize or a move grab can start straight away |

## Left out

- Wire encoding and transport are not modelled: the `wl_array` of states
  is a sequence, and a configure or close event is an entry in an event
  log. Resource plumbing and the protocol base classes belong to the
  protocol library.
- Serial allocation through the display (`nextSerial`, lines 94-97) is an
  unbounded counter owned by the surface. The real serial is a 32-bit
  counter shared by the whole display, so it can wrap around and values
  are not consecutive for one surface.
- XdgSurfaceSpec.Request: the serial's freshness relies on the counter not
  wrapping, which the real 32-bit counter does not guarantee.
- Pointer grabs (`startGrab`) and the grabbers' motion and release logic
  are not modelled. So a resize that follows pointer motion is not
  covered. xdgsurfacemovegrabber and xdgsurfaceresizegrabber are not part
  of this model.
- The view layer is not modelled:
  - creating the view;
  - `window()` and its visibility; `SetMinimized` only returns whether the
    window would be hidden;
  - `parentWindow`, `transientOffset` and `setTransientOffset`;
  - `view`, `surface`, `type` and `state`, which are plain getters.
- Qt signal connections are not modelled: the configure-to-mapped
  connection, the destruction connection with `deleteLater`, and the
  focus handler's check for a destroyed surface. `qWarning` logging is
  left out too.
- Geometry uses integers instead of floating point.
  - QRectF::setTopLeft also changes the rectangle's size. This is
    irrelevant here because only the top-left corner of the new geometry
    is used.
- The stubs `surface_show_window_menu`, `surface_set_window_geometry` and
  `surface_destroy` have no behaviour.
- `surface_set_title` and `surface_set_app_id` only forward to the base
  class, so they are left out.
- `surface_move` (lines 326-332) reaches `moveWindow` with the seat's
  pointer position. `XdgSurface.MoveWindow` covers it.
- The shell's `pingSurface` is modelled as a Ping entry in the event log.
  The ping and pong matching lives in the shell, whose source is not part
  of this model.
- xdgsurface.h is not part of this model, so these values are assumed:
  - `Changes` fields that the code never assigns default to: no new
    state, Normal, inactive, not moving, not resizing, position (0,0) and
    an invalid size. The focus handler and the Resize operation rely on
    these defaults.
  - The saved state starts as Normal, because the constructor does not
    initialise it.
  - The surface's own state (`surfaceState`), which the invariant ties to
    the committed state, starts as Normal. Its initial value comes from the
    surface class, which is not part of this model.
- Null handles from the client are not modelled. `surface_set_fullscreen`
  dereferences the output even when the cast at line 480 yields null
  (line 490), and `surface_set_parent` dereferences a parent resource that
  is not a surface (lines 292-293). A parent is a surface identity and an
  output is a rectangle or none, so the model has no such case.
- xdgshell.h and plasmasurface.h contain only declarations, so no
  behaviour is modelled from them.
