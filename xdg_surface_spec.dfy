/**
 * The server side of one `xdg_surface` (xdg-shell, unstable version) as a
 * value: the window-management state of one surface and one transition
 * function per request or compositor event. The class `XdgSurface` in
 * module XdgSurfaces updates the same state in place and proves each of its
 * methods equal to the transition given here.
 */
module XdgSurfaceSpec {
  import opened Wrappers
  import opened Geometry

  /** Identity of another surface (a transient parent). */
  type SurfaceId = nat

  /** Identity of an output (a screen). */
  type OutputId = nat

  datatype WindowType = Toplevel | Transient

  datatype WindowState = Normal | Maximized | FullScreen

  /** The entries of a configure event's state array. */
  datatype XdgState = StateMaximized | StateFullscreen | StateResizing | StateActivated

  /** A proposed configuration, kept until the client acknowledges its serial. */
  datatype Changes = Changes(
    newState: bool,
    state: WindowState,
    active: bool,
    moving: bool,
    resizing: bool,
    position: Point,
    size: Size)

  /** A `Changes` record whose fields were never assigned. */
  const DefaultChanges: Changes :=
    Changes(false, Normal, false, false, false, Point(0, 0), InvalidSize)

  /**
   * What this surface sends out: a configure event to the client, a close
   * event to the client, or a request to the shell to ping the client.
   */
  datatype Outgoing =
    | Configure(width: int, height: int, states: seq<XdgState>, serial: nat)
    | Close
    | Ping

  /** An interactive move: the pointer's offset from the surface's position. */
  datatype MoveGrab = MoveGrab(offset: Point)

  /** A 32-bit unsigned protocol argument (the resize edges). */
  type uint32 = x: int | 0 <= x < 0x1_0000_0000

  /** An interactive resize: pointer position, edges and size when it started. */
  datatype ResizeGrab = ResizeGrab(pointer: Point, edges: uint32, width: int, height: int)

  /** The compositor-side operations a surface is asked to run. */
  datatype SurfaceOp = CloseOp | ResizeOp(size: Size) | PingOp | MoveOp | OtherOp

  /** A view of a surface, placed on one output. */
  datatype View = View(id: nat, output: OutputId)

  /** The state of one xdg surface. */
  datatype Surface = Surface(
    windowType: WindowType,
    transientParent: Option<SurfaceId>,
    state: WindowState,
    savedState: WindowState,
    /** The window state last pushed to the underlying surface. */
    surfaceState: WindowState,
    /** The surface's global position. */
    position: Point,
    savedGeometry: Rect,
    minimized: bool,
    pending: map<nat, Changes>,
    /** The last serial handed out. */
    lastSerial: nat,
    moveGrab: Option<MoveGrab>,
    resizeGrab: Option<ResizeGrab>,
    events: seq<Outgoing>)

  // ---------------------------------------------------------------------
  // Invariant

  /** A configure event carrying `serial` has been sent. */
  ghost predicate Sent(events: seq<Outgoing>, serial: nat) {
    exists i :: 0 <= i < |events| && events[i].Configure? && events[i].serial == serial
  }

  predicate GrabBusy(m: Surface) {
    m.moveGrab.Some? || m.resizeGrab.Some?
  }

  /**
   * At most one grab is held; every pending serial was handed out and sent
   * to the client in a configure event; the underlying surface mirrors the
   * committed window state.
   */
  ghost predicate Inv(m: Surface) {
    && (m.moveGrab.None? || m.resizeGrab.None?)
    && (forall k :: k in m.pending ==> 0 < k <= m.lastSerial)
    && (forall k :: k in m.pending ==> Sent(m.events, k))
    && m.surfaceState == m.state
  }

  lemma SentExtends(events: seq<Outgoing>, e: Outgoing, serial: nat)
    requires Sent(events, serial)
    ensures Sent(events + [e], serial)
  {
    var i :| 0 <= i < |events| && events[i].Configure? && events[i].serial == serial;
    assert (events + [e])[i] == events[i];
  }

  /** Appending any event keeps every pending serial sent. */
  lemma InvExtends(m: Surface, e: Outgoing)
    ensures Inv(m) ==> Inv(m.(events := m.events + [e]))
  {
    if Inv(m) {
      forall k | k in m.pending
        ensures Sent(m.events + [e], k)
      {
        SentExtends(m.events, e, k);
      }
    }
  }

  /** Recording a change under a fresh serial together with its configure event. */
  lemma InvRequest(m: Surface, c: Changes, e: Outgoing)
    requires e.Configure? && e.serial == m.lastSerial + 1
    ensures Inv(m) ==> m.lastSerial + 1 !in m.pending
    ensures Inv(m) ==>
      Inv(m.(pending := m.pending[e.serial := c], lastSerial := e.serial, events := m.events + [e]))
  {
    if Inv(m) {
      InvExtends(m, e);
      assert (m.events + [e])[|m.events|] == e;
    }
  }

  /** A new surface: a toplevel in Normal state, nothing pending, no grab. */
  function Initial(position: Point): (m: Surface)
    ensures Inv(m)
    ensures m.windowType == Toplevel && m.transientParent.None?
    ensures m.state == Normal && !m.minimized && m.position == position
    ensures m.pending == map[] && !GrabBusy(m) && m.events == []
  {
    Surface(Toplevel, None, Normal, Normal, Normal, position, NullRect, false,
            map[], 0, None, None, [])
  }

  // ---------------------------------------------------------------------
  // Configure

  /** The order classes of the state array: window state, resizing, activated. */
  function Rank(s: XdgState): nat {
    match s
    case StateMaximized => 0
    case StateFullscreen => 0
    case StateResizing => 1
    case StateActivated => 2
  }

  /** Entries of strictly increasing rank: in order and without repeats. */
  ghost predicate RankSorted(r: seq<XdgState>) {
    forall i, j :: 0 <= i < j < |r| ==> Rank(r[i]) < Rank(r[j])
  }

  /**
   * The state array of the configure event sent for `c`: at most one of
   * fullscreen and maximized, and only for a state change; then resizing;
   * then activated.
   */
  function StatesFor(c: Changes): (r: seq<XdgState>)
    ensures StateFullscreen in r <==> c.newState && c.state == FullScreen
    ensures StateMaximized in r <==> c.newState && c.state == Maximized
    ensures StateResizing in r <==> c.resizing
    ensures StateActivated in r <==> c.active
    ensures RankSorted(r)
  {
    var windowState :=
      if c.newState && c.state == FullScreen then [StateFullscreen]
      else if c.newState && c.state == Maximized then [StateMaximized]
      else [];
    windowState
      + (if c.resizing then [StateResizing] else [])
      + (if c.active then [StateActivated] else [])
  }

  /** The size a configure event carries: none unless the state or size changes. */
  function ConfigureSize(c: Changes): Size {
    if c.newState || c.resizing then c.size else Size(0, 0)
  }

  /**
   * Takes the next serial, records `c` under it and sends one configure
   * event with that serial.
   */
  function Request(m: Surface, c: Changes): (r: Surface)
    ensures r.lastSerial == m.lastSerial + 1
    ensures r.pending == m.pending[r.lastSerial := c]
    ensures Inv(m) ==> r.lastSerial !in m.pending && |r.pending| == |m.pending| + 1
    ensures r.events == m.events
      + [Configure(ConfigureSize(c).width, ConfigureSize(c).height, StatesFor(c), r.lastSerial)]
    ensures r == m.(pending := r.pending, lastSerial := r.lastSerial, events := r.events)
    ensures Inv(m) ==> Inv(r)
  {
    var serial := m.lastSerial + 1;
    var size := ConfigureSize(c);
    var e := Configure(size.width, size.height, StatesFor(c), serial);
    InvRequest(m, c, e);
    assert m.pending[serial := c].Keys == m.pending.Keys + {serial};
    m.(pending := m.pending[serial := c], lastSerial := serial, events := m.events + [e])
  }

  /** The focus handler: a configure that only carries the activated flag. */
  function FocusChanged(m: Surface, focus: bool): (r: Surface)
    ensures r == Request(m, DefaultChanges.(active := focus))
    ensures r.events == m.events
      + [Configure(0, 0, if focus then [StateActivated] else [], r.lastSerial)]
    ensures Inv(m) ==> Inv(r)
  {
    var c := DefaultChanges.(active := focus);
    assert StatesFor(c) == if focus then [StateActivated] else [];
    Request(m, c)
  }

  // ---------------------------------------------------------------------
  // Acknowledgement

  /** Whether acknowledging `c` moves the surface or gives it a new size. */
  predicate Reconfigures(c: Changes) {
    c.moving || (c.resizing && IsValid(c.size))
  }

  /**
   * The client acknowledges `serial`; `size` is the surface's current size.
   * An unknown serial changes nothing; a known one has its entry removed and
   * its window state and position committed.
   */
  function Ack(m: Surface, serial: nat, size: Size): (r: Surface)
    ensures serial !in m.pending ==> r == m
    ensures serial in m.pending ==>
      r.pending == m.pending - {serial} && |r.pending| == |m.pending| - 1
    ensures serial in m.pending && m.pending[serial].newState ==>
      r.savedState == m.state && r.state == m.pending[serial].state && r.surfaceState == r.state
    ensures serial in m.pending && !m.pending[serial].newState ==>
      r.savedState == m.savedState && r.state == m.state && r.surfaceState == m.surfaceState
    ensures serial in m.pending && Reconfigures(m.pending[serial]) ==>
      && r.savedGeometry == Rect(m.position, size)
      && r.position == (if m.pending[serial].moving then m.pending[serial].position else m.position)
    ensures serial in m.pending && !Reconfigures(m.pending[serial]) ==>
      r.savedGeometry == m.savedGeometry && r.position == m.position
    ensures r == m.(pending := r.pending, state := r.state, savedState := r.savedState,
                    surfaceState := r.surfaceState, position := r.position,
                    savedGeometry := r.savedGeometry)
    ensures Inv(m) ==> Inv(r)
  {
    if serial !in m.pending then m
    else
      assert (m.pending - {serial}).Keys == m.pending.Keys - {serial};
      Commit(m.(pending := m.pending - {serial}), m.pending[serial], size)
  }

  /**
   * What acknowledging `c` does to the window: its state, if it changes the
   * state, then its position; `size` is the surface's current size.
   */
  function Commit(m: Surface, c: Changes, size: Size): (r: Surface)
    ensures r == m.(state := r.state, savedState := r.savedState, surfaceState := r.surfaceState,
                    position := r.position, savedGeometry := r.savedGeometry)
    ensures Inv(m) ==> Inv(r)
  {
    CommitGeometry(CommitState(m, c), c, size)
  }

  /** A state change saves the current state and takes the requested one. */
  function CommitState(m: Surface, c: Changes): (r: Surface)
    ensures r.position == m.position
    ensures Inv(m) ==> Inv(r)
  {
    if c.newState then m.(savedState := m.state, state := c.state, surfaceState := c.state)
    else m
  }

  /**
   * A move or a resize to a valid size saves the geometry the surface had
   * and takes the new top-left corner; a resize alone keeps it.
   */
  function CommitGeometry(m: Surface, c: Changes, size: Size): (r: Surface)
    ensures Inv(m) ==> Inv(r)
  {
    var geometry := Rect(m.position, size);
    var moved := if c.moving then geometry.(topLeft := c.position) else geometry;
    var resized := if c.resizing && IsValid(c.size) then moved.(size := c.size) else moved;
    if Reconfigures(c) then m.(savedGeometry := geometry, position := resized.topLeft)
    else m
  }

  // ---------------------------------------------------------------------
  // Window state requests

  /**
   * The change that re-applies the saved state and geometry, sent by both
   * unset requests.
   */
  function SavedChanges(m: Surface, focus: bool): Changes {
    Changes(true, m.savedState, focus, true, true, m.savedGeometry.topLeft, m.savedGeometry.size)
  }

  /**
   * `set_maximized`, with the main output's available rectangle: ignored for
   * a surface that is not toplevel or already maximized, otherwise one
   * request to take up that rectangle.
   */
  function Maximize(m: Surface, focus: bool, available: Rect): (r: Surface)
    ensures m.windowType != Toplevel || m.state == Maximized ==> r == m
    ensures m.windowType == Toplevel && m.state != Maximized ==>
      && r.lastSerial == m.lastSerial + 1
      && r.pending == m.pending[r.lastSerial :=
           Changes(true, Maximized, focus, true, true, available.topLeft, available.size)]
      && r.events == m.events + [Configure(available.size.width, available.size.height,
           [StateMaximized, StateResizing] + (if focus then [StateActivated] else []), r.lastSerial)]
      && r == m.(pending := r.pending, lastSerial := r.lastSerial, events := r.events)
    ensures Inv(m) ==> Inv(r)
  {
    if m.windowType != Toplevel then m
    else if m.state == Maximized then m
    else
      var c := Changes(true, Maximized, focus, true, true, available.topLeft, available.size);
      assert StatesFor(c) == [StateMaximized, StateResizing] + (if focus then [StateActivated] else []);
      Request(m, c)
  }

  /**
   * `set_fullscreen`: like `Maximize`, but on the full rectangle of the
   * requested output, or of the main output when none is given.
   */
  function Fullscreen(m: Surface, focus: bool, mainOutput: Rect, output: Option<Rect>): (r: Surface)
    ensures m.windowType != Toplevel || m.state == FullScreen ==> r == m
    ensures m.windowType == Toplevel && m.state != FullScreen ==>
      var target := if output.Some? then output.value else mainOutput;
      && r.lastSerial == m.lastSerial + 1
      && r.pending == m.pending[r.lastSerial :=
           Changes(true, FullScreen, focus, true, true, target.topLeft, target.size)]
      && r.events == m.events + [Configure(target.size.width, target.size.height,
           [StateFullscreen, StateResizing] + (if focus then [StateActivated] else []), r.lastSerial)]
      && r == m.(pending := r.pending, lastSerial := r.lastSerial, events := r.events)
    ensures Inv(m) ==> Inv(r)
  {
    if m.windowType != Toplevel then m
    else if m.state == FullScreen then m
    else
      var target := if output.Some? then output.value else mainOutput;
      var c := Changes(true, FullScreen, focus, true, true, target.topLeft, target.size);
      assert StatesFor(c) == [StateFullscreen, StateResizing] + (if focus then [StateActivated] else []);
      Request(m, c)
  }

  /**
   * `unset_maximized` and `unset_fullscreen`: whatever the current state,
   * one request to go back to the saved state and geometry.
   */
  function Unset(m: Surface, focus: bool): (r: Surface)
    ensures r.lastSerial == m.lastSerial + 1
    ensures r.pending == m.pending[r.lastSerial := SavedChanges(m, focus)]
    ensures r.pending[r.lastSerial].newState && r.pending[r.lastSerial].moving
    ensures r.pending[r.lastSerial].state == m.savedState
    ensures r.pending[r.lastSerial].position == m.savedGeometry.topLeft
    ensures r.events == m.events + [Configure(m.savedGeometry.size.width, m.savedGeometry.size.height,
      StatesFor(SavedChanges(m, focus)), r.lastSerial)]
    ensures r == m.(pending := r.pending, lastSerial := r.lastSerial, events := r.events)
    ensures Inv(m) ==> Inv(r)
  {
    Request(m, SavedChanges(m, focus))
  }

  /**
   * `restoreAt`: ignored in Normal state, otherwise one request to go back
   * to Normal at `pos` with the saved size.
   */
  function RestoreAt(m: Surface, pos: Point, focus: bool): (r: Surface)
    ensures m.state == Normal ==> r == m
    ensures m.state != Normal ==>
      && r.lastSerial == m.lastSerial + 1
      && r.pending == m.pending[r.lastSerial :=
           Changes(true, Normal, focus, true, true, pos, m.savedGeometry.size)]
      && r.events == m.events + [Configure(m.savedGeometry.size.width, m.savedGeometry.size.height,
           [StateResizing] + (if focus then [StateActivated] else []), r.lastSerial)]
      && r == m.(pending := r.pending, lastSerial := r.lastSerial, events := r.events)
    ensures Inv(m) ==> Inv(r)
  {
    if m.state == Normal then m
    else
      var c := Changes(true, Normal, focus, true, true, pos, m.savedGeometry.size);
      assert StatesFor(c) == [StateResizing] + (if focus then [StateActivated] else []);
      Request(m, c)
  }

  /** `restore`: `RestoreAt` the saved top-left corner. */
  function Restore(m: Surface, focus: bool): (r: Surface)
    ensures m.state == Normal ==> r == m
    ensures m.state != Normal ==>
      && r.lastSerial == m.lastSerial + 1
      && r.pending == m.pending[r.lastSerial :=
           Changes(true, Normal, focus, true, true, m.savedGeometry.topLeft, m.savedGeometry.size)]
      && r.events == m.events + [Configure(m.savedGeometry.size.width, m.savedGeometry.size.height,
           [StateResizing] + (if focus then [StateActivated] else []), r.lastSerial)]
      && r == m.(pending := r.pending, lastSerial := r.lastSerial, events := r.events)
    ensures Inv(m) ==> Inv(r)
  {
    RestoreAt(m, m.savedGeometry.topLeft, focus)
  }

  /** `set_minimized`: raises the flag; no configure round trip. */
  function Minimize(m: Surface): (r: Surface)
    ensures r.minimized && r == m.(minimized := true)
    ensures Inv(m) ==> Inv(r)
  {
    m.(minimized := true)
  }

  /**
   * `set_parent`: a parent makes the surface transient to it; a null parent
   * makes it toplevel and leaves the recorded transient parent as it was.
   */
  function SetParent(m: Surface, parent: Option<SurfaceId>): (r: Surface)
    ensures parent.Some? ==> r.windowType == Transient && r.transientParent == parent
    ensures parent.None? ==> r.windowType == Toplevel && r.transientParent == m.transientParent
    ensures r == m.(windowType := r.windowType, transientParent := r.transientParent)
    ensures Inv(m) ==> Inv(r)
  {
    match parent
    case Some(_) => m.(windowType := Transient, transientParent := parent)
    case None => m.(windowType := Toplevel)
  }

  // ---------------------------------------------------------------------
  // Move and resize grabs

  /** A grab may start only when no grab is held and the window is Normal. */
  predicate CanGrab(m: Surface) {
    !GrabBusy(m) && m.state != Maximized && m.state != FullScreen
  }

  /** `moveWindow`: records the pointer's offset from the surface's position. */
  function StartMove(m: Surface, pointer: Point): (r: Surface)
    ensures !CanGrab(m) ==> r == m
    ensures CanGrab(m) ==>
      && r.moveGrab.Some? && r.resizeGrab.None?
      && r.moveGrab.value.offset.x + m.position.x == pointer.x
      && r.moveGrab.value.offset.y + m.position.y == pointer.y
      && r == m.(moveGrab := r.moveGrab)
    ensures Inv(m) ==> Inv(r)
  {
    if GrabBusy(m) then m
    else if m.state == Maximized || m.state == FullScreen then m
    else m.(moveGrab := Some(MoveGrab(Minus(pointer, m.position))))
  }

  /**
   * `resize`: records the pointer position, the edges and the surface's
   * current size.
   */
  function StartResize(m: Surface, pointer: Point, edges: uint32, size: Size): (r: Surface)
    ensures !CanGrab(m) ==> r == m
    ensures CanGrab(m) ==>
      && r.resizeGrab == Some(ResizeGrab(pointer, edges, size.width, size.height))
      && r.moveGrab.None?
      && r == m.(resizeGrab := r.resizeGrab)
    ensures Inv(m) ==> Inv(r)
  {
    if GrabBusy(m) then m
    else if m.state == Maximized || m.state == FullScreen then m
    else m.(resizeGrab := Some(ResizeGrab(pointer, edges, size.width, size.height)))
  }

  /** `resetMoveGrab`: empties the move slot. */
  function ResetMove(m: Surface): (r: Surface)
    ensures r.moveGrab.None? && r == m.(moveGrab := None)
    ensures m.resizeGrab.None? && m.state == Normal ==> CanGrab(r)
    ensures Inv(m) ==> Inv(r)
  {
    m.(moveGrab := None)
  }

  /** `resetResizeGrab`: empties the resize slot. */
  function ResetResize(m: Surface): (r: Surface)
    ensures r.resizeGrab.None? && r == m.(resizeGrab := None)
    ensures m.moveGrab.None? && m.state == Normal ==> CanGrab(r)
    ensures Inv(m) ==> Inv(r)
  {
    m.(resizeGrab := None)
  }

  // ---------------------------------------------------------------------
  // Compositor operations

  /** Whether `runOperation` reports `op` as handled. */
  predicate Handles(op: SurfaceOp) {
    !op.OtherOp?
  }

  /**
   * `runOperation`: close and ping are passed on, a resize becomes a
   * configure with the resizing flag, a move starts a move grab.
   */
  function Operate(m: Surface, op: SurfaceOp, focus: bool, pointer: Point): (r: Surface)
    ensures op.CloseOp? ==> r == m.(events := m.events + [Close])
    ensures op.PingOp? ==> r == m.(events := m.events + [Ping])
    ensures op.ResizeOp? ==>
      && r.lastSerial == m.lastSerial + 1
      && r.pending == m.pending[r.lastSerial := DefaultChanges.(active := focus, resizing := true, size := op.size)]
      && r.events == m.events + [Configure(op.size.width, op.size.height,
           [StateResizing] + (if focus then [StateActivated] else []), r.lastSerial)]
      && r == m.(pending := r.pending, lastSerial := r.lastSerial, events := r.events)
    ensures op.MoveOp? ==> r == StartMove(m, pointer)
    ensures op.OtherOp? ==> r == m
    ensures Inv(m) ==> Inv(r)
  {
    match op
    case CloseOp =>
      InvExtends(m, Close);
      m.(events := m.events + [Close])
    case ResizeOp(size) =>
      var c := DefaultChanges.(active := focus, resizing := true, size := size);
      assert StatesFor(c) == [StateResizing] + (if focus then [StateActivated] else []);
      Request(m, c)
    case PingOp =>
      InvExtends(m, Ping);
      m.(events := m.events + [Ping])
    case MoveOp => StartMove(m, pointer)
    case OtherOp => m
  }

  // ---------------------------------------------------------------------
  // Transient parent

  predicate IsOn(entry: Option<View>, output: OutputId) {
    entry.Some? && entry.value.output == output
  }

  /**
   * The first view in `views` that lies on `output`; absent entries are
   * skipped.
   */
  function FirstViewOn(views: seq<Option<View>>, output: OutputId): (r: Option<View>)
    ensures r.Some? <==> exists i :: 0 <= i < |views| && IsOn(views[i], output)
    ensures r.Some? ==> exists i :: 0 <= i < |views| && views[i] == r && IsOn(views[i], output)
                                    && forall j :: 0 <= j < i ==> !IsOn(views[j], output)
  {
    if views == [] then None
    else if IsOn(views[0], output) then views[0]
    else
      var r := FirstViewOn(views[1..], output);
      assert forall i :: 0 < i < |views| ==> views[i] == views[1..][i - 1];
      r
  }
}
