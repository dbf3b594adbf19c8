/**
 * The xdg surface object. Its fields are updated in place by the request
 * handlers, exactly as the transitions of module XdgSurfaceSpec describe:
 * every method ends with `Model()` equal to the transition applied to
 * `old(Model())`.
 *
 * Facts owned by the rest of the compositor are parameters: whether the
 * surface's view has focus, the output rectangles, the pointer position and
 * the surface's current size.
 */
module XdgSurfaces {
  import opened Wrappers
  import opened Geometry
  import opened XdgSurfaceSpec

  class XdgSurface {
    var windowType: WindowType
    var transientParent: Option<SurfaceId>
    var state: WindowState
    var savedState: WindowState
    var surfaceState: WindowState
    var position: Point
    var savedGeometry: Rect
    var minimized: bool
    var pendingChanges: map<nat, Changes>
    var lastSerial: nat
    var moveGrab: Option<MoveGrab>
    var resizeGrab: Option<ResizeGrab>
    var events: seq<Outgoing>

    /** The state of this object as a value. */
    ghost function Model(): Surface
      reads this
    {
      Surface(windowType, transientParent, state, savedState, surfaceState, position,
              savedGeometry, minimized, pendingChanges, lastSerial, moveGrab, resizeGrab, events)
    }

    ghost predicate Valid()
      reads this
    {
      Inv(Model())
    }

    /** A new toplevel surface at global position `pos`. */
    constructor (pos: Point)
      ensures Valid() && Model() == Initial(pos)
    {
      windowType := Toplevel;
      transientParent := None;
      state := Normal;
      savedState := Normal;
      surfaceState := Normal;
      position := pos;
      savedGeometry := NullRect;
      minimized := false;
      pendingChanges := map[];
      lastSerial := 0;
      moveGrab := None;
      resizeGrab := None;
      events := [];
    }

    /**
     * Builds the state array entry by entry, takes the next serial, records
     * `changes` under it and sends the configure event.
     */
    method RequestConfigure(changes: Changes) returns (serial: nat)
      requires Valid()
      modifies this
      ensures Valid() && Model() == Request(old(Model()), changes)
      ensures serial == lastSerial && serial !in old(pendingChanges)
    {
      var states := ConfigureStates(changes);
      ghost var after := Request(Model(), changes);

      serial := lastSerial + 1;
      var size := if changes.newState || changes.resizing then changes.size else Size(0, 0);
      lastSerial := serial;
      pendingChanges := pendingChanges[serial := changes];
      events := events + [Configure(size.width, size.height, states, serial)];
      assert Model() == after;
    }

    /**
     * The state array of the configure event for `changes`, appended entry
     * by entry: the window state, then resizing, then activated.
     */
    static method ConfigureStates(changes: Changes) returns (states: seq<XdgState>)
      ensures states == StatesFor(changes)
    {
      states := [];
      if changes.newState {
        if changes.state == FullScreen {
          states := states + [StateFullscreen];
        } else if changes.state == Maximized {
          states := states + [StateMaximized];
        }
      }
      ghost var windowState := states;
      if changes.resizing {
        states := states + [StateResizing];
      }
      assert states == windowState + (if changes.resizing then [StateResizing] else []);
      if changes.active {
        states := states + [StateActivated];
      }
    }

    /** The focus handler of the surface's view. */
    method FocusChanged(focus: bool)
      requires Valid()
      modifies this
      ensures Valid() && Model() == XdgSurfaceSpec.FocusChanged(old(Model()), focus)
    {
      var changes := DefaultChanges.(active := focus);
      var _ := RequestConfigure(changes);
    }

    /** `ack_configure`: commits the change recorded under `serial`, if any. */
    method AckConfigure(serial: nat, currentSize: Size)
      requires Valid()
      modifies this
      ensures Valid() && Model() == Ack(old(Model()), serial, currentSize)
    {
      ghost var after := Ack(Model(), serial, currentSize);
      if serial !in pendingChanges {
        return;
      }
      var changes := pendingChanges[serial];
      pendingChanges := pendingChanges - {serial};
      ghost var removed := Model();
      CommitStateChange(changes);
      CommitGeometryChange(changes, currentSize);
      assert Model() == Commit(removed, changes, currentSize);
    }

    /** The state half of `ack_configure`. */
    method CommitStateChange(changes: Changes)
      modifies this
      ensures Model() == CommitState(old(Model()), changes)
    {
      if changes.newState {
        savedState := state;
        state := changes.state;
        surfaceState := state;
      }
    }

    /** The geometry half of `ack_configure`; `currentSize` is the surface's size. */
    method CommitGeometryChange(changes: Changes, currentSize: Size)
      modifies this
      ensures Model() == CommitGeometry(old(Model()), changes, currentSize)
    {
      var changed := false;
      var geometry := Rect(position, currentSize);
      if changes.moving {
        geometry := geometry.(topLeft := changes.position);
        changed := true;
      }
      if changes.resizing && IsValid(changes.size) {
        geometry := geometry.(size := changes.size);
        changed := true;
      }
      if changed {
        savedGeometry := Rect(position, currentSize);
        position := geometry.topLeft;
      }
    }

    /** `set_maximized`, with the main output's available rectangle. */
    method SetMaximized(focus: bool, available: Rect)
      requires Valid()
      modifies this
      ensures Valid() && Model() == Maximize(old(Model()), focus, available)
    {
      if windowType != Toplevel {
        return;
      }
      if state == Maximized {
        return;
      }
      var changes := Changes(true, Maximized, focus, true, true, available.topLeft, available.size);
      var _ := RequestConfigure(changes);
    }

    /** `unset_maximized`. */
    method UnsetMaximized(focus: bool)
      requires Valid()
      modifies this
      ensures Valid() && Model() == Unset(old(Model()), focus)
    {
      var changes := Changes(true, savedState, focus, true, true,
                             savedGeometry.topLeft, savedGeometry.size);
      var _ := RequestConfigure(changes);
    }

    /**
     * `set_fullscreen`, given the main output's full rectangle and that of
     * the output named in the request, if any.
     */
    method SetFullscreen(focus: bool, mainOutput: Rect, output: Option<Rect>)
      requires Valid()
      modifies this
      ensures Valid() && Model() == Fullscreen(old(Model()), focus, mainOutput, output)
    {
      if windowType != Toplevel {
        return;
      }
      if state == FullScreen {
        return;
      }
      var target := mainOutput;
      if output.Some? {
        target := output.value;
      }
      var changes := Changes(true, FullScreen, focus, true, true, target.topLeft, target.size);
      var _ := RequestConfigure(changes);
    }

    /** `unset_fullscreen`. */
    method UnsetFullscreen(focus: bool)
      requires Valid()
      modifies this
      ensures Valid() && Model() == Unset(old(Model()), focus)
    {
      var changes := Changes(true, savedState, focus, true, true,
                             savedGeometry.topLeft, savedGeometry.size);
      var _ := RequestConfigure(changes);
    }

    /** `restoreAt`. */
    method RestoreAt(pos: Point, focus: bool)
      requires Valid()
      modifies this
      ensures Valid() && Model() == XdgSurfaceSpec.RestoreAt(old(Model()), pos, focus)
    {
      if state == Normal {
        return;
      }
      var changes := Changes(true, Normal, focus, true, true, pos, savedGeometry.size);
      var _ := RequestConfigure(changes);
    }

    /** `restore`. */
    method Restore(focus: bool)
      requires Valid()
      modifies this
      ensures Valid() && Model() == XdgSurfaceSpec.Restore(old(Model()), focus)
    {
      RestoreAt(savedGeometry.topLeft, focus);
    }

    /**
     * `set_minimized`. Returns whether the window representation is hidden,
     * which happens when one exists.
     */
    method SetMinimized(hasWindow: bool) returns (hidden: bool)
      requires Valid()
      modifies this
      ensures Valid() && Model() == Minimize(old(Model()))
      ensures hidden == hasWindow
    {
      minimized := true;
      hidden := hasWindow;
    }

    /** `set_parent`; `None` stands for a null parent. */
    method SetParent(parent: Option<SurfaceId>)
      requires Valid()
      modifies this
      ensures Valid() && Model() == XdgSurfaceSpec.SetParent(old(Model()), parent)
    {
      if parent.Some? {
        windowType := Transient;
        transientParent := parent;
      } else {
        windowType := Toplevel;
      }
    }

    /** `moveWindow`, with the pointer's current position. */
    method MoveWindow(pointer: Point)
      requires Valid()
      modifies this
      ensures Valid() && Model() == StartMove(old(Model()), pointer)
    {
      if moveGrab.Some? || resizeGrab.Some? {
        return;
      }
      if state == Maximized || state == FullScreen {
        return;
      }
      moveGrab := Some(MoveGrab(Minus(pointer, position)));
    }

    /** `resize`, with the pointer's position and the surface's current size. */
    method Resize(pointer: Point, edges: uint32, currentSize: Size)
      requires Valid()
      modifies this
      ensures Valid() && Model() == StartResize(old(Model()), pointer, edges, currentSize)
    {
      if moveGrab.Some? || resizeGrab.Some? {
        return;
      }
      if state == Maximized || state == FullScreen {
        return;
      }
      resizeGrab := Some(ResizeGrab(pointer, edges, currentSize.width, currentSize.height));
    }

    method ResetMoveGrab()
      requires Valid()
      modifies this
      ensures Valid() && Model() == ResetMove(old(Model()))
    {
      moveGrab := None;
    }

    method ResetResizeGrab()
      requires Valid()
      modifies this
      ensures Valid() && Model() == ResetResize(old(Model()))
    {
      resizeGrab := None;
    }

    /**
     * `runOperation`; `pointer` is the default input device's pointer
     * position, used by a move.
     */
    method RunOperation(op: SurfaceOp, focus: bool, pointer: Point) returns (handled: bool)
      requires Valid()
      modifies this
      ensures Valid() && Model() == Operate(old(Model()), op, focus, pointer)
      ensures handled == Handles(op)
    {
      match op {
        case CloseOp =>
          InvExtends(Model(), Close);
          events := events + [Close];
          handled := true;
        case ResizeOp(size) =>
          var changes := DefaultChanges.(active := focus, resizing := true, size := size);
          var _ := RequestConfigure(changes);
          handled := true;
        case PingOp =>
          InvExtends(Model(), Ping);
          events := events + [Ping];
          handled := true;
        case MoveOp =>
          MoveWindow(pointer);
          handled := true;
        case OtherOp =>
          handled := false;
      }
    }

    /**
     * `parentView`: the first view of the transient parent (whose views are
     * `parentViews`) on `output`, the output of this surface's own view.
     */
    function ParentView(parentViews: seq<Option<View>>, output: OutputId): (r: Option<View>)
      reads this
      ensures transientParent.None? ==> r.None?
      ensures transientParent.Some? ==>
        (r.Some? <==> exists i :: 0 <= i < |parentViews| && IsOn(parentViews[i], output))
      ensures r.Some? ==> exists i :: 0 <= i < |parentViews| && parentViews[i] == r && IsOn(r, output)
                                      && forall j :: 0 <= j < i ==> !IsOn(parentViews[j], output)
    {
      if transientParent.None? then None
      else FirstViewOn(parentViews, output)
    }
  }
}
