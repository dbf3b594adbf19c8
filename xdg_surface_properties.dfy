/**
 * Properties of the xdg surface that relate several requests: the state
 * array is determined by the flags it reports, serials keep outstanding
 * configures apart, a maximize or fullscreen request is undone by the
 * matching unset request, and the two grabs exclude each other.
 */
module XdgSurfaceProperties {
  import opened Wrappers
  import opened Geometry
  import opened XdgSurfaceSpec

  // ---------------------------------------------------------------------
  // The state array

  lemma TailAbove(s: seq<XdgState>)
    requires RankSorted(s) && s != []
    ensures forall x :: x in s[1..] ==> Rank(x) > Rank(s[0])
    ensures forall x :: x in s ==> x == s[0] || x in s[1..]
    ensures RankSorted(s[1..])
  {
    forall x | x in s[1..]
      ensures Rank(x) > Rank(s[0])
    {
      var i :| 0 <= i < |s[1..]| && s[1..][i] == x;
      assert s[i + 1] == x;
    }
    assert s == [s[0]] + s[1..];
  }

  lemma SameEmptiness(s: seq<XdgState>, t: seq<XdgState>)
    requires forall x :: x in s <==> x in t
    ensures s == [] <==> t == []
  {
    if s != [] { assert s[0] in t; }
    if t != [] { assert t[0] in s; }
  }

  /** Two state arrays in rank order with the same entries are equal. */
  lemma {:induction false} RankSortedUnique(s: seq<XdgState>, t: seq<XdgState>)
    requires RankSorted(s) && RankSorted(t)
    requires forall x :: x in s <==> x in t
    ensures s == t
  {
    SameEmptiness(s, t);
    if s != [] {
      TailAbove(s);
      TailAbove(t);
      assert s[0] in t && t[0] in s;
      forall x
        ensures x in s[1..] <==> x in t[1..]
      {
        assert x in s[1..] ==> x in s && x != s[0];
        assert x in t[1..] ==> x in t && x != t[0];
      }
      RankSortedUnique(s[1..], t[1..]);
      assert s == [s[0]] + s[1..];
      assert t == [t[0]] + t[1..];
    }
  }

  /**
   * The ordering rule fixes the state array: any list that reports exactly
   * the flags of `c` and keeps the order window state, resizing, activated
   * is the one sent for `c`.
   */
  lemma StatesDetermined(c: Changes, r: seq<XdgState>)
    requires StateFullscreen in r <==> c.newState && c.state == FullScreen
    requires StateMaximized in r <==> c.newState && c.state == Maximized
    requires StateResizing in r <==> c.resizing
    requires StateActivated in r <==> c.active
    requires RankSorted(r)
    ensures r == StatesFor(c)
  {
    var expected := StatesFor(c);
    forall x
      ensures x in r <==> x in expected
    {
      match x
      case StateMaximized =>
      case StateFullscreen =>
      case StateResizing =>
      case StateActivated =>
    }
    RankSortedUnique(r, expected);
  }

  // ---------------------------------------------------------------------
  // Serials

  /** The surface after requesting each of `cs` in turn. */
  ghost function RequestAll(m: Surface, cs: seq<Changes>): Surface
    decreases |cs|
  {
    if cs == [] then m else RequestAll(Request(m, cs[0]), cs[1..])
  }

  /** `pending` after recording each of `cs` under the serials following `last`. */
  ghost function Recorded(pending: map<nat, Changes>, last: nat, cs: seq<Changes>): map<nat, Changes>
    decreases |cs|
  {
    if cs == [] then pending else Recorded(pending[last + 1 := cs[0]], last + 1, cs[1..])
  }

  lemma {:induction false} RequestAllRecords(m: Surface, cs: seq<Changes>)
    ensures RequestAll(m, cs).lastSerial == m.lastSerial + |cs|
    ensures RequestAll(m, cs).pending == Recorded(m.pending, m.lastSerial, cs)
    decreases |cs|
  {
    if cs != [] {
      RequestAllRecords(Request(m, cs[0]), cs[1..]);
    }
  }

  lemma {:induction false} RequestAllInv(m: Surface, cs: seq<Changes>)
    requires Inv(m)
    ensures Inv(RequestAll(m, cs))
    decreases |cs|
  {
    if cs != [] {
      RequestAllInv(Request(m, cs[0]), cs[1..]);
    }
  }

  lemma {:induction false} RecordedKeeps(pending: map<nat, Changes>, last: nat, cs: seq<Changes>)
    ensures forall k :: k in pending && k > last + |cs| ==>
      k in Recorded(pending, last, cs) && Recorded(pending, last, cs)[k] == pending[k]
    ensures forall k :: k in pending && k <= last ==>
      k in Recorded(pending, last, cs) && Recorded(pending, last, cs)[k] == pending[k]
    ensures forall k :: k in Recorded(pending, last, cs) ==> k in pending || last < k <= last + |cs|
    decreases |cs|
  {
    if cs != [] {
      var p1 := pending[last + 1 := cs[0]];
      RecordedKeeps(p1, last + 1, cs[1..]);
      assert forall k :: k in p1 ==> k in pending || k == last + 1;
    }
  }

  lemma {:induction false} RecordedAt(pending: map<nat, Changes>, last: nat, cs: seq<Changes>, i: nat)
    requires i < |cs|
    ensures last + 1 + i in Recorded(pending, last, cs)
    ensures Recorded(pending, last, cs)[last + 1 + i] == cs[i]
    decreases |cs|
  {
    var p1 := pending[last + 1 := cs[0]];
    if i == 0 {
      RecordedKeeps(p1, last + 1, cs[1..]);
      assert last + 1 in p1 && last + 1 <= last + 1;
    } else {
      RecordedAt(p1, last + 1, cs[1..], i - 1);
      assert last + 1 + 1 + (i - 1) == last + 1 + i;
    }
  }

  /**
   * Each serial after `last`, up to `last + |cs|` and outside `except`, is
   * pending in `pending` with its own change of `cs`.
   */
  ghost predicate HoldsInOrder(pending: map<nat, Changes>, last: nat, cs: seq<Changes>, except: set<nat>)
  {
    forall k :: last < k <= last + |cs| && k !in except ==> k in pending && pending[k] == cs[k - last - 1]
  }

  lemma RecordedFresh(pending: map<nat, Changes>, last: nat, cs: seq<Changes>)
    ensures HoldsInOrder(Recorded(pending, last, cs), last, cs, {})
  {
    forall k | last < k <= last + |cs|
      ensures k in Recorded(pending, last, cs) && Recorded(pending, last, cs)[k] == cs[k - last - 1]
    {
      RecordedAt(pending, last, cs, k - last - 1);
    }
  }

  /**
   * The serials handed out for a sequence of changes are the next |cs| ones,
   * and each carries its own change.
   */
  lemma RequestAllFresh(m: Surface, cs: seq<Changes>)
    ensures HoldsInOrder(RequestAll(m, cs).pending, m.lastSerial, cs, {})
  {
    RequestAllRecords(m, cs);
    RecordedFresh(m.pending, m.lastSerial, cs);
  }

  /**
   * Requesting a sequence of changes keeps the invariant, keeps every
   * earlier entry and adds entries only under the serials it hands out.
   */
  lemma RequestAllKeeps(m: Surface, cs: seq<Changes>)
    requires Inv(m)
    ensures Inv(RequestAll(m, cs))
    ensures RequestAll(m, cs).lastSerial == m.lastSerial + |cs|
    ensures forall k :: k in m.pending ==>
      k in RequestAll(m, cs).pending && RequestAll(m, cs).pending[k] == m.pending[k]
    ensures forall k :: k in RequestAll(m, cs).pending ==>
      k in m.pending || m.lastSerial < k <= m.lastSerial + |cs|
  {
    RequestAllRecords(m, cs);
    RequestAllInv(m, cs);
    RequestAllOld(m, cs);
  }

  lemma RequestAllOld(m: Surface, cs: seq<Changes>)
    requires forall k :: k in m.pending ==> k <= m.lastSerial
    ensures forall k :: k in m.pending ==>
      k in RequestAll(m, cs).pending && RequestAll(m, cs).pending[k] == m.pending[k]
    ensures forall k :: k in RequestAll(m, cs).pending ==>
      k in m.pending || m.lastSerial < k <= m.lastSerial + |cs|
  {
    RequestAllRecords(m, cs);
    RecordedKeeps(m.pending, m.lastSerial, cs);
  }

  /**
   * Of many outstanding configures, acknowledging one removes that entry
   * and leaves every other request's change under its own serial.
   */
  lemma AckAmongMany(m: Surface, cs: seq<Changes>, j: nat, size: Size)
    requires j < |cs|
    ensures var acked := Ack(RequestAll(m, cs), m.lastSerial + 1 + j, size);
            && m.lastSerial + 1 + j !in acked.pending
            && HoldsInOrder(acked.pending, m.lastSerial, cs, {m.lastSerial + 1 + j})
  {
    RequestAllFresh(m, cs);
    AckKeepsOthers(RequestAll(m, cs), m.lastSerial, cs, m.lastSerial + 1 + j, size);
  }

  /**
   * On any surface whose serials after `last` hold `cs` in order,
   * acknowledging one of them removes it and keeps the others.
   */
  lemma AckKeepsOthers(many: Surface, last: nat, cs: seq<Changes>, serial: nat, size: Size)
    requires last < serial <= last + |cs|
    requires HoldsInOrder(many.pending, last, cs, {})
    ensures serial !in Ack(many, serial, size).pending
    ensures HoldsInOrder(Ack(many, serial, size).pending, last, cs, {serial})
  {
    assert serial in many.pending;
    var acked := Ack(many, serial, size);
    forall k | last < k <= last + |cs| && k != serial
      ensures k in acked.pending && acked.pending[k] == cs[k - last - 1]
    {
      assert k in many.pending && many.pending[k] == cs[k - last - 1];
    }
  }

  /**
   * Acknowledging one of many new configures leaves the entries that were
   * outstanding before them untouched.
   */
  lemma AckAmongManyKeepsEarlier(m: Surface, cs: seq<Changes>, j: nat, size: Size)
    requires forall k :: k in m.pending ==> k <= m.lastSerial
    requires j < |cs|
    ensures var acked := Ack(RequestAll(m, cs), m.lastSerial + 1 + j, size);
            forall k :: k in m.pending ==> k in acked.pending && acked.pending[k] == m.pending[k]
  {
    RequestAllOld(m, cs);
  }

  /**
   * Acknowledging the configure just requested commits its change and
   * leaves the pending entries as they were before the request.
   */
  lemma AckOfRequest(m: Surface, c: Changes, size: Size)
    requires Inv(m)
    ensures var r := Request(m, c);
            Ack(r, r.lastSerial, size) == Commit(r.(pending := m.pending), c, size)
  {
    var r := Request(m, c);
    assert r.pending - {r.lastSerial} == m.pending;
  }

  /** Acknowledging a serial a second time changes nothing. */
  lemma AckTwice(m: Surface, serial: nat, size1: Size, size2: Size)
    ensures Ack(Ack(m, serial, size1), serial, size2) == Ack(m, serial, size1)
  {
  }

  /**
   * A focus change, once acknowledged, leaves the window as it was: only
   * the serial counter and the sent events differ.
   */
  lemma FocusAckKeepsWindow(m: Surface, focus: bool, size: Size)
    requires Inv(m)
    ensures var f := FocusChanged(m, focus);
            Ack(f, f.lastSerial, size) == m.(lastSerial := f.lastSerial, events := f.events)
  {
    var f := FocusChanged(m, focus);
    assert f.pending - {f.lastSerial} == m.pending;
  }

  /**
   * A resize operation, once acknowledged with a valid size, keeps the
   * position and saves the geometry the surface had.
   */
  lemma ResizeAckKeepsPosition(m: Surface, focus: bool, pointer: Point, newSize: Size, size: Size)
    requires Inv(m) && IsValid(newSize)
    ensures var r := Operate(m, ResizeOp(newSize), focus, pointer);
            var a := Ack(r, r.lastSerial, size);
            && a.position == m.position
            && a.savedGeometry == Rect(m.position, size)
            && a.state == m.state && a.savedState == m.savedState
            && a.pending == m.pending
  {
    var c := DefaultChanges.(active := focus, resizing := true, size := newSize);
    assert Operate(m, ResizeOp(newSize), focus, pointer) == Request(m, c);
    AckOfRequest(m, c, size);
  }

  // ---------------------------------------------------------------------
  // Window state round trips

  /**
   * Maximize, acknowledge, unset, acknowledge (with nothing else
   * acknowledged in between) returns to the state and the position the
   * surface had before it was maximized, with nothing left pending.
   */
  lemma MaximizeRoundTrip(m: Surface, focus1: bool, available: Rect, size1: Size,
                          focus2: bool, size2: Size)
    requires Inv(m) && m.windowType == Toplevel && m.state != Maximized
    ensures var m1 := Maximize(m, focus1, available);
            var m2 := Ack(m1, m1.lastSerial, size1);
            var m3 := Unset(m2, focus2);
            var m4 := Ack(m3, m3.lastSerial, size2);
            && m2.state == Maximized && m2.position == available.topLeft
            && m2.savedState == m.state && m2.savedGeometry == Rect(m.position, size1)
            && m4.state == m.state && m4.position == m.position
            && m4.pending == m.pending
  {
    var m1 := Maximize(m, focus1, available);
    AckOfRequest(m, Changes(true, Maximized, focus1, true, true, available.topLeft, available.size), size1);
    var m2 := Ack(m1, m1.lastSerial, size1);
    AckOfRequest(m2, SavedChanges(m2, focus2), size2);
  }

  /** The same round trip for fullscreen. */
  lemma FullscreenRoundTrip(m: Surface, focus1: bool, mainOutput: Rect, output: Option<Rect>,
                            size1: Size, focus2: bool, size2: Size)
    requires Inv(m) && m.windowType == Toplevel && m.state != FullScreen
    ensures var m1 := Fullscreen(m, focus1, mainOutput, output);
            var m2 := Ack(m1, m1.lastSerial, size1);
            var m3 := Unset(m2, focus2);
            var m4 := Ack(m3, m3.lastSerial, size2);
            && m2.state == FullScreen
            && m2.position == (if output.Some? then output.value else mainOutput).topLeft
            && m2.savedState == m.state && m2.savedGeometry == Rect(m.position, size1)
            && m4.state == m.state && m4.position == m.position
            && m4.pending == m.pending
  {
    var target := if output.Some? then output.value else mainOutput;
    AckOfRequest(m, Changes(true, FullScreen, focus1, true, true, target.topLeft, target.size), size1);
    var m1 := Fullscreen(m, focus1, mainOutput, output);
    var m2 := Ack(m1, m1.lastSerial, size1);
    AckOfRequest(m2, SavedChanges(m2, focus2), size2);
  }

  /**
   * A focused new toplevel, maximized on an output whose available area is
   * `available`: one configure with that area's size, serial 1 and the
   * states maximized, resizing, activated; its acknowledgement makes the
   * window Maximized at the area's corner, saves the old geometry and
   * leaves nothing pending.
   */
  lemma MaximizeNewSurface(pos: Point, available: Rect, size: Size)
    ensures var m1 := Maximize(Initial(pos), true, available);
            var m2 := Ack(m1, 1, size);
            && m1.events == [Configure(available.size.width, available.size.height,
                                       [StateMaximized, StateResizing, StateActivated], 1)]
            && m2.state == Maximized && m2.position == available.topLeft
            && m2.savedGeometry == Rect(pos, size)
            && m2.pending == map[]
  {
    var c := Changes(true, Maximized, true, true, true, available.topLeft, available.size);
    var m0 := Initial(pos);
    AckOfRequest(m0, c, size);
    var m1 := Request(m0, c);
    assert Maximize(m0, true, available) == m1;
    var stated := CommitState(m1.(pending := m0.pending), c);
    assert stated.state == Maximized && stated.position == pos;
    assert [StateMaximized, StateResizing] + [StateActivated]
        == [StateMaximized, StateResizing, StateActivated];
  }

  /**
   * `unset_maximized` has no guard, and the restoring acknowledgement saves
   * Maximized as the saved state: a second unset on the restored window asks
   * for Maximized again, at the maximized position.
   */
  lemma UnsetTwiceRemaximizes(m: Surface, focus1: bool, available: Rect, size1: Size,
                              focus2: bool, size2: Size, focus3: bool, size3: Size)
    requires Inv(m) && m.windowType == Toplevel && m.state == Normal
    ensures var m1 := Maximize(m, focus1, available);
            var m2 := Ack(m1, m1.lastSerial, size1);
            var m3 := Unset(m2, focus2);
            var m4 := Ack(m3, m3.lastSerial, size2);
            var m5 := Unset(m4, focus3);
            var m6 := Ack(m5, m5.lastSerial, size3);
            && m4.state == Normal && m4.savedState == Maximized
            && m6.state == Maximized && m6.position == available.topLeft
  {
    AckOfRequest(m, Changes(true, Maximized, focus1, true, true, available.topLeft, available.size), size1);
    var m1 := Maximize(m, focus1, available);
    var m2 := Ack(m1, m1.lastSerial, size1);
    AckOfRequest(m2, SavedChanges(m2, focus2), size2);
    var m3 := Unset(m2, focus2);
    var m4 := Ack(m3, m3.lastSerial, size2);
    AckOfRequest(m4, SavedChanges(m4, focus3), size3);
  }

  /** `restore` asks for what `unset_maximized` asks for when the saved state is Normal. */
  lemma RestoreIsUnset(m: Surface, focus: bool)
    requires m.state != Normal && m.savedState == Normal
    ensures Restore(m, focus) == Unset(m, focus)
  {
  }

  /** A transient surface can be neither maximized nor made fullscreen. */
  lemma TransientIgnoresStateRequests(m: Surface, parent: SurfaceId, focus: bool,
                                      available: Rect, mainOutput: Rect, output: Option<Rect>)
    ensures var t := SetParent(m, Some(parent));
            && Maximize(t, focus, available) == t
            && Fullscreen(t, focus, mainOutput, output) == t
  {
  }

  /** Asking again for the current state sends no configure. */
  lemma RepeatedStateRequestIgnored(m: Surface, focus: bool, available: Rect,
                                    mainOutput: Rect, output: Option<Rect>)
    ensures m.state == Maximized ==> Maximize(m, focus, available) == m
    ensures m.state == FullScreen ==> Fullscreen(m, focus, mainOutput, output) == m
  {
  }

  // ---------------------------------------------------------------------
  // Grabs

  /** Once either grab is held, neither a move nor a resize can start. */
  lemma GrabsExclusive(m: Surface, pointer: Point, pointer2: Point, edges: uint32, size: Size)
    ensures var mv := StartMove(m, pointer);
            mv.moveGrab.Some? ==>
              StartResize(mv, pointer2, edges, size) == mv && StartMove(mv, pointer2) == mv
    ensures var rs := StartResize(m, pointer, edges, size);
            rs.resizeGrab.Some? ==>
              StartMove(rs, pointer2) == rs && StartResize(rs, pointer2, edges, size) == rs
  {
  }

  /** After a move ends, a new grab can start straight away. */
  lemma ResetThenGrab(m: Surface, pointer: Point, edges: uint32, size: Size)
    requires Inv(m) && m.state == Normal && m.moveGrab.Some?
    ensures StartResize(ResetMove(m), pointer, edges, size).resizeGrab
            == Some(ResizeGrab(pointer, edges, size.width, size.height))
    ensures StartMove(ResetMove(m), pointer).moveGrab.Some?
  {
  }
}
