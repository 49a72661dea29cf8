/** How window state crosses the X11 boundary: the WM_STATE property of section
    4.1.3.1 of ICCCM, the _NET_WM_STATE property and client message of EWMH 1.3
    ("Application Window Properties"), and the WM_CHANGE_STATE message of section
    4.1.4 of ICCCM. */
module StateProtocol {
  import opened Xcb
  import opened WindowStates
  import opened Optional

  /** The WM_STATE value announced for a state: withdrawn, else iconic when minimized,
      else normal. */
  function WmStateOf(s: WindowState): (r: uint32)
    ensures r == WM_STATE_WITHDRAWN <==> s.withdrawn
    ensures r == WM_STATE_ICONIC <==> !s.withdrawn && s.minimized
    ensures r == WM_STATE_NORMAL <==> !s.withdrawn && !s.minimized
  {
    if s.withdrawn then WM_STATE_WITHDRAWN
    else if s.minimized then WM_STATE_ICONIC
    else WM_STATE_NORMAL
  }

  /** The _NET_WM_STATE atom list announced for a mapped window: hidden, then both
      maximized atoms, then fullscreen, each only when its flag is set. */
  function NetWmStateList(s: WindowState, atoms: AtomTable): (r: seq<Atom>)
    requires atoms.Valid()
    ensures atoms.netWmStateHidden in r <==> s.minimized
    ensures atoms.netWmStateMaximizedHorz in r <==> s.maximized
    ensures atoms.netWmStateMaximizedVert in r <==> s.maximized
    ensures atoms.netWmStateFullscreen in r <==> s.fullscreen
    ensures |r| == (if s.minimized then 1 else 0) + (if s.maximized then 2 else 0) + (if s.fullscreen then 1 else 0)
    ensures s.minimized ==> r[0] == atoms.netWmStateHidden
    ensures s.fullscreen ==> r[|r| - 1] == atoms.netWmStateFullscreen
    ensures s.maximized ==>
      var i := if s.minimized then 1 else 0;
      r[i] == atoms.netWmStateMaximizedHorz && r[i + 1] == atoms.netWmStateMaximizedVert
  {
    (if s.minimized then [atoms.netWmStateHidden] else [])
    + (if s.maximized then [atoms.netWmStateMaximizedHorz, atoms.netWmStateMaximizedVert] else [])
    + (if s.fullscreen then [atoms.netWmStateFullscreen] else [])
  }

  /** What a client that reads WM_STATE and _NET_WM_STATE (None when the property is
      deleted) learns of the window's state. */
  function ClientView(wmState: uint32, netWmState: Option<seq<Atom>>, atoms: AtomTable): WindowState {
    var list := if netWmState.Some? then netWmState.value else [];
    WindowState(
      wmState == WM_STATE_WITHDRAWN,
      atoms.netWmStateHidden in list,
      atoms.netWmStateMaximizedHorz in list && atoms.netWmStateMaximizedVert in list,
      atoms.netWmStateFullscreen in list)
  }

  /** The two properties written for a mapped window describe it exactly, and the ICCCM
      iconic state agrees with the EWMH hidden atom. */
  lemma MappedStateReadsBack(s: WindowState, atoms: AtomTable)
    requires atoms.Valid() && !s.withdrawn
    ensures ClientView(WmStateOf(s), Some(NetWmStateList(s, atoms)), atoms) == s
    ensures (WmStateOf(s) == WM_STATE_ICONIC) == (atoms.netWmStateHidden in NetWmStateList(s, atoms))
  {
  }

  /** A withdrawn window has its _NET_WM_STATE deleted: clients see it withdrawn with
      no other flag. */
  lemma WithdrawnStateReadsBack(s: WindowState, atoms: AtomTable)
    requires s.withdrawn
    ensures ClientView(WmStateOf(s), None, atoms) == WindowState(true, false, false, false)
  {
  }

  // _NET_WM_STATE client message

  /** The flag a property atom of a _NET_WM_STATE request points at; Nil is the
      throw-away target of an atom the bridge does not know. */
  datatype Target = Nil | MinimizedFlag | MaximizedFlag | FullscreenFlag

  function TargetOf(property: Atom, atoms: AtomTable): Target {
    if property == atoms.netWmStateHidden then MinimizedFlag
    else if property == atoms.netWmStateMaximizedHorz then MaximizedFlag
    else if property == atoms.netWmStateFullscreen then FullscreenFlag
    else Nil
  }

  function Get(s: WindowState, t: Target): bool
    requires t != Nil
  {
    match t
    case MinimizedFlag => s.minimized
    case MaximizedFlag => s.maximized
    case FullscreenFlag => s.fullscreen
  }

  function Set(s: WindowState, t: Target, b: bool): WindowState
    requires t != Nil
  {
    match t
    case MinimizedFlag => s.(minimized := b)
    case MaximizedFlag => s.(maximized := b)
    case FullscreenFlag => s.(fullscreen := b)
  }

  /** REMOVE clears a flag, ADD sets it, TOGGLE negates it; any other action is no case
      of the switch and leaves it. */
  function Act(action: uint32, flag: bool): (r: bool)
    ensures action > NET_WM_STATE_TOGGLE ==> r == flag
    ensures action == NET_WM_STATE_TOGGLE ==> r != flag
    ensures action < NET_WM_STATE_TOGGLE ==> r == (action == NET_WM_STATE_ADD)
  {
    if action == NET_WM_STATE_REMOVE then false
    else if action == NET_WM_STATE_ADD then true
    else if action == NET_WM_STATE_TOGGLE then !flag
    else flag
  }

  /** One property of a _NET_WM_STATE request: a zero or unknown atom changes nothing,
      a known one changes only the flag it names. */
  function ApplyAction(s: WindowState, action: uint32, property: Atom, atoms: AtomTable): (r: WindowState)
    ensures r.withdrawn == s.withdrawn
    ensures property == ATOM_NONE || TargetOf(property, atoms) == Nil ==> r == s
    ensures r.minimized != s.minimized ==> property == atoms.netWmStateHidden
    ensures r.maximized != s.maximized ==> property == atoms.netWmStateMaximizedHorz
    ensures r.fullscreen != s.fullscreen ==> property == atoms.netWmStateFullscreen
    ensures property != ATOM_NONE && TargetOf(property, atoms) != Nil ==>
      Get(r, TargetOf(property, atoms)) == Act(action, Get(s, TargetOf(property, atoms)))
  {
    if property == ATOM_NONE then s
    else
      var t := TargetOf(property, atoms);
      if t == Nil then s else Set(s, t, Act(action, Get(s, t)))
  }

  /** The state after the properties of a request are applied in order. */
  function ApplyAll(s: WindowState, action: uint32, properties: seq<Atom>, atoms: AtomTable): WindowState
    decreases |properties|
  {
    if properties == [] then s
    else ApplyAction(ApplyAll(s, action, properties[..|properties| - 1], atoms), action, properties[|properties| - 1], atoms)
  }

  /** The state a _NET_WM_STATE message asks for: data[0] is the action, data[1] and
      data[2] the properties (data[3], the source indication, is read and ignored). */
  method RequestedState(current: WindowState, data: seq<uint32>, atoms: AtomTable) returns (r: WindowState)
    requires |data| == 5
    ensures r == ApplyAll(current, data[0], data[1..3], atoms)
  {
    var action := data[0];
    var properties := data[1..3];
    r := current;
    for i := 0 to |properties|
      invariant r == ApplyAll(current, action, properties[..i], atoms)
    {
      var property := properties[i];
      if property != ATOM_NONE {
        // the flag the request targets; an unknown atom targets a throw-away value
        var nil := false;
        var target := TargetOf(property, atoms);
        var value := if target == Nil then nil else Get(r, target);
        if action == NET_WM_STATE_REMOVE {
          value := false;
        } else if action == NET_WM_STATE_ADD {
          value := true;
        } else if action == NET_WM_STATE_TOGGLE {
          value := !value;
        }
        if target == Nil {
          nil := value;
        } else {
          r := Set(r, target, value);
        }
      }
      assert properties[..i + 1][..i] == properties[..i];
    }
    assert properties[..|properties|] == properties;
  }

  /** A request never touches withdrawn. */
  lemma {:induction false} RequestKeepsWithdrawn(s: WindowState, action: uint32, properties: seq<Atom>, atoms: AtomTable)
    ensures ApplyAll(s, action, properties, atoms).withdrawn == s.withdrawn
    decreases |properties|
  {
    if properties != [] {
      RequestKeepsWithdrawn(s, action, properties[..|properties| - 1], atoms);
    }
  }

  /** An action outside REMOVE, ADD and TOGGLE changes nothing. */
  lemma {:induction false} UnknownActionIsNoOp(s: WindowState, action: uint32, properties: seq<Atom>, atoms: AtomTable)
    requires action > NET_WM_STATE_TOGGLE
    ensures ApplyAll(s, action, properties, atoms) == s
    decreases |properties|
  {
    if properties != [] {
      UnknownActionIsNoOp(s, action, properties[..|properties| - 1], atoms);
    }
  }

  /** One REMOVE or ADD property sets the flag its atom names to the action's value. */
  lemma RemoveAddSetsNamedFlag(s: WindowState, action: uint32, p: Atom, atoms: AtomTable)
    requires atoms.Valid() && action < NET_WM_STATE_TOGGLE
    ensures var r := ApplyAction(s, action, p, atoms);
      && r.minimized == (if p == atoms.netWmStateHidden then action == NET_WM_STATE_ADD else s.minimized)
      && r.maximized == (if p == atoms.netWmStateMaximizedHorz then action == NET_WM_STATE_ADD else s.maximized)
      && r.fullscreen == (if p == atoms.netWmStateFullscreen then action == NET_WM_STATE_ADD else s.fullscreen)
  {
  }

  /** REMOVE and ADD set each flag whose atom the request names (hidden, maximized
      horizontally, fullscreen) to the action's value, and keep the others. */
  lemma {:induction false} RemoveAddSetsNamedFlags(s: WindowState, action: uint32, properties: seq<Atom>, atoms: AtomTable)
    requires atoms.Valid() && action < NET_WM_STATE_TOGGLE
    ensures var r := ApplyAll(s, action, properties, atoms);
      && r.withdrawn == s.withdrawn
      && r.minimized == (if atoms.netWmStateHidden in properties then action == NET_WM_STATE_ADD else s.minimized)
      && r.maximized == (if atoms.netWmStateMaximizedHorz in properties then action == NET_WM_STATE_ADD else s.maximized)
      && r.fullscreen == (if atoms.netWmStateFullscreen in properties then action == NET_WM_STATE_ADD else s.fullscreen)
    decreases |properties|
  {
    if properties != [] {
      var init := properties[..|properties| - 1];
      var p := properties[|properties| - 1];
      RemoveAddSetsNamedFlags(s, action, init, atoms);
      RemoveAddSetsNamedFlag(ApplyAll(s, action, init, atoms), action, p, atoms);
      assert properties == init + [p];
    }
  }

  /** Two TOGGLE properties may be applied in either order. */
  lemma ToggleSwap(s: WindowState, p: Atom, q: Atom, atoms: AtomTable)
    ensures ApplyAction(ApplyAction(s, NET_WM_STATE_TOGGLE, p, atoms), NET_WM_STATE_TOGGLE, q, atoms)
         == ApplyAction(ApplyAction(s, NET_WM_STATE_TOGGLE, q, atoms), NET_WM_STATE_TOGGLE, p, atoms)
  {
    var tp := if p == ATOM_NONE then Nil else TargetOf(p, atoms);
    var tq := if q == ATOM_NONE then Nil else TargetOf(q, atoms);
    if tp != Nil && tq != Nil && tp != tq {
      assert ApplyAction(s, NET_WM_STATE_TOGGLE, p, atoms) == Set(s, tp, !Get(s, tp));
      assert ApplyAction(s, NET_WM_STATE_TOGGLE, q, atoms) == Set(s, tq, !Get(s, tq));
    }
  }

  /** Toggling the same property twice changes nothing. */
  lemma ToggleSelfInverse(s: WindowState, p: Atom, atoms: AtomTable)
    ensures ApplyAction(ApplyAction(s, NET_WM_STATE_TOGGLE, p, atoms), NET_WM_STATE_TOGGLE, p, atoms) == s
  {
  }

  /** Toggling one property commutes with any toggle request. */
  lemma {:induction false} ToggleCommutes(s: WindowState, p: Atom, properties: seq<Atom>, atoms: AtomTable)
    ensures ApplyAll(ApplyAction(s, NET_WM_STATE_TOGGLE, p, atoms), NET_WM_STATE_TOGGLE, properties, atoms)
         == ApplyAction(ApplyAll(s, NET_WM_STATE_TOGGLE, properties, atoms), NET_WM_STATE_TOGGLE, p, atoms)
    decreases |properties|
  {
    if properties != [] {
      var init := properties[..|properties| - 1];
      ToggleCommutes(s, p, init, atoms);
      ToggleSwap(ApplyAll(s, NET_WM_STATE_TOGGLE, init, atoms), p, properties[|properties| - 1], atoms);
    }
  }

  /** The same TOGGLE request sent twice restores the original state. */
  lemma {:induction false} ToggleTwiceIsIdentity(s: WindowState, properties: seq<Atom>, atoms: AtomTable)
    ensures ApplyAll(ApplyAll(s, NET_WM_STATE_TOGGLE, properties, atoms), NET_WM_STATE_TOGGLE, properties, atoms) == s
    decreases |properties|
  {
    if properties != [] {
      var init := properties[..|properties| - 1];
      var p := properties[|properties| - 1];
      var once := ApplyAll(s, NET_WM_STATE_TOGGLE, init, atoms);
      // toggling `p` commutes past the second run of `init`, meets the first `p`, and cancels it
      ToggleCommutes(once, p, init, atoms);
      ToggleSelfInverse(ApplyAll(once, NET_WM_STATE_TOGGLE, init, atoms), p, atoms);
      ToggleTwiceIsIdentity(s, init, atoms);
    }
  }

  // WM_CHANGE_STATE client message

  /** NORMAL clears minimized and ICONIC sets it; any other requested state is a
      protocol violation (None). */
  function ChangeStateRequest(current: WindowState, requested: uint32): (r: Option<WindowState>)
    ensures r.Some? <==> requested == WM_STATE_NORMAL || requested == WM_STATE_ICONIC
    ensures r.Some? ==> r.value.minimized == (requested == WM_STATE_ICONIC)
    ensures r.Some? ==> r.value.(minimized := current.minimized) == current
  {
    if requested == WM_STATE_NORMAL then Some(current.(minimized := false))
    else if requested == WM_STATE_ICONIC then Some(current.(minimized := true))
    else None
  }
}
