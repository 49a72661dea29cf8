/** The calls a bridge makes into its collaborators (the X11 connection, the window
    manager and the shell), recorded as effects, and the effect sequences its
    decisions produce. */
module Effects {
  import opened Xcb
  import opened Geometry
  import opened Optional
  import opened WindowStates
  import opened StateProtocol
  import opened Scene

  /** The value of an X11 property write: a CARDINAL, the WM_STATE pair (state and icon
      window), or an ATOM list. */
  datatype PropertyValue = Cardinal(n: uint32) | WmStateValue(state: uint32, iconWindow: Window) | AtomListValue(atoms: seq<Atom>)

  datatype StackMode = Above | Below

  /** The event mask a WM_PROTOCOLS client message is sent with. */
  datatype EventMask = NoEvent | SubstructureRedirect

  datatype Effect =
    | SelectPropertyAndFocusEvents
    | SetProperty(property: Atom, value: PropertyValue)
    | DeleteProperty(property: Atom)
    | MapWindow
    | UnmapWindow
    | ConfigureWindow(position: Option<Point>, size: Option<Size>, stackMode: Option<StackMode>)
    | SendProtocolMessage(protocol: Atom, time: uint32, mask: EventMask)
    | SetInputFocus
    | KillClient
    | Flush
    | SetFocus(hasFocus: bool)
    | CreateSurface(session: SessionId, params: CreationParams, observer: ObserverId)
    | ModifySurface(session: SessionId, surface: SurfaceId, spec: SurfaceSpec)
    | DestroySurface(session: SessionId, surface: SurfaceId)
    | RemoveObserver(surface: SurfaceId, observer: ObserverId)
    | RequestMove(session: SessionId, surface: SurfaceId, timestamp: int)
    | RequestResize(session: SessionId, surface: SurfaceId, timestamp: int, edge: ResizeEdge)
    | FatalError

  // Announcing window state to the client

  /** The writes that announce a new state: WM_STATE with no icon window, then
      _NET_WM_STATE (deleted for a withdrawn window), then a flush. */
  function InformEffects(s: WindowState, atoms: AtomTable): (r: seq<Effect>)
    requires atoms.Valid()
    ensures |r| == 3 && r[2] == Flush
    ensures r[0] == SetProperty(atoms.wmState, WmStateValue(WmStateOf(s), WINDOW_NONE))
    ensures r[1] == DeleteProperty(atoms.netWmState) <==> s.withdrawn
    ensures !s.withdrawn ==> r[1] == SetProperty(atoms.netWmState, AtomListValue(NetWmStateList(s, atoms)))
  {
    [SetProperty(atoms.wmState, WmStateValue(WmStateOf(s), WINDOW_NONE)),
     if s.withdrawn then DeleteProperty(atoms.netWmState)
     else SetProperty(atoms.netWmState, AtomListValue(NetWmStateList(s, atoms))),
     Flush]
  }

  /** Announcing is skipped when the state equals the one last announced. */
  function InformIfChanged(cachedState: WindowState, newState: WindowState, atoms: AtomTable): (r: seq<Effect>)
    requires atoms.Valid()
    ensures r == [] <==> newState == cachedState
    ensures r != [] ==> r == InformEffects(newState, atoms)
  {
    if newState == cachedState then [] else InformEffects(newState, atoms)
  }

  /** The window's properties as the X server holds them. */
  type PropertyStore = map<Atom, PropertyValue>

  /** The property store after a run of effects; effects other than property writes
      leave it as it is. */
  function ApplyToProperties(store: PropertyStore, effects: seq<Effect>): PropertyStore
    decreases |effects|
  {
    if effects == [] then store
    else
      var before := ApplyToProperties(store, effects[..|effects| - 1]);
      match effects[|effects| - 1]
      case SetProperty(p, v) => before[p := v]
      case DeleteProperty(p) => before - {p}
      case _ => before
  }

  /** The window state a client reads from the window's properties; a window without
      WM_STATE counts as withdrawn. */
  function ReadWindowState(store: PropertyStore, atoms: AtomTable): WindowState {
    var wmState :=
      if atoms.wmState in store && store[atoms.wmState].WmStateValue? then store[atoms.wmState].state
      else WM_STATE_WITHDRAWN;
    var netWmState :=
      if atoms.netWmState in store && store[atoms.netWmState].AtomListValue? then Some(store[atoms.netWmState].atoms)
      else None;
    ClientView(wmState, netWmState, atoms)
  }

  /** Whatever the window's properties were, after the announcement a client reads
      back the announced state; of a withdrawn window it reads only that it is withdrawn. */
  lemma InformedStateReadsBack(store: PropertyStore, s: WindowState, atoms: AtomTable)
    requires atoms.Valid()
    ensures ReadWindowState(ApplyToProperties(store, InformEffects(s, atoms)), atoms)
         == if s.withdrawn then WindowState(true, false, false, false) else s
  {
    var e := InformEffects(s, atoms);
    var first := store[atoms.wmState := WmStateValue(WmStateOf(s), WINDOW_NONE)];
    assert e[..1][..0] == [];
    assert ApplyToProperties(store, e[..1]) == first;
    var second := if s.withdrawn then first - {atoms.netWmState}
                  else first[atoms.netWmState := AtomListValue(NetWmStateList(s, atoms))];
    assert e[..2][..1] == e[..1];
    assert ApplyToProperties(store, e[..2]) == second;
    assert e[..3] == e;
    assert ApplyToProperties(store, e) == second;
    if s.withdrawn {
      WithdrawnStateReadsBack(s, atoms);
    } else {
      MappedStateReadsBack(s, atoms);
    }
  }

  // Compositor state requests

  /** A live surface is asked for a native state only when it is in another one. */
  function StateRequestEffects(surface: Option<SceneSurface>, n: NativeState): (r: seq<Effect>)
    ensures r != [] <==> surface.Some? && surface.value.state != n
    ensures r != [] ==> r == [ModifySurface(surface.value.session, surface.value.id, EmptySpec.(state := Some(n)))]
  {
    if surface.Some? && surface.value.state != n
    then [ModifySurface(surface.value.session, surface.value.id, EmptySpec.(state := Some(n)))]
    else []
  }

  // Focus and close requests

  /** Giving a window focus: nothing for an override-redirect window; otherwise
      WM_TAKE_FOCUS when the client supports it, then input focus, then a flush. */
  function TakeFocusEffects(overrideRedirect: bool, supported: set<Atom>, atoms: AtomTable): (r: seq<Effect>)
    ensures overrideRedirect <==> r == []
    ensures !overrideRedirect ==> |r| >= 2 && r[|r| - 2] == SetInputFocus && r[|r| - 1] == Flush
    ensures SendProtocolMessage(atoms.wmTakeFocus, CURRENT_TIME, SubstructureRedirect) in r
        <==> !overrideRedirect && atoms.wmTakeFocus in supported
    ensures !overrideRedirect ==> |r| == (if atoms.wmTakeFocus in supported then 3 else 2)
    ensures forall e :: e in r ==>
      e == SetInputFocus || e == Flush || e == SendProtocolMessage(atoms.wmTakeFocus, CURRENT_TIME, SubstructureRedirect)
  {
    if overrideRedirect then []
    else
      (if atoms.wmTakeFocus in supported
       then [SendProtocolMessage(atoms.wmTakeFocus, CURRENT_TIME, SubstructureRedirect)]
       else [])
      + [SetInputFocus, Flush]
  }

  /** Asking a window to close: WM_DELETE_WINDOW when the client supports it, otherwise
      killing the client; then a flush. */
  function CloseRequestEffects(supported: set<Atom>, atoms: AtomTable): (r: seq<Effect>)
    ensures |r| == 2 && r[1] == Flush
    ensures r[0] == KillClient <==> atoms.wmDeleteWindow !in supported
    ensures r[0] != KillClient ==> r[0] == SendProtocolMessage(atoms.wmDeleteWindow, CURRENT_TIME, NoEvent)
  {
    [if atoms.wmDeleteWindow in supported
     then SendProtocolMessage(atoms.wmDeleteWindow, CURRENT_TIME, NoEvent)
     else KillClient,
     Flush]
  }

  // Surface modifications

  /** After a property change: the pending specification, stripped of what the surface
      already has, is applied when there is a surface and something is left. */
  function NotifyEffects(spec: Option<SurfaceSpec>, surface: Option<SceneSurface>, live: LiveSurfaces): (r: seq<Effect>)
    ensures r != [] <==> spec.Some? && surface.Some? && !IsEmpty(DropUnchanged(spec.value, surface.value, live))
    ensures r != [] ==> r == [ModifySurface(surface.value.session, surface.value.id, DropUnchanged(spec.value, surface.value, live))]
  {
    if spec.Some? && surface.Some? then
      var mods := DropUnchanged(spec.value, surface.value, live);
      if IsEmpty(mods) then [] else [ModifySurface(surface.value.session, surface.value.id, mods)]
    else []
  }

  /** A configure request: without a scene surface the merged geometry is configured on
      the X11 window and flushed; with one, the surface is modified only if the request
      changes something. */
  function ConfigureRequestEffects(surface: Option<SceneSurface>, parent: Option<SceneSurface>,
                                   event: ConfigureRequest, cached: Rectangle): (r: seq<Effect>)
    ensures surface.None? ==>
      var m := MergeRequest(event, cached);
      r == [ConfigureWindow(Some(m.topLeft), Some(m.size), None), Flush]
    ensures surface.Some? ==> |r| <= 1
    ensures surface.Some? && r != [] ==>
      r[0] == ModifySurface(surface.value.session, surface.value.id, ConfigureMods(surface.value, parent, event))
    ensures forall e :: e in r && e.ModifySurface? ==> !IsEmpty(e.spec)
    ensures surface.Some? && r == [] <==> surface.Some? && MergeRequest(event, ContentRect(surface.value)) == ContentRect(surface.value)
  {
    if surface.None? then
      var m := MergeRequest(event, cached);
      [ConfigureWindow(Some(m.topLeft), Some(m.size), None), Flush]
    else
      var mods := ConfigureMods(surface.value, parent, event);
      if IsEmpty(mods) then [] else [ModifySurface(surface.value.session, surface.value.id, mods)]
  }

  /** A _NET_WM_MOVERESIZE request: MOVE starts an interactive move, a sizing direction
      an interactive resize from its edge, each only with a live surface; other
      directions do nothing. */
  function MoveResizeEffects(surface: Option<SceneSurface>, timestamp: int, direction: uint32): (r: seq<Effect>)
    ensures |r| <= 1
    ensures r != [] ==> surface.Some?
    ensures r != [] <==> surface.Some? && (direction == Scene.MOVERESIZE_MOVE || ResizeEdgeOf(direction).Some?)
    ensures (direction == Scene.MOVERESIZE_SIZE_KEYBOARD || direction == Scene.MOVERESIZE_MOVE_KEYBOARD
             || direction == Scene.MOVERESIZE_CANCEL) ==> r == []
    ensures direction == Scene.MOVERESIZE_MOVE && surface.Some? ==>
      r == [RequestMove(surface.value.session, surface.value.id, timestamp)]
    ensures direction != Scene.MOVERESIZE_MOVE && ResizeEdgeOf(direction).Some? && surface.Some? ==>
      r == [RequestResize(surface.value.session, surface.value.id, timestamp, ResizeEdgeOf(direction).value)]
  {
    if surface.None? then []
    else if direction == Scene.MOVERESIZE_MOVE then [RequestMove(surface.value.session, surface.value.id, timestamp)]
    else if ResizeEdgeOf(direction).Some? then
      [RequestResize(surface.value.session, surface.value.id, timestamp, ResizeEdgeOf(direction).value)]
    else []
  }

  // Teardown

  /** What closing does to the compositor side once the window is unmapped: the
      observer is detached from the surface if both exist, the surface is destroyed if
      it exists, and an observer that outlives the bridge's reference is fatal. */
  function TeardownEffects(surface: Option<SceneSurface>, observer: Option<ObserverId>, observerSurvives: bool): (r: seq<Effect>)
    ensures forall e :: e in r && e.RemoveObserver? ==> surface.Some? && observer.Some?
    ensures forall e :: e in r && e.DestroySurface? ==> surface.Some?
    ensures FatalError in r <==> observer.Some? && observerSurvives
    ensures |r| == (if surface.Some? && observer.Some? then 1 else 0) + (if surface.Some? then 1 else 0)
                 + (if observer.Some? && observerSurvives then 1 else 0)
    ensures surface.Some? && observer.Some? ==> r[0] == RemoveObserver(surface.value.id, observer.value)
    ensures surface.Some? ==>
      r[if observer.Some? then 1 else 0] == DestroySurface(surface.value.session, surface.value.id)
  {
    (if surface.Some? && observer.Some? then [RemoveObserver(surface.value.id, observer.value)] else [])
    + (if surface.Some? then [DestroySurface(surface.value.session, surface.value.id)] else [])
    + (if observer.Some? && observerSurvives then [FatalError] else [])
  }
}
