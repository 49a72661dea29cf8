/** The bridge between one X11 window and its compositor scene surface. It caches what
    it knows of the window, turns X11 requests into compositor requests and compositor
    changes into X11 property writes, and records every call it makes into the X11
    connection, the window manager and the shell in its effect log. */
module Bridge {
  import opened Xcb
  import opened Geometry
  import opened Optional
  import opened WindowStates
  import opened StateProtocol
  import opened Scene
  import opened Handlers
  import opened Effects

  /** The fields of a CreateNotify or ConfigureNotify event the bridge reads. */
  datatype NotifyEvent = NotifyEvent(window: Window, x: int, y: int, width: int, height: int, overrideRedirect: bool)

  /** What the bridge remembers of its window between events. */
  datatype Cached = Cached(
    overrideRedirect: bool,
    topLeft: Point,
    size: Size,
    supportedWmProtocols: set<Atom>,
    state: WindowState)

  /** The window manager's bridge table with `w`'s entry holding `ref`. */
  function WithBridge(wm: WindowManager, w: Window, ref: Option<SurfaceId>): WindowManager {
    wm.(bridges := wm.bridges[w := ref])
  }

  /** The parameters a new scene surface is created with: the cached geometry, the
      cached state as if mapped, server-side decorations unless override-redirect, and
      then whatever the property handlers left in the pending specification. */
  function AttachParams(c: Cached, pending: Option<SurfaceSpec>): CreationParams {
    var base := BaseParams(c.topLeft, c.size, ToNative(c.state.(withdrawn := false)), !c.overrideRedirect);
    if pending.Some? then UpdateFrom(base, pending.value) else base
  }

  /** Whatever the window's properties say, a new scene surface is created where and as
      large as the X11 window is, in its mapped state, decorated unless
      override-redirect. */
  lemma AttachUsesCachedGeometry(c: Cached, replies: map<Atom, Reply>, wm: WindowManager,
                                 live: LiveSurfaces, atoms: AtomTable)
    requires atoms.Valid()
    ensures var agg := HandleAll(HandlerOrder(atoms), replies, Aggregate(c.supportedWmProtocols, None),
                                 c.topLeft, wm, live, atoms);
      var p := AttachParams(c, agg.pending);
      && p.topLeft == c.topLeft && p.size == c.size
      && p.state == ToNative(c.state.(withdrawn := false))
      && p.serverSideDecorated == !c.overrideRedirect
  {
    HandleAllKeepsGeometry(HandlerOrder(atoms), replies, Aggregate(c.supportedWmProtocols, None),
                           c.topLeft, wm, live, atoms);
  }

  /** The first scene surface already carries what the window's properties said at
      attach time: the parent WM_TRANSIENT_FOR resolves to (none when it is missing) and
      the WM_CLASS application id when the property is there. */
  lemma AttachCarriesClassAndParent(c: Cached, replies: map<Atom, Reply>, wm: WindowManager,
                                    live: LiveSurfaces, atoms: AtomTable)
    requires atoms.Valid()
    ensures var agg := HandleAll(HandlerOrder(atoms), replies, Aggregate(c.supportedWmProtocols, None),
                                 c.topLeft, wm, live, atoms);
      var p := AttachParams(c, agg.pending);
      var reply := ReplyFor(replies, ATOM_WM_TRANSIENT_FOR);
      && p.parent == Some(IdOf(ResolveTransientFor(if reply.WindowRef? then reply.window else WINDOW_NONE, wm, live)))
      && (ReplyFor(replies, ATOM_WM_CLASS).Text? ==> p.applicationId == Some(ReplyFor(replies, ATOM_WM_CLASS).text))
  {
    var order := HandlerOrder(atoms);
    var init := Aggregate(c.supportedWmProtocols, None);
    assert ATOM_WM_TRANSIENT_FOR in order && ATOM_WM_CLASS in order;
    HandleAllRecordsParent(order, replies, init, c.topLeft, wm, live, atoms);
    if ReplyFor(replies, ATOM_WM_CLASS).Text? {
      HandleAllRecordsClass(order, replies, init, c.topLeft, wm, live, atoms, ReplyFor(replies, ATOM_WM_CLASS).text);
    }
  }

  /** A canonical state the compositor reports is not echoed back: once folded into the
      flags, asking the surface for the flags' native state asks for nothing. */
  lemma ReportedStateIsNotEchoed(s: WindowState, surface: SceneSurface)
    requires surface.state != StatesCount && surface.state == Canonical(surface.state)
    ensures StateRequestEffects(Some(surface), ToNative(UpdatedFrom(s, surface.state))) == []
  {
    UpdatedFromAgrees(s, surface.state);
  }

  /** An alias the compositor reports (hidden, the one-axis maximized states, unknown,
      attached) is not kept: reporting it sends nothing back, but the next state request
      (at the next map, _NET_WM_STATE or WM_CHANGE_STATE message) asks the surface for
      the canonical state instead. */
  lemma ReportedAliasIsReRequested(s: WindowState, surface: SceneSurface)
    requires surface.state != StatesCount && surface.state != Canonical(surface.state)
    ensures StateRequestEffects(Some(surface), ToNative(UpdatedFrom(s, surface.state)))
         == [ModifySurface(surface.session, surface.id, EmptySpec.(state := Some(Canonical(surface.state))))]
  {
    UpdatedFromAgrees(s, surface.state);
  }

  /** Issues the read of every listed property: each read yields the handler to run and
      the reply it will be run with. */
  method IssueReads(order: seq<Atom>, replies: map<Atom, Reply>, atoms: AtomTable)
    returns (replyFunctions: seq<(HandlerKind, Reply)>)
    requires atoms.Valid()
    requires forall a :: a in order ==> HandlerFor(a, atoms).Some?
    ensures |replyFunctions| == |order|
    ensures forall j :: 0 <= j < |order| ==>
      replyFunctions[j] == (HandlerFor(order[j], atoms).value, ReplyFor(replies, order[j]))
  {
    replyFunctions := [];
    for i := 0 to |order|
      invariant |replyFunctions| == i
      invariant forall j :: 0 <= j < i ==>
        replyFunctions[j] == (HandlerFor(order[j], atoms).value, ReplyFor(replies, order[j]))
    {
      replyFunctions := replyFunctions + [(HandlerFor(order[i], atoms).value, ReplyFor(replies, order[i]))];
    }
  }

  class XWaylandSurface {
    const window: Window
    const atoms: AtomTable
    var cached: Cached
    /** The specification property handlers build up until it is consumed. */
    var pendingSpec: Option<SurfaceSpec>
    /** Weak references: ids that `live` may or may not still hold. */
    var sceneSurface: Option<SurfaceId>
    var session: Option<SessionId>
    var observer: Option<ObserverId>
    /** Every call made so far into the X11 connection, the window manager and the shell. */
    var effects: seq<Effect>

    /** Between operations no specification is pending: every operation that builds one
        consumes it before returning. */
    ghost predicate Valid()
      reads this
    {
      atoms.Valid() && pendingSpec.None?
    }

    /** The window manager's table as the handlers see it, with this window's entry
        holding this bridge's current scene-surface reference. */
    function WindowManagerView(wm: WindowManager): WindowManager
      reads this
    {
      WithBridge(wm, window, sceneSurface)
    }

    /** A bridge is made for a newly created window: it caches the window's geometry,
        starts withdrawn with no surface, and asks for property and focus events. */
    constructor (atoms: AtomTable, event: NotifyEvent)
      requires atoms.Valid()
      ensures Valid()
      ensures window == event.window && this.atoms == atoms
      ensures cached == Cached(event.overrideRedirect, Point(event.x, event.y), Size(event.width, event.height),
                               {}, InitialState)
      ensures sceneSurface.None? && session.None? && observer.None?
      ensures effects == [SelectPropertyAndFocusEvents]
    {
      window := event.window;
      this.atoms := atoms;
      cached := Cached(event.overrideRedirect, Point(event.x, event.y), Size(event.width, event.height),
                       {}, InitialState);
      pendingSpec := None;
      sceneSurface := None;
      session := None;
      observer := None;
      effects := [SelectPropertyAndFocusEvents];
    }

    // Announcing state to the client and requesting it of the compositor

    /** Records the new state and, if it differs from the cached one, writes WM_STATE
        and _NET_WM_STATE for it. */
    method InformClientOfWindowState(newState: WindowState)
      requires atoms.Valid()
      modifies this`cached, this`effects
      ensures cached == old(cached).(state := newState)
      ensures effects == old(effects) + InformIfChanged(old(cached.state), newState, atoms)
    {
      if newState == cached.state {
        return;
      }
      ghost var before := effects;
      cached := cached.(state := newState);

      var wmState;
      if newState.withdrawn {
        wmState := WM_STATE_WITHDRAWN;
      } else if newState.minimized {
        wmState := WM_STATE_ICONIC;
      } else {
        wmState := WM_STATE_NORMAL;
      }
      effects := effects + [SetProperty(atoms.wmState, WmStateValue(wmState, WINDOW_NONE))];

      if newState.withdrawn {
        effects := effects + [DeleteProperty(atoms.netWmState)];
      } else {
        var netWmStates := NetWmStates(newState);
        effects := effects + [SetProperty(atoms.netWmState, AtomListValue(netWmStates))];
      }
      effects := effects + [Flush];
      assert effects == before + InformEffects(newState, atoms);
    }

    /** The _NET_WM_STATE atoms of a mapped window, pushed one flag at a time. */
    method NetWmStates(newState: WindowState) returns (netWmStates: seq<Atom>)
      requires atoms.Valid()
      ensures netWmStates == NetWmStateList(newState, atoms)
    {
      netWmStates := [];
      if newState.minimized {
        netWmStates := netWmStates + [atoms.netWmStateHidden];
      }
      if newState.maximized {
        netWmStates := netWmStates + [atoms.netWmStateMaximizedHorz, atoms.netWmStateMaximizedVert];
      }
      if newState.fullscreen {
        netWmStates := netWmStates + [atoms.netWmStateFullscreen];
      }
    }

    /** Asks a live scene surface for a native state it is not already in. */
    method RequestSceneSurfaceState(n: NativeState, live: LiveSurfaces)
      modifies this`effects
      ensures effects == old(effects) + StateRequestEffects(Lock(sceneSurface, live), n)
    {
      var surface := Lock(sceneSurface, live);
      if surface.Some? && surface.value.state != n {
        effects := effects + [ModifySurface(surface.value.session, surface.value.id, EmptySpec.(state := Some(n)))];
      }
    }

    // Mapping and closing

    /** The window manager maps the window: it is put on the workspace, announced as no
        longer withdrawn, its surface is asked for the matching state, and it is mapped. */
    method Map(live: LiveSurfaces)
      requires Valid()
      modifies this`cached, this`effects
      ensures Valid()
      ensures var s := old(cached.state).(withdrawn := false);
        && cached == old(cached).(state := s)
        && effects == old(effects) + [SetProperty(atoms.netWmDesktop, Cardinal(WORKSPACE))]
                      + InformIfChanged(old(cached.state), s, atoms)
                      + StateRequestEffects(Lock(sceneSurface, live), ToNative(s))
                      + [MapWindow, Flush]
    {
      var state := cached.state;
      effects := effects + [SetProperty(atoms.netWmDesktop, Cardinal(WORKSPACE))];
      state := state.(withdrawn := false);
      InformClientOfWindowState(state);
      RequestSceneSurfaceState(ToNative(state), live);
      effects := effects + [MapWindow, Flush];
    }

    /** The window is unmapped or destroyed: the bridge drops its references, takes the
        window off the workspace, announces it withdrawn and unmaps it, then detaches the
        observer and destroys the surface. `observerSurvives` says whether anything else
        still holds the observer once the bridge has let go of it; that is fatal. */
    method Close(live: LiveSurfaces, observerSurvives: bool) returns (fatal: bool)
      requires Valid()
      modifies this`cached, this`effects, this`sceneSurface, this`session, this`observer
      ensures Valid()
      ensures sceneSurface.None? && session.None? && observer.None?
      ensures cached == old(cached).(state := old(cached.state).(withdrawn := true))
      ensures fatal <==> old(observer).Some? && observerSurvives
      ensures effects == old(effects) + [DeleteProperty(atoms.netWmDesktop)]
                         + InformIfChanged(old(cached.state), old(cached.state).(withdrawn := true), atoms)
                         + [UnmapWindow, Flush]
                         + TeardownEffects(Lock(old(sceneSurface), live), old(observer), observerSurvives)
    {
      var state := cached.state;
      var surface := Lock(sceneSurface, live);
      sceneSurface := None;
      session := None;
      var formerObserver := observer;
      observer := None;

      effects := effects + [DeleteProperty(atoms.netWmDesktop)];
      state := state.(withdrawn := true);
      InformClientOfWindowState(state);
      effects := effects + [UnmapWindow, Flush];
      fatal := TearDown(surface, formerObserver, observerSurvives);
    }

    /** The compositor side of closing: detach the observer, destroy the surface, and
        fail if the observer outlives the bridge's reference to it. */
    method TearDown(surface: Option<SceneSurface>, formerObserver: Option<ObserverId>, observerSurvives: bool)
      returns (fatal: bool)
      modifies this`effects
      ensures fatal <==> formerObserver.Some? && observerSurvives
      ensures effects == old(effects) + TeardownEffects(surface, formerObserver, observerSurvives)
    {
      if surface.Some? && formerObserver.Some? {
        effects := effects + [RemoveObserver(surface.value.id, formerObserver.value)];
      }
      if surface.Some? {
        effects := effects + [DestroySurface(surface.value.session, surface.value.id)];
      }
      fatal := false;
      if formerObserver.Some? && observerSurvives {
        effects := effects + [FatalError];
        fatal := true;
      }
    }

    // Requests from the window manager and the client

    /** Gives the window input focus, offering WM_TAKE_FOCUS first when the client
        supports it; an override-redirect window is left alone. */
    method TakeFocus()
      modifies this`effects
      ensures effects == old(effects) + TakeFocusEffects(cached.overrideRedirect, cached.supportedWmProtocols, atoms)
    {
      if cached.overrideRedirect {
        return;
      }
      var supportsTakeFocus := atoms.wmTakeFocus in cached.supportedWmProtocols;
      if supportsTakeFocus {
        effects := effects + [SendProtocolMessage(atoms.wmTakeFocus, CURRENT_TIME, SubstructureRedirect)];
      }
      effects := effects + [SetInputFocus, Flush];
    }

    /** A client asks for a new position or size: a live scene surface is modified if
        the request changes its content rectangle; without one, the X11 window is
        configured directly from the cached geometry. */
    method ConfigureRequest(event: Scene.ConfigureRequest, live: LiveSurfaces)
      modifies this`effects
      ensures var surface := Lock(sceneSurface, live);
        var parent := if surface.Some? then Lock(surface.value.parent, live) else None;
        effects == old(effects) + ConfigureRequestEffects(surface, parent, event, Rectangle(cached.topLeft, cached.size))
    {
      var surface := Lock(sceneSurface, live);
      if surface.Some? {
        var s := surface.value;
        var contentOffset := s.contentOffset;
        var oldPosition := Plus(s.topLeft, contentOffset);
        var newPosition := Point(
          Pick(event.valueMask, CONFIG_WINDOW_X, event.x, oldPosition.x),
          Pick(event.valueMask, CONFIG_WINDOW_Y, event.y, oldPosition.y));
        var oldSize := s.contentSize;
        var newSize := Size(
          Pick(event.valueMask, CONFIG_WINDOW_WIDTH, event.width, oldSize.width),
          Pick(event.valueMask, CONFIG_WINDOW_HEIGHT, event.height, oldSize.height));

        var mods := EmptySpec;
        if oldPosition != newPosition {
          mods := SetPosition(Lock(s.parent, live), Minus(newPosition, contentOffset), mods);
        }
        if oldSize != newSize {
          // the shell honours a size only when both width and height are given
          mods := mods.(width := Some(newSize.width), height := Some(newSize.height));
        }
        assert mods == ConfigureMods(s, Lock(s.parent, live), event);
        if !IsEmpty(mods) {
          effects := effects + [ModifySurface(s.session, s.id, mods)];
        }
      } else {
        var topLeft := Point(
          Pick(event.valueMask, CONFIG_WINDOW_X, event.x, cached.topLeft.x),
          Pick(event.valueMask, CONFIG_WINDOW_Y, event.y, cached.topLeft.y));
        var size := Size(
          Pick(event.valueMask, CONFIG_WINDOW_WIDTH, event.width, cached.size.width),
          Pick(event.valueMask, CONFIG_WINDOW_HEIGHT, event.height, cached.size.height));
        effects := effects + [ConfigureWindow(Some(topLeft), Some(size), None), Flush];
      }
    }

    /** The X server reports the window's new geometry; the bridge caches it. */
    method ConfigureNotify(event: NotifyEvent)
      modifies this`cached
      ensures cached == old(cached).(overrideRedirect := event.overrideRedirect,
                                     topLeft := Point(event.x, event.y),
                                     size := Size(event.width, event.height))
    {
      cached := cached.(overrideRedirect := event.overrideRedirect,
                        topLeft := Point(event.x, event.y),
                        size := Size(event.width, event.height));
    }

    /** A _NET_WM_STATE client message: the requested state is announced to the client
        and asked of the scene surface. */
    method NetWmStateClientMessage(data: seq<uint32>, live: LiveSurfaces)
      requires Valid() && |data| == 5
      modifies this`cached, this`effects
      ensures Valid()
      ensures var s := ApplyAll(old(cached.state), data[0], data[1..3], atoms);
        && cached == old(cached).(state := s)
        && effects == old(effects) + InformIfChanged(old(cached.state), s, atoms)
                      + StateRequestEffects(Lock(sceneSurface, live), ToNative(s))
    {
      var newWindowState := RequestedState(cached.state, data, atoms);
      InformClientOfWindowState(newWindowState);
      RequestSceneSurfaceState(ToNative(newWindowState), live);
    }

    /** A WM_CHANGE_STATE client message: NORMAL or ICONIC is announced and asked of the
        scene surface; any other state is refused (`ok` false) and changes nothing. */
    method WmChangeStateClientMessage(data: seq<uint32>, live: LiveSurfaces) returns (ok: bool)
      requires Valid() && |data| == 5
      modifies this`cached, this`effects
      ensures Valid()
      ensures ok <==> data[0] == WM_STATE_NORMAL || data[0] == WM_STATE_ICONIC
      ensures !ok ==> cached == old(cached) && effects == old(effects)
      ensures ok ==>
        var s := ChangeStateRequest(old(cached.state), data[0]).value;
        && cached == old(cached).(state := s)
        && effects == old(effects) + InformIfChanged(old(cached.state), s, atoms)
                      + StateRequestEffects(Lock(sceneSurface, live), ToNative(s))
    {
      var requestedState := data[0];
      var newWindowState := cached.state;
      if requestedState == WM_STATE_NORMAL {
        newWindowState := newWindowState.(minimized := false);
      } else if requestedState == WM_STATE_ICONIC {
        newWindowState := newWindowState.(minimized := true);
      } else {
        return false;
      }
      InformClientOfWindowState(newWindowState);
      RequestSceneSurfaceState(ToNative(newWindowState), live);
      ok := true;
    }

    // The pending specification and the property handlers

    /** The pending specification, created empty if there is none. */
    method PendingSpec() returns (spec: SurfaceSpec)
      modifies this`pendingSpec
      ensures spec == PendingOrEmpty(old(pendingSpec))
      ensures pendingSpec == Some(spec)
    {
      if pendingSpec.None? {
        pendingSpec := Some(EmptySpec);
      }
      spec := pendingSpec.value;
    }

    /** Takes the pending specification, leaving none. */
    method ConsumePendingSpec() returns (spec: Option<SurfaceSpec>)
      modifies this`pendingSpec
      ensures spec == old(pendingSpec)
      ensures pendingSpec.None?
    {
      spec := pendingSpec;
      pendingSpec := None;
    }

    /** The window is transient for `transientFor`: the parent it resolves to is recorded
        in the pending specification and the cached top-left placed relative to it. */
    method IsTransientFor(transientFor: Window, wm: WindowManager, live: LiveSurfaces)
      modifies this`pendingSpec
      ensures pendingSpec == Some(TransientSpec(old(pendingSpec), ResolveTransientFor(transientFor, WindowManagerView(wm), live),
                                                cached.topLeft))
    {
      var view := WindowManagerView(wm);
      var parentSceneSurface: Option<SceneSurface> := None;
      if transientFor != WINDOW_NONE {
        parentSceneSurface := SceneSurfaceOf(view, live, transientFor);
        if parentSceneSurface.None? && view.focused.Some? {
          parentSceneSurface := SceneSurfaceOf(view, live, view.focused.value);
        }
      }
      var spec := PendingSpec();
      spec := spec.(parent := Some(IdOf(parentSceneSurface)));
      pendingSpec := Some(SetPosition(parentSceneSurface, cached.topLeft, spec));
    }

    /** Runs one property handler with the reply to its read. */
    method RunHandler(kind: HandlerKind, reply: Reply, wm: WindowManager, live: LiveSurfaces)
      modifies this`cached, this`pendingSpec
      ensures Aggregate(cached.supportedWmProtocols, pendingSpec)
           == HandleReply(kind, reply, Aggregate(old(cached.supportedWmProtocols), old(pendingSpec)),
                          cached.topLeft, WindowManagerView(wm), live)
      ensures cached == old(cached).(supportedWmProtocols := cached.supportedWmProtocols)
    {
      match kind
      case ClassHandler =>
        if reply.Text? {
          var spec := PendingSpec();
          pendingSpec := Some(spec.(applicationId := Some(reply.text)));
        }
      case NameHandler =>
        if reply.Text? {
          var spec := PendingSpec();
          pendingSpec := Some(spec.(name := Some(reply.text)));
        }
      case TransientForHandler =>
        if reply.WindowRef? {
          IsTransientFor(reply.window, wm, live);
        } else {
          IsTransientFor(WINDOW_NONE, wm, live);
        }
      case ProtocolsHandler =>
        if reply.AtomList? {
          cached := cached.(supportedWmProtocols := set a | a in reply.atoms);
        } else {
          cached := cached.(supportedWmProtocols := {});
        }
    }

    /** A property of the window changed: its handler, if it has one, runs with the
        reply to a fresh read, and whatever the handler specified that the scene surface
        does not already have is applied to it. */
    method PropertyNotify(property: Atom, reply: Reply, wm: WindowManager, live: LiveSurfaces)
      requires Valid()
      modifies this`cached, this`pendingSpec, this`effects
      ensures Valid()
      ensures HandlerFor(property, atoms).None? ==> cached == old(cached) && effects == old(effects)
      ensures HandlerFor(property, atoms).Some? ==>
        var agg := HandleReply(HandlerFor(property, atoms).value, reply, Aggregate(old(cached.supportedWmProtocols), None),
                               old(cached.topLeft), WindowManagerView(wm), live);
        && cached == old(cached).(supportedWmProtocols := agg.supportedWmProtocols)
        && effects == old(effects) + NotifyEffects(agg.pending, Lock(sceneSurface, live), live)
    {
      var handler := HandlerFor(property, atoms);
      if handler.Some? {
        RunHandler(handler.value, reply, wm, live);
        var surface := Lock(sceneSurface, live);
        var spec := ConsumePendingSpec();
        if spec.Some? && surface.Some? {
          var mods := DropUnchanged(spec.value, surface.value, live);
          if !IsEmpty(mods) {
            effects := effects + [ModifySurface(surface.value.session, surface.value.id, mods)];
          }
        }
      }
    }

    /** Reads every handled property, in the order of the handler table, and runs each
        handler with its reply once all reads are issued. */
    method ReadAllProperties(replies: map<Atom, Reply>, wm: WindowManager, live: LiveSurfaces)
      requires atoms.Valid()
      modifies this`cached, this`pendingSpec
      ensures Aggregate(cached.supportedWmProtocols, pendingSpec)
           == HandleAll(HandlerOrder(atoms), replies, Aggregate(old(cached.supportedWmProtocols), old(pendingSpec)),
                        cached.topLeft, WindowManagerView(wm), live, atoms)
      ensures cached == old(cached).(supportedWmProtocols := cached.supportedWmProtocols)
    {
      var order := HandlerOrder(atoms);
      var replyFunctions := IssueReads(order, replies, atoms);

      // Wait for and process every reply
      ghost var start := cached;
      for i := 0 to |replyFunctions|
        invariant cached == start.(supportedWmProtocols := cached.supportedWmProtocols)
        invariant Aggregate(cached.supportedWmProtocols, pendingSpec)
               == HandleAll(order[..i], replies, Aggregate(start.supportedWmProtocols, old(pendingSpec)), start.topLeft,
                            WindowManagerView(wm), live, atoms)
      {
        HandleAllStep(order, i, replies, Aggregate(start.supportedWmProtocols, old(pendingSpec)), start.topLeft,
                      WindowManagerView(wm), live, atoms);
        RunHandler(replyFunctions[i].0, replyFunctions[i].1, wm, live);
      }
      assert order[..|replyFunctions|] == order;
    }

    /** The client's Wayland surface arrives: the bridge reads every handled property,
        creates the scene surface from the cached geometry and the handlers' pending
        specification, announces the mapped state, moves the X11 window to the surface's
        content area on top, and publishes the surface. `created` is what the shell
        makes. A second attachment is refused (`ok` false) and changes nothing. */
    method AttachWlSurface(newObserver: ObserverId, newSession: SessionId, replies: map<Atom, Reply>,
                           wm: WindowManager, live: LiveSurfaces, created: SceneSurface) returns (ok: bool)
      requires Valid()
      modifies this`cached, this`pendingSpec, this`effects, this`sceneSurface, this`session, this`observer
      ensures Valid()
      ensures ok <==> old(observer).None? && old(session).None? && Lock(old(sceneSurface), live).None?
      ensures !ok ==>
        && cached == old(cached) && effects == old(effects)
        && sceneSurface == old(sceneSurface) && session == old(session) && observer == old(observer)
      ensures ok ==>
        var state := old(cached.state).(withdrawn := false);
        var agg := HandleAll(HandlerOrder(atoms), replies, Aggregate(old(cached.supportedWmProtocols), None),
                             old(cached.topLeft), WithBridge(wm, window, old(sceneSurface)), live, atoms);
        && observer == Some(newObserver) && session == Some(newSession) && sceneSurface == Some(created.id)
        && cached == old(cached).(supportedWmProtocols := agg.supportedWmProtocols, state := state)
        && effects == old(effects) + [CreateSurface(newSession, AttachParams(old(cached), agg.pending), newObserver)]
                      + InformIfChanged(old(cached.state), state, atoms)
                      + [ConfigureWindow(Some(Plus(created.topLeft, created.contentOffset)),
                                         Some(created.contentSize), Some(Above))]
    {
      if observer.Some? || session.Some? || Lock(sceneSurface, live).Some? {
        return false;
      }
      observer := Some(newObserver);
      session := Some(newSession);
      var state := cached.state.(withdrawn := false);
      var params := BaseParams(cached.topLeft, cached.size, ToNative(state), !cached.overrideRedirect);

      ghost var before := cached;
      ReadAllProperties(replies, wm, live);
      ghost var agg := HandleAll(HandlerOrder(atoms), replies, Aggregate(before.supportedWmProtocols, None),
                                 before.topLeft, WithBridge(wm, window, sceneSurface), live, atoms);
      assert pendingSpec == agg.pending && cached == before.(supportedWmProtocols := agg.supportedWmProtocols);
      var spec := ConsumePendingSpec();
      if spec.Some? {
        params := UpdateFrom(params, spec.value);
      }
      assert params == AttachParams(before, agg.pending);
      CreateSceneSurface(newObserver, newSession, params, state, created);
      ok := true;
    }

    /** Creates the scene surface, announces the window's state, puts the X11 window over
        the surface's content area on top, and only then publishes the surface. */
    method CreateSceneSurface(newObserver: ObserverId, newSession: SessionId, params: CreationParams,
                              state: WindowState, created: SceneSurface)
      requires atoms.Valid()
      modifies this`cached, this`effects, this`sceneSurface
      ensures sceneSurface == Some(created.id)
      ensures cached == old(cached).(state := state)
      ensures effects == old(effects) + [CreateSurface(newSession, params, newObserver)]
                         + InformIfChanged(old(cached.state), state, atoms)
                         + [ConfigureWindow(Some(Plus(created.topLeft, created.contentOffset)),
                                            Some(created.contentSize), Some(Above))]
    {
      effects := effects + [CreateSurface(newSession, params, newObserver)];
      InformClientOfWindowState(state);
      effects := effects + [ConfigureWindow(Some(Plus(created.topLeft, created.contentOffset)),
                                            Some(created.contentSize), Some(Above))];
      sceneSurface := Some(created.id);
    }

    /** The observer's latest input timestamp, or zero without an observer. */
    method LatestInputTimestamp(observerTimestamp: int) returns (t: int)
      ensures observer.Some? ==> t == observerTimestamp
      ensures observer.None? ==> t == 0
    {
      if observer.Some? {
        t := observerTimestamp;
      } else {
        t := 0;
      }
    }

    /** A _NET_WM_MOVERESIZE request starts an interactive move or resize of a live
        scene surface, stamped with the latest input timestamp. */
    method MoveResize(detail: uint32, live: LiveSurfaces, observerTimestamp: int)
      modifies this`effects
      ensures effects == old(effects) + MoveResizeEffects(Lock(sceneSurface, live),
                                                          if observer.Some? then observerTimestamp else 0, detail)
    {
      var surface := Lock(sceneSurface, live);
      var timestamp := LatestInputTimestamp(observerTimestamp);
      if detail == Scene.MOVERESIZE_MOVE {
        if surface.Some? {
          effects := effects + [RequestMove(surface.value.session, surface.value.id, timestamp)];
        }
      } else {
        var edge := ResizeEdgeOf(detail);
        if edge.Some? && surface.Some? {
          effects := effects + [RequestResize(surface.value.session, surface.value.id, timestamp, edge.value)];
        }
      }
    }

    // Changes reported by the scene surface

    /** The surface gained or lost focus: the window manager is told, and the window is
        raised either way. */
    method SceneSurfaceFocusSet(hasFocus: bool)
      modifies this`effects
      ensures effects == old(effects) + [SetFocus(hasFocus), ConfigureWindow(None, None, Some(Above))]
    {
      effects := effects + [SetFocus(hasFocus)];
      effects := effects + [ConfigureWindow(None, None, Some(Above))];
    }

    /** The surface's state changed: the cached state follows it and is announced, and a
        minimized window is lowered. */
    method SceneSurfaceStateSet(n: NativeState)
      requires Valid()
      modifies this`cached, this`effects
      ensures Valid()
      ensures cached == old(cached).(state := UpdatedFrom(old(cached.state), n))
      ensures effects == old(effects) + InformIfChanged(old(cached.state), UpdatedFrom(old(cached.state), n), atoms)
                         + (if n == Minimized then [ConfigureWindow(None, None, Some(Below))] else [])
    {
      var state := UpdatedFrom(cached.state, n);
      InformClientOfWindowState(state);
      if n == Minimized || n == Minimized {
        effects := effects + [ConfigureWindow(None, None, Some(Below))];
      }
    }

    /** The surface was resized: the window follows. */
    method SceneSurfaceResized(newSize: Size)
      modifies this`effects
      ensures effects == old(effects) + [ConfigureWindow(None, Some(newSize), None), Flush]
    {
      effects := effects + [ConfigureWindow(None, Some(newSize), None)];
      effects := effects + [Flush];
    }

    /** The surface moved: the window's content follows, offset by the surface's content
        offset while the surface is alive. */
    method SceneSurfaceMovedTo(newTopLeft: Point, live: LiveSurfaces)
      modifies this`effects
      ensures var surface := Lock(sceneSurface, live);
        var offset := if surface.Some? then surface.value.contentOffset else NoDisplacement;
        effects == old(effects) + [ConfigureWindow(Some(Plus(newTopLeft, offset)), None, None), Flush]
      ensures Lock(sceneSurface, live).Some? ==>
        effects[|effects| - 2].position == Some(ContentRect(Lock(sceneSurface, live).value.(topLeft := newTopLeft)).topLeft)
    {
      var surface := Lock(sceneSurface, live);
      var contentOffset := if surface.Some? then surface.value.contentOffset else NoDisplacement;
      effects := effects + [ConfigureWindow(Some(Plus(newTopLeft, contentOffset)), None, None)];
      effects := effects + [Flush];
    }

    /** The user asked to close the surface: the client is asked to delete its window if
        it supports WM_DELETE_WINDOW, and killed otherwise. */
    method SceneSurfaceCloseRequested()
      modifies this`effects
      ensures effects == old(effects) + CloseRequestEffects(cached.supportedWmProtocols, atoms)
    {
      var deleteWindow := atoms.wmDeleteWindow in cached.supportedWmProtocols;
      if deleteWindow {
        effects := effects + [SendProtocolMessage(atoms.wmDeleteWindow, CURRENT_TIME, NoEvent)];
      } else {
        effects := effects + [KillClient];
      }
      effects := effects + [Flush];
    }

    /** The client's Wayland surface went away: the bridge closes. */
    method WlSurfaceDestroyed(live: LiveSurfaces, observerSurvives: bool) returns (fatal: bool)
      requires Valid()
      modifies this`cached, this`effects, this`sceneSurface, this`session, this`observer
      ensures Valid()
      ensures sceneSurface.None? && session.None? && observer.None?
      ensures cached == old(cached).(state := old(cached.state).(withdrawn := true))
      ensures fatal <==> old(observer).Some? && observerSurvives
      ensures effects == old(effects) + [DeleteProperty(atoms.netWmDesktop)]
                         + InformIfChanged(old(cached.state), old(cached.state).(withdrawn := true), atoms)
                         + [UnmapWindow, Flush]
                         + TeardownEffects(Lock(old(sceneSurface), live), old(observer), observerSurvives)
    {
      fatal := Close(live, observerSurvives);
    }

    /** The scene surface, if it is still alive. */
    method GetSceneSurface(live: LiveSurfaces) returns (r: Option<SceneSurface>)
      ensures r.Some? <==> sceneSurface.Some? && sceneSurface.value in live
      ensures r.Some? ==> r.value == live[sceneSurface.value]
    {
      r := Lock(sceneSurface, live);
    }
  }
}
