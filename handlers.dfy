/** The five property handlers of a bridge, the transient-for resolver they use, and
    what a run of handlers does to the supported-protocol set and the pending
    specification. A handler is run with the reply to its property read: the decoded
    value, or Missing when the property is absent or unreadable. */
module Handlers {
  import opened Xcb
  import opened Geometry
  import opened Optional
  import opened Scene

  /** A reply to a property read, as decoded for the handler's declared type. */
  datatype Reply = Missing | Text(text: string) | WindowRef(window: Window) | AtomList(atoms: seq<Atom>)

  datatype HandlerKind = ClassHandler | NameHandler | TransientForHandler | ProtocolsHandler

  /** Which handler a property change is routed to: WM_CLASS to the application id,
      WM_NAME and _NET_WM_NAME to the name, WM_TRANSIENT_FOR to the parent and
      WM_PROTOCOLS to the supported protocols; other properties have none. */
  function HandlerFor(property: Atom, atoms: AtomTable): (r: Option<HandlerKind>)
    requires atoms.Valid()
    ensures r == Some(ClassHandler) <==> property == ATOM_WM_CLASS
    ensures r == Some(NameHandler) <==> property == ATOM_WM_NAME || property == atoms.netWmName
    ensures r == Some(TransientForHandler) <==> property == ATOM_WM_TRANSIENT_FOR
    ensures r == Some(ProtocolsHandler) <==> property == atoms.wmProtocols
  {
    if property == ATOM_WM_CLASS then Some(ClassHandler)
    else if property == ATOM_WM_NAME || property == atoms.netWmName then Some(NameHandler)
    else if property == ATOM_WM_TRANSIENT_FOR then Some(TransientForHandler)
    else if property == atoms.wmProtocols then Some(ProtocolsHandler)
    else None
  }

  predicate Ascending(s: seq<Atom>) {
    forall i, j :: 0 <= i < j < |s| ==> s[i] < s[j]
  }

  /** The handler table is keyed by atom; walking it visits the keys in ascending order,
      each once. */
  function HandlerOrder(atoms: AtomTable): (r: seq<Atom>)
    requires atoms.Valid()
    ensures Ascending(r)
    ensures forall a :: a in r <==> HandlerFor(a, atoms).Some?
  {
    [ATOM_WM_NAME, ATOM_WM_CLASS, ATOM_WM_TRANSIENT_FOR]
    + (if atoms.netWmName < atoms.wmProtocols
       then [atoms.netWmName, atoms.wmProtocols]
       else [atoms.wmProtocols, atoms.netWmName])
  }

  // Transient-for resolution

  /** The window manager's table of bridges, each with its weak scene-surface
      reference, and the focused window if there is one. */
  datatype WindowManager = WindowManager(bridges: map<Window, Option<SurfaceId>>, focused: Option<Window>)

  /** The live scene surface of a window's bridge, if the window has a bridge and the
      bridge a live surface. */
  function SceneSurfaceOf(wm: WindowManager, live: LiveSurfaces, w: Window): (r: Option<SceneSurface>)
    ensures r.Some? <==> w in wm.bridges && Lock(wm.bridges[w], live).Some?
    ensures r.Some? ==> r.value == live[wm.bridges[w].value]
  {
    if w in wm.bridges then Lock(wm.bridges[w], live) else None
  }

  /** The parent surface of a window that is transient for `transientFor`: that
      window's surface, else the focused window's, else none; a window that is transient
      for no window has no parent. */
  function ResolveTransientFor(transientFor: Window, wm: WindowManager, live: LiveSurfaces): (r: Option<SceneSurface>)
    ensures transientFor == WINDOW_NONE ==> r.None?
    ensures transientFor != WINDOW_NONE && SceneSurfaceOf(wm, live, transientFor).Some? ==>
      r == SceneSurfaceOf(wm, live, transientFor)
    ensures r.Some? ==> r.value in live.Values
    ensures r.Some? && r != SceneSurfaceOf(wm, live, transientFor) ==>
      wm.focused.Some? && r == SceneSurfaceOf(wm, live, wm.focused.value)
    ensures r.None? && transientFor != WINDOW_NONE ==>
      SceneSurfaceOf(wm, live, transientFor).None?
      && (wm.focused.Some? ==> SceneSurfaceOf(wm, live, wm.focused.value).None?)
  {
    if transientFor == WINDOW_NONE then None
    else
      var own := SceneSurfaceOf(wm, live, transientFor);
      if own.Some? then own
      else if wm.focused.Some? then SceneSurfaceOf(wm, live, wm.focused.value)
      else None
  }

  /** A window transient for one whose bridge has no scene surface yet falls back to
      the focused window's surface. */
  lemma TransientForFallsBackToFocused(b: Window, c: Window, surfaceC: SceneSurface, wm: WindowManager, live: LiveSurfaces)
    requires b != WINDOW_NONE && b in wm.bridges && wm.bridges[b].None?
    requires wm.focused == Some(c) && c in wm.bridges && wm.bridges[c] == Some(surfaceC.id)
    requires surfaceC.id in live && live[surfaceC.id] == surfaceC
    ensures ResolveTransientFor(b, wm, live) == Some(surfaceC)
  {
  }

  // What the handlers do

  /** The part of a bridge's state that handlers change. */
  datatype Aggregate = Aggregate(supportedWmProtocols: set<Atom>, pending: Option<SurfaceSpec>)

  /** The pending specification, created empty when there is none. */
  function PendingOrEmpty(pending: Option<SurfaceSpec>): (r: SurfaceSpec)
    ensures pending.Some? ==> r == pending.value
    ensures pending.None? ==> IsEmpty(r)
  {
    if pending.Some? then pending.value else EmptySpec
  }

  /** The pending specification after the window is made transient for `parent`:
      the parent is recorded and the cached top-left is placed relative to it. */
  function TransientSpec(pending: Option<SurfaceSpec>, parent: Option<SceneSurface>, topLeft: Point): (r: SurfaceSpec)
    ensures r.parent == Some(IdOf(parent))
    ensures parent.None? ==> r.topLeft == Some(topLeft)
    ensures parent.Some? ==>
      && r.topLeft == PendingOrEmpty(pending).topLeft && r.auxRect.Some? && r.auxRect.value.size == Size(1, 1)
      && Plus(Plus(r.auxRect.value.topLeft, AsDisplacement(parent.value.topLeft)), parent.value.contentOffset) == topLeft
    ensures var p := PendingOrEmpty(pending);
      && r.width == p.width && r.height == p.height && r.state == p.state
      && r.applicationId == p.applicationId && r.name == p.name
    ensures parent.None? ==> r.auxRect == PendingOrEmpty(pending).auxRect
    ensures parent.Some? ==>
      r.placementHints == Some(0)
      && r.surfacePlacementGravity == Some(NorthwestGravity) && r.auxRectPlacementGravity == Some(NorthwestGravity)
    ensures var p := PendingOrEmpty(pending);
      parent.None? ==>
        r.placementHints == p.placementHints
        && r.surfacePlacementGravity == p.surfacePlacementGravity && r.auxRectPlacementGravity == p.auxRectPlacementGravity
  {
    SetPosition(parent, topLeft, PendingOrEmpty(pending).(parent := Some(IdOf(parent))))
  }

  /** One handler run with its reply. */
  function HandleReply(kind: HandlerKind, reply: Reply, agg: Aggregate, topLeft: Point, wm: WindowManager, live: LiveSurfaces): (r: Aggregate)
    ensures kind != ProtocolsHandler ==> r.supportedWmProtocols == agg.supportedWmProtocols
    ensures kind == ProtocolsHandler ==> r.pending == agg.pending
    ensures kind == ProtocolsHandler ==>
      (r.supportedWmProtocols == if reply.AtomList? then set a | a in reply.atoms else {})
    ensures kind == ClassHandler ==>
      r.pending == if reply.Text? then Some(PendingOrEmpty(agg.pending).(applicationId := Some(reply.text))) else agg.pending
    ensures kind == NameHandler ==>
      r.pending == if reply.Text? then Some(PendingOrEmpty(agg.pending).(name := Some(reply.text))) else agg.pending
    ensures kind == TransientForHandler ==>
      r.pending == Some(TransientSpec(agg.pending, ResolveTransientFor(if reply.WindowRef? then reply.window else WINDOW_NONE, wm, live), topLeft))
    ensures kind == TransientForHandler && !reply.WindowRef? ==> r.pending.Some? && r.pending.value.parent == Some(None)
  {
    match kind
    case ClassHandler =>
      if reply.Text? then agg.(pending := Some(PendingOrEmpty(agg.pending).(applicationId := Some(reply.text))))
      else agg
    case NameHandler =>
      if reply.Text? then agg.(pending := Some(PendingOrEmpty(agg.pending).(name := Some(reply.text))))
      else agg
    case TransientForHandler =>
      var transientFor := if reply.WindowRef? then reply.window else WINDOW_NONE;
      agg.(pending := Some(TransientSpec(agg.pending, ResolveTransientFor(transientFor, wm, live), topLeft)))
    case ProtocolsHandler =>
      agg.(supportedWmProtocols := if reply.AtomList? then set a | a in reply.atoms else {})
  }

  function ReplyFor(replies: map<Atom, Reply>, property: Atom): Reply {
    if property in replies then replies[property] else Missing
  }

  /** The handlers of the listed properties run one after another. */
  function HandleAll(order: seq<Atom>, replies: map<Atom, Reply>, agg: Aggregate, topLeft: Point,
                     wm: WindowManager, live: LiveSurfaces, atoms: AtomTable): Aggregate
    requires atoms.Valid()
    decreases |order|
  {
    if order == [] then agg
    else
      var before := HandleAll(order[..|order| - 1], replies, agg, topLeft, wm, live, atoms);
      var property := order[|order| - 1];
      var kind := HandlerFor(property, atoms);
      if kind.Some? then HandleReply(kind.value, ReplyFor(replies, property), before, topLeft, wm, live)
      else before
  }

  /** Running the handlers of a prefix and then the next one is running the handlers of
      the longer prefix. */
  lemma HandleAllStep(order: seq<Atom>, i: nat, replies: map<Atom, Reply>, agg: Aggregate, topLeft: Point,
                      wm: WindowManager, live: LiveSurfaces, atoms: AtomTable)
    requires atoms.Valid() && i < |order| && HandlerFor(order[i], atoms).Some?
    ensures HandleAll(order[..i + 1], replies, agg, topLeft, wm, live, atoms)
         == HandleReply(HandlerFor(order[i], atoms).value, ReplyFor(replies, order[i]),
                        HandleAll(order[..i], replies, agg, topLeft, wm, live, atoms), topLeft, wm, live)
  {
    assert order[..i + 1][..i] == order[..i];
  }

  /** What handlers may leave in a pending specification: a top-left, if any, that is
      the cached one, and no size or state. */
  predicate KeepsGeometry(pending: Option<SurfaceSpec>, topLeft: Point) {
    pending.Some? ==>
      && (pending.value.topLeft.None? || pending.value.topLeft == Some(topLeft))
      && pending.value.width.None? && pending.value.height.None? && pending.value.state.None?
  }

  /** One handler keeps what the pending specification says of geometry and state. */
  lemma HandleReplyKeepsGeometry(kind: HandlerKind, reply: Reply, agg: Aggregate, topLeft: Point,
                                 wm: WindowManager, live: LiveSurfaces)
    requires KeepsGeometry(agg.pending, topLeft)
    ensures KeepsGeometry(HandleReply(kind, reply, agg, topLeft, wm, live).pending, topLeft)
  {
  }

  /** Whatever the replies, in any order, the handlers never ask for another position
      than the cached one, nor for a size or a state. */
  lemma {:induction false} HandleAllKeepsGeometry(order: seq<Atom>, replies: map<Atom, Reply>, agg: Aggregate,
                                                 topLeft: Point, wm: WindowManager, live: LiveSurfaces, atoms: AtomTable)
    requires atoms.Valid() && KeepsGeometry(agg.pending, topLeft)
    ensures KeepsGeometry(HandleAll(order, replies, agg, topLeft, wm, live, atoms).pending, topLeft)
    decreases |order|
  {
    if order != [] {
      var before := HandleAll(order[..|order| - 1], replies, agg, topLeft, wm, live, atoms);
      HandleAllKeepsGeometry(order[..|order| - 1], replies, agg, topLeft, wm, live, atoms);
      var kind := HandlerFor(order[|order| - 1], atoms);
      if kind.Some? {
        HandleReplyKeepsGeometry(kind.value, ReplyFor(replies, order[|order| - 1]), before, topLeft, wm, live);
      }
    }
  }

  /** Whatever else runs after it, the class handler's value ends up in the pending
      specification. */
  lemma {:induction false} HandleAllRecordsClass(order: seq<Atom>, replies: map<Atom, Reply>, agg: Aggregate, topLeft: Point,
                                                wm: WindowManager, live: LiveSurfaces, atoms: AtomTable, text: string)
    requires atoms.Valid() && ATOM_WM_CLASS in order && ReplyFor(replies, ATOM_WM_CLASS) == Text(text)
    ensures var pending := HandleAll(order, replies, agg, topLeft, wm, live, atoms).pending;
      pending.Some? && pending.value.applicationId == Some(text)
    decreases |order|
  {
    var last := order[|order| - 1];
    if last != ATOM_WM_CLASS {
      assert ATOM_WM_CLASS in order[..|order| - 1] by {
        var k :| 0 <= k < |order| && order[k] == ATOM_WM_CLASS;
        assert k < |order| - 1 && order[..|order| - 1][k] == ATOM_WM_CLASS;
      }
      HandleAllRecordsClass(order[..|order| - 1], replies, agg, topLeft, wm, live, atoms, text);
    }
  }

  /** Whatever else runs after it, the parent the transient-for handler resolved ends up
      in the pending specification; a missing property records no parent. */
  lemma {:induction false} HandleAllRecordsParent(order: seq<Atom>, replies: map<Atom, Reply>, agg: Aggregate, topLeft: Point,
                                                 wm: WindowManager, live: LiveSurfaces, atoms: AtomTable)
    requires atoms.Valid() && ATOM_WM_TRANSIENT_FOR in order
    ensures var reply := ReplyFor(replies, ATOM_WM_TRANSIENT_FOR);
      var pending := HandleAll(order, replies, agg, topLeft, wm, live, atoms).pending;
      pending.Some? && pending.value.parent
        == Some(IdOf(ResolveTransientFor(if reply.WindowRef? then reply.window else WINDOW_NONE, wm, live)))
    decreases |order|
  {
    var last := order[|order| - 1];
    if last != ATOM_WM_TRANSIENT_FOR {
      assert ATOM_WM_TRANSIENT_FOR in order[..|order| - 1] by {
        var k :| 0 <= k < |order| && order[k] == ATOM_WM_TRANSIENT_FOR;
        assert k < |order| - 1 && order[..|order| - 1][k] == ATOM_WM_TRANSIENT_FOR;
      }
      HandleAllRecordsParent(order[..|order| - 1], replies, agg, topLeft, wm, live, atoms);
    }
  }
}
