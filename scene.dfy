/** The compositor side of the bridge: live scene surfaces, the partial surface
    specification the shell applies, creation parameters, and the pure decisions the
    bridge takes about them (placement, configure requests, no-op filtering,
    interactive resize edges). */
module Scene {
  import opened Xcb
  import opened Geometry
  import opened WindowStates
  import opened Optional

  type SurfaceId = nat
  type SessionId = nat
  type ObserverId = nat

  /** What the bridge reads from a live scene surface. */
  datatype SceneSurface = SceneSurface(
    id: SurfaceId,
    session: SessionId,
    topLeft: Point,
    contentOffset: Displacement,
    contentSize: Size,
    state: NativeState,
    applicationId: string,
    name: string,
    parent: Option<SurfaceId>)

  /** The surfaces the shell keeps alive; a weak reference is a surface id. */
  type LiveSurfaces = map<SurfaceId, SceneSurface>

  /** Locking a weak reference: the surface if it is still alive. */
  function Lock(ref: Option<SurfaceId>, live: LiveSurfaces): (r: Option<SceneSurface>)
    ensures r.Some? <==> ref.Some? && ref.value in live
    ensures r.Some? ==> r.value == live[ref.value]
  {
    if ref.Some? && ref.value in live then Some(live[ref.value]) else None
  }

  function IdOf(s: Option<SceneSurface>): Option<SurfaceId> {
    if s.Some? then Some(s.value.id) else None
  }

  datatype Gravity = NorthwestGravity

  /** A partial surface specification: every field is optional, and only the set
      ones are applied. `parent` is set to None to ask for no parent. */
  datatype SurfaceSpec = SurfaceSpec(
    topLeft: Option<Point>,
    width: Option<int>,
    height: Option<int>,
    state: Option<NativeState>,
    applicationId: Option<string>,
    name: Option<string>,
    parent: Option<Option<SurfaceId>>,
    auxRect: Option<Rectangle>,
    placementHints: Option<uint32>,
    surfacePlacementGravity: Option<Gravity>,
    auxRectPlacementGravity: Option<Gravity>)

  const EmptySpec := SurfaceSpec(None, None, None, None, None, None, None, None, None, None, None)

  predicate IsEmpty(spec: SurfaceSpec) {
    spec == EmptySpec
  }

  /** Placement of a window whose decorations should have global top-left `topLeft`:
      relative to the parent's content origin as a one-pixel north-west anchored
      aux rect when there is a parent, as an absolute top-left otherwise. */
  function SetPosition(parent: Option<SceneSurface>, topLeft: Point, spec: SurfaceSpec): (r: SurfaceSpec)
    ensures parent.None? ==> r == spec.(topLeft := Some(topLeft))
    ensures parent.Some? ==> r.topLeft == spec.topLeft && r.auxRect.Some? && r.auxRect.value.size == Size(1, 1)
    ensures parent.Some? ==>
      r.placementHints == Some(0)
      && r.surfacePlacementGravity == Some(NorthwestGravity) && r.auxRectPlacementGravity == Some(NorthwestGravity)
    ensures r.(topLeft := spec.topLeft, auxRect := spec.auxRect, placementHints := spec.placementHints,
               surfacePlacementGravity := spec.surfacePlacementGravity,
               auxRectPlacementGravity := spec.auxRectPlacementGravity) == spec
  {
    if parent.Some? then
      var p := parent.value;
      var local := Minus(Minus(topLeft, AsDisplacement(p.topLeft)), p.contentOffset);
      spec.(auxRect := Some(Rectangle(local, Size(1, 1))),
            placementHints := Some(0),
            surfacePlacementGravity := Some(NorthwestGravity),
            auxRectPlacementGravity := Some(NorthwestGravity))
    else
      spec.(topLeft := Some(topLeft))
  }

  /** The aux rect of a child window, measured from its parent's content origin, lands
      the window on the global position that was asked for. */
  lemma SetPositionPlacesChild(parent: SceneSurface, topLeft: Point, spec: SurfaceSpec)
    ensures var r := SetPosition(Some(parent), topLeft, spec);
      r.auxRect.Some? && Plus(Plus(r.auxRect.value.topLeft, AsDisplacement(parent.topLeft)), parent.contentOffset) == topLeft
  {
  }

  // ConfigureRequest

  /** The fields of an X11 ConfigureRequest event the bridge uses. */
  datatype ConfigureRequest = ConfigureRequest(valueMask: bv16, x: int, y: int, width: int, height: int)

  function Pick(mask: bv16, bit: bv16, requested: int, current: int): int {
    if mask & bit != 0 then requested else current
  }

  /** The geometry a configure request asks for: each of x, y, width and height is taken
      from the event exactly when its bit is in the value mask. */
  function MergeRequest(event: ConfigureRequest, current: Rectangle): (r: Rectangle)
    ensures r.topLeft.x == (if event.valueMask & CONFIG_WINDOW_X != 0 then event.x else current.topLeft.x)
    ensures r.topLeft.y == (if event.valueMask & CONFIG_WINDOW_Y != 0 then event.y else current.topLeft.y)
    ensures r.size.width == (if event.valueMask & CONFIG_WINDOW_WIDTH != 0 then event.width else current.size.width)
    ensures r.size.height == (if event.valueMask & CONFIG_WINDOW_HEIGHT != 0 then event.height else current.size.height)
  {
    Rectangle(
      Point(Pick(event.valueMask, CONFIG_WINDOW_X, event.x, current.topLeft.x),
            Pick(event.valueMask, CONFIG_WINDOW_Y, event.y, current.topLeft.y)),
      Size(Pick(event.valueMask, CONFIG_WINDOW_WIDTH, event.width, current.size.width),
           Pick(event.valueMask, CONFIG_WINDOW_HEIGHT, event.height, current.size.height)))
  }

  /** A request with only the X bit changes only x. */
  lemma OnlyXChangesX(event: ConfigureRequest, current: Rectangle)
    requires event.valueMask == CONFIG_WINDOW_X
    ensures MergeRequest(event, current) == current.(topLeft := current.topLeft.(x := event.x))
  {
  }

  /** Merging the same request twice gives what merging it once gave. */
  lemma MergeRequestIdempotent(event: ConfigureRequest, current: Rectangle)
    ensures MergeRequest(event, MergeRequest(event, current)) == MergeRequest(event, current)
  {
  }

  /** The content rectangle of a scene surface, in the coordinates X11 uses. */
  function ContentRect(s: SceneSurface): Rectangle {
    Rectangle(Plus(s.topLeft, s.contentOffset), s.contentSize)
  }

  /** The modification a configure request asks of a live scene surface: a placement
      when the position changes, width and height together when the size changes, and
      nothing else. */
  function ConfigureMods(surface: SceneSurface, parent: Option<SceneSurface>, event: ConfigureRequest): (mods: SurfaceSpec)
    ensures var old_ := ContentRect(surface); var new_ := MergeRequest(event, old_);
      && (mods.width.Some? <==> new_.size != old_.size)
      && (mods.height.Some? <==> new_.size != old_.size)
      && (mods.width.Some? ==> mods.width == Some(new_.size.width) && mods.height == Some(new_.size.height))
      && ((mods.topLeft.Some? || mods.auxRect.Some?) <==> new_.topLeft != old_.topLeft)
      && (parent.None? && new_.topLeft != old_.topLeft ==> mods.topLeft == Some(Minus(new_.topLeft, surface.contentOffset)))
      && (IsEmpty(mods) <==> new_ == old_)
    ensures var old_ := ContentRect(surface); var new_ := MergeRequest(event, old_);
      parent.Some? && new_.topLeft != old_.topLeft ==>
        && mods.topLeft.None? && mods.auxRect.Some? && mods.auxRect.value.size == Size(1, 1)
        && Plus(Plus(mods.auxRect.value.topLeft, AsDisplacement(parent.value.topLeft)), parent.value.contentOffset)
           == Minus(new_.topLeft, surface.contentOffset)
    ensures var old_ := ContentRect(surface); var new_ := MergeRequest(event, old_);
      new_.topLeft != old_.topLeft ==>
        mods.(width := None, height := None) == SetPosition(parent, Minus(new_.topLeft, surface.contentOffset), EmptySpec)
    ensures var old_ := ContentRect(surface); var new_ := MergeRequest(event, old_);
      new_.topLeft == old_.topLeft ==>
        && mods.topLeft.None? && mods.auxRect.None? && mods.placementHints.None?
        && mods.surfacePlacementGravity.None? && mods.auxRectPlacementGravity.None?
    ensures mods.state.None? && mods.applicationId.None? && mods.name.None? && mods.parent.None?
  {
    var current := ContentRect(surface);
    var requested := MergeRequest(event, current);
    var placed :=
      if requested.topLeft != current.topLeft
      then SetPosition(parent, Minus(requested.topLeft, surface.contentOffset), EmptySpec)
      else EmptySpec;
    if requested.size != current.size
    then placed.(width := Some(requested.size.width), height := Some(requested.size.height))
    else placed
  }

  // property_notify's no-op filter

  /** Two weak references are the same once locked: both lead to the same live surface,
      or both to none (a reference to a surface that is gone counts as no reference). */
  predicate SameWhenLocked(a: Option<SurfaceId>, b: Option<SurfaceId>, live: LiveSurfaces) {
    IdOf(Lock(a, live)) == IdOf(Lock(b, live))
  }

  /** Drops from a specification the application id, name and parent that the surface
      already has, comparing parents as locked references; every other field is kept. */
  function DropUnchanged(spec: SurfaceSpec, surface: SceneSurface, live: LiveSurfaces): (r: SurfaceSpec)
    ensures r.applicationId.Some? <==> spec.applicationId.Some? && spec.applicationId.value != surface.applicationId
    ensures r.name.Some? <==> spec.name.Some? && spec.name.value != surface.name
    ensures r.parent.Some? <==> spec.parent.Some? && !SameWhenLocked(spec.parent.value, surface.parent, live)
    ensures r.applicationId.Some? ==> r.applicationId == spec.applicationId
    ensures r.name.Some? ==> r.name == spec.name
    ensures r.parent.Some? ==> r.parent == spec.parent
    ensures r.(applicationId := spec.applicationId, name := spec.name, parent := spec.parent) == spec
  {
    var a := if spec.applicationId.Some? && spec.applicationId.value == surface.applicationId
             then spec.(applicationId := None) else spec;
    var n := if a.name.Some? && a.name.value == surface.name then a.(name := None) else a;
    if n.parent.Some? && SameWhenLocked(n.parent.value, surface.parent, live) then n.(parent := None) else n
  }

  /** Asking for no parent is dropped for a surface whose parent is gone: both sides
      lock to nothing. */
  lemma DropUnchangedDeadParent(spec: SurfaceSpec, surface: SceneSurface, live: LiveSurfaces)
    requires spec.parent == Some(None) && surface.parent.Some? && surface.parent.value !in live
    ensures DropUnchanged(spec, surface, live).parent.None?
  {
  }

  /** A filtered specification is empty exactly when it asked only for values the surface
      already has. */
  lemma DropUnchangedEmpty(spec: SurfaceSpec, surface: SceneSurface, live: LiveSurfaces)
    ensures IsEmpty(DropUnchanged(spec, surface, live)) <==>
      && spec.(applicationId := None, name := None, parent := None) == EmptySpec
      && (spec.applicationId.Some? ==> spec.applicationId.value == surface.applicationId)
      && (spec.name.Some? ==> spec.name.value == surface.name)
      && (spec.parent.Some? ==> SameWhenLocked(spec.parent.value, surface.parent, live))
  {
  }

  /** Filtering twice drops nothing more. */
  lemma DropUnchangedIdempotent(spec: SurfaceSpec, surface: SceneSurface, live: LiveSurfaces)
    ensures DropUnchanged(DropUnchanged(spec, surface, live), surface, live) == DropUnchanged(spec, surface, live)
  {
  }

  // Creation parameters

  /** The parameters of a new scene surface the bridge fills in; the window type is
      always freestyle. */
  datatype CreationParams = CreationParams(
    topLeft: Point,
    size: Size,
    state: NativeState,
    serverSideDecorated: bool,
    applicationId: Option<string>,
    name: Option<string>,
    parent: Option<Option<SurfaceId>>,
    auxRect: Option<Rectangle>,
    placementHints: Option<uint32>,
    surfacePlacementGravity: Option<Gravity>,
    auxRectPlacementGravity: Option<Gravity>)

  /** The parameters before any pending specification is folded in. */
  function BaseParams(topLeft: Point, size: Size, state: NativeState, serverSideDecorated: bool): CreationParams {
    CreationParams(topLeft, size, state, serverSideDecorated, None, None, None, None, None, None, None)
  }

  function Override<T>(given: Option<T>, current: T): T {
    if given.Some? then given.value else current
  }

  function OverrideOpt<T>(given: Option<T>, current: Option<T>): Option<T> {
    if given.Some? then given else current
  }

  /** Creation parameters updated from a specification: every field the specification
      sets replaces the parameter's value, the rest are kept. */
  function UpdateFrom(params: CreationParams, spec: SurfaceSpec): (r: CreationParams)
    ensures IsEmpty(spec) ==> r == params
    ensures r.topLeft == (if spec.topLeft.Some? then spec.topLeft.value else params.topLeft)
    ensures r.size.width == (if spec.width.Some? then spec.width.value else params.size.width)
    ensures r.size.height == (if spec.height.Some? then spec.height.value else params.size.height)
    ensures r.state == (if spec.state.Some? then spec.state.value else params.state)
    ensures r.applicationId == (if spec.applicationId.Some? then spec.applicationId else params.applicationId)
    ensures r.name == (if spec.name.Some? then spec.name else params.name)
    ensures r.parent == (if spec.parent.Some? then spec.parent else params.parent)
    ensures r.auxRect == (if spec.auxRect.Some? then spec.auxRect else params.auxRect)
    ensures r.placementHints == (if spec.placementHints.Some? then spec.placementHints else params.placementHints)
    ensures r.surfacePlacementGravity
         == (if spec.surfacePlacementGravity.Some? then spec.surfacePlacementGravity else params.surfacePlacementGravity)
    ensures r.auxRectPlacementGravity
         == (if spec.auxRectPlacementGravity.Some? then spec.auxRectPlacementGravity else params.auxRectPlacementGravity)
    ensures r.serverSideDecorated == params.serverSideDecorated
  {
    params.(
      topLeft := Override(spec.topLeft, params.topLeft),
      size := Size(Override(spec.width, params.size.width), Override(spec.height, params.size.height)),
      state := Override(spec.state, params.state),
      applicationId := OverrideOpt(spec.applicationId, params.applicationId),
      name := OverrideOpt(spec.name, params.name),
      parent := OverrideOpt(spec.parent, params.parent),
      auxRect := OverrideOpt(spec.auxRect, params.auxRect),
      placementHints := OverrideOpt(spec.placementHints, params.placementHints),
      surfacePlacementGravity := OverrideOpt(spec.surfacePlacementGravity, params.surfacePlacementGravity),
      auxRectPlacementGravity := OverrideOpt(spec.auxRectPlacementGravity, params.auxRectPlacementGravity))
  }

  // _NET_WM_MOVERESIZE

  /** The _NET_WM_MOVERESIZE directions ("Other Root Window Messages", EWMH 1.3). */
  const MOVERESIZE_SIZE_TOPLEFT: uint32 := 0
  const MOVERESIZE_SIZE_LEFT: uint32 := 7
  const MOVERESIZE_MOVE: uint32 := 8
  const MOVERESIZE_SIZE_KEYBOARD: uint32 := 9
  const MOVERESIZE_MOVE_KEYBOARD: uint32 := 10
  const MOVERESIZE_CANCEL: uint32 := 11

  datatype ResizeEdge = Northwest | North | Northeast | East | Southeast | South | Southwest | West

  /** The compositor resize edge of a _NET_WM_MOVERESIZE direction: the eight sizing
      directions have one, move, the keyboard variants, cancel and unknown values none. */
  function ResizeEdgeOf(direction: uint32): (r: Option<ResizeEdge>)
    ensures r.Some? <==> MOVERESIZE_SIZE_TOPLEFT <= direction <= MOVERESIZE_SIZE_LEFT
  {
    match direction
    case 0 => Some(Northwest)
    case 1 => Some(North)
    case 2 => Some(Northeast)
    case 3 => Some(East)
    case 4 => Some(Southeast)
    case 5 => Some(South)
    case 6 => Some(Southwest)
    case 7 => Some(West)
    case _ => None
  }

  /** The next edge clockwise around a window. */
  function Clockwise(e: ResizeEdge): ResizeEdge {
    match e
    case Northwest => North
    case North => Northeast
    case Northeast => East
    case East => Southeast
    case Southeast => South
    case South => Southwest
    case Southwest => West
    case West => Northwest
  }

  /** EWMH numbers the sizing directions clockwise from the top-left corner, and the
      table keeps that order: the edges are those of the compass, each once. */
  lemma ResizeEdgesClockwise(direction: uint32)
    requires direction <= MOVERESIZE_SIZE_LEFT
    ensures ResizeEdgeOf(0) == Some(Northwest)
    ensures ResizeEdgeOf((direction + 1) % 8) == Some(Clockwise(ResizeEdgeOf(direction).value))
  {
  }

  lemma ResizeEdgeInjective(d1: uint32, d2: uint32)
    requires ResizeEdgeOf(d1).Some? && ResizeEdgeOf(d1) == ResizeEdgeOf(d2)
    ensures d1 == d2
  {
  }
}
