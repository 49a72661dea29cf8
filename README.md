# XWayland surface bridge

A Dafny model of `XWaylandSurface`, the per-window bridge in Mir's XWayland frontend
between a legacy X11 window and the compositor's scene surface for it. The bridge
caches what it knows of the window: override-redirect, geometry, the WM_PROTOCOLS the
client supports, and a four-flag window state (withdrawn, minimized, maximized,
fullscreen). It works in both directions:

- X11 requests become compositor requests: configure requests, `_NET_WM_STATE` and
  `WM_CHANGE_STATE` client messages, `_NET_WM_MOVERESIZE`, and property changes.
- Compositor changes become X11 writes. It announces state with WM_STATE (section
  4.1.3.1 of ICCCM) and `_NET_WM_STATE` ("Application Window Properties", EWMH 1.3).

Modules:

- `Xcb`: 32-bit words, atoms and the ICCCM/EWMH constants.
- `Geometry`: points, displacements, sizes and rectangles.
- `WindowStates`: the four-flag state and its mapping to and from the compositor's
  native states.
- `StateProtocol`: the property encodings and the two state client messages.
- `Scene`: what the bridge reads of a live scene surface, surface specifications,
  creation parameters, `set_position`, configure-request merging and the resize-edge
  table.
- `Handlers`: the five property handlers and transient-for resolution.
- `Effects`: the calls the bridge makes, as an effect log, and the effect sequences
  each decision produces.
- `Bridge`: the class `XWaylandSurface`. Its fields are the cached state, the pending
  specification, the weak references and the effect log. Its methods update them as
  the C++ methods do.

The X11 connection, the window manager and the shell are not modelled. Every call the
bridge makes into them is appended to `effects`. The shell's live surfaces are a
parameter `live`, so a weak reference is an id and locking it is a lookup that may
fail. Between operations no surface specification is pending (`Valid()`): every
operation that builds one consumes it before returning.

Quirks of the C++ that the model keeps:

- `scene_surface_state_set` compares against `mir_window_state_minimized` twice, so a
  surface that reports `hidden` is not lowered.
- In a `_NET_WM_STATE` request, an unknown atom writes a throw-away flag, and an
  action outside REMOVE/ADD/TOGGLE changes nothing.
- `property_notify` consumes the pending specification even when there is no scene
  surface to apply it to.
- `_NET_WM_MOVERESIZE` keyboard move, keyboard size and cancel do nothing.
- A surface that reports an alias of a state (hidden, one-axis maximized, unknown or
  attached) is not asked anything when it reports it, but it is asked for the canonical
  state at the next map or state request: the flags cannot tell the alias apart.

## Model

All source paths are under `packages/plurix/source/mir-src/server/frontend_xwayland/`; the table repeats them in full.

| member | source | states |
|---|---|---|
| WindowStates.ToNative | packages/plurix/source/mir-src/server/frontend_xwayland/xwayland_surface.cpp:648-659 | the native state is minimized iff minimized, else fullscreen iff fullscreen, else maximized iff maximized, else restored |
| WindowStates.ToNativeIgnoresWithdrawn | packages/plurix/source/mir-src/server/frontend_xwayland/xwayland_surface.cpp:648-659 | withdrawn never affects the native state |
| WindowStates.UpdatedFrom | packages/plurix/source/mir-src/server/frontend_xwayland/xwayland_surface.cpp:661-703 | the result is never withdrawn; each flag is set, cleared or kept as the reported native state says (hidden/minimized set minimized and keep the rest, the three maximized states clear fullscreen, `mir_window_states` keeps everything) |
| WindowStates.UpdatedFromOwnNative | packages/plurix/source/mir-src/server/frontend_xwayland/xwayland_surface.cpp:648-703 | round trip: updating a state from its own native state gives back its flags, no longer withdrawn |
| WindowStates.UpdatedFromAgrees | packages/plurix/source/mir-src/server/frontend_xwayland/xwayland_surface.cpp:648-703 | folding a reported native state in and mapping back gives the reported state, up to its aliases |
| WindowStates.UpdatedFromIdempotent | packages/plurix/source/mir-src/server/frontend_xwayland/xwayland_surface.cpp:661-703 | applying the same reported state twice changes nothing the second time |
| StateProtocol.WmStateOf | packages/plurix/source/mir-src/server/frontend_xwayland/xwayland_surface.cpp:956-963 | WM_STATE is WITHDRAWN iff withdrawn, ICONIC iff mapped and minimized, NORMAL iff mapped and not minimized |
| StateProtocol.NetWmStateList | packages/plurix/source/mir-src/server/frontend_xwayland/xwayland_surface.cpp:980-994 | the list holds hidden iff minimized, both maximized atoms iff maximized, fullscreen iff fullscreen; hidden first, then horizontal before vertical maximized, fullscreen last, nothing else |
| StateProtocol.MappedStateReadsBack | packages/plurix/source/mir-src/server/frontend_xwayland/xwayland_surface.cpp:956-997 | a client reading the two properties of a mapped window recovers its exact state, and ICONIC agrees with the hidden atom |
| StateProtocol.WithdrawnStateReadsBack | packages/plurix/source/mir-src/server/frontend_xwayland/xwayland_surface.cpp:971-977 | with `_NET_WM_STATE` deleted a client sees a withdrawn window with no other flag |
| StateProtocol.Act | packages/plurix/source/mir-src/server/frontend_xwayland/xwayland_surface.cpp:440-445 | REMOVE clears, ADD sets, TOGGLE negates, any other action keeps the flag |
| StateProtocol.ApplyAction | packages/plurix/source/mir-src/server/frontend_xwayland/xwayland_surface.cpp:429-446 | a known atom sets the flag it names to the action applied to that flag (cleared, set, negated or kept); a zero or unknown atom changes nothing; no other flag changes; withdrawn is never touched |
| StateProtocol.RequestedState | packages/plurix/source/mir-src/server/frontend_xwayland/xwayland_surface.cpp:413-448 | the loop over the two property words of the message computes the properties applied in order, with data[0] as the action |
| StateProtocol.RequestKeepsWithdrawn | packages/plurix/source/mir-src/server/frontend_xwayland/xwayland_surface.cpp:427-447 | a request never changes withdrawn |
| StateProtocol.UnknownActionIsNoOp | packages/plurix/source/mir-src/server/frontend_xwayland/xwayland_surface.cpp:440-445 | an action above TOGGLE leaves the state unchanged whatever the properties |
| StateProtocol.RemoveAddSetsNamedFlag | packages/plurix/source/mir-src/server/frontend_xwayland/xwayland_surface.cpp:429-446 | one REMOVE/ADD property sets the flag its atom names to the action's value and keeps the others |
| StateProtocol.RemoveAddSetsNamedFlags | packages/plurix/source/mir-src/server/frontend_xwayland/xwayland_surface.cpp:427-447 | REMOVE/ADD set exactly the flags whose atoms the request names to false/true and keep the others |
| StateProtocol.ToggleSwap | packages/plurix/source/mir-src/server/frontend_xwayland/xwayland_surface.cpp:429-446 | two TOGGLE properties can be applied in either order |
| StateProtocol.ToggleSelfInverse | packages/plurix/source/mir-src/server/frontend_xwayland/xwayland_surface.cpp:444 | toggling the same property twice changes nothing |
| StateProtocol.ToggleCommutes | packages/plurix/source/mir-src/server/frontend_xwayland/xwayland_surface.cpp:427-447 | toggling one property commutes with any toggle request |
| StateProtocol.ToggleTwiceIsIdentity | packages/plurix/source/mir-src/server/frontend_xwayland/xwayland_surface.cpp:401-452 | the same TOGGLE request sent twice restores the original state |
| StateProtocol.ChangeStateRequest | packages/plurix/source/mir-src/server/frontend_xwayland/xwayland_surface.cpp:462-482 | accepted iff NORMAL or ICONIC; minimized becomes (requested == ICONIC) and the other flags are kept |
| Scene.Lock | packages/plurix/source/mir-src/server/frontend_xwayland/xwayland_surface.cpp:816-823 | locking a weak reference yields the surface iff it is still alive |
| Scene.SetPosition | packages/plurix/source/mir-src/server/frontend_xwayland/xwayland_surface.cpp:98-115 | without a parent only the absolute top-left is set; with one a 1x1 aux rect, empty placement hints and north-west gravities are set and the top-left is kept; nothing else changes |
| Scene.SetPositionPlacesChild | packages/plurix/source/mir-src/server/frontend_xwayland/xwayland_surface.cpp:98-115 | the aux rect, measured from the parent's content origin, lands on the requested global position |
| Scene.MergeRequest | packages/plurix/source/mir-src/server/frontend_xwayland/xwayland_surface.cpp:374-380 | x, y, width and height come from the event exactly when their bit is in the value mask, else from the current geometry |
| Scene.OnlyXChangesX | packages/plurix/source/mir-src/server/frontend_xwayland/xwayland_surface.cpp:374-380 | a request with only the X bit changes only x |
| Scene.MergeRequestIdempotent | packages/plurix/source/mir-src/server/frontend_xwayland/xwayland_surface.cpp:339-351 | merging a request twice equals merging it once |
| Scene.ConfigureMods | packages/plurix/source/mir-src/server/frontend_xwayland/xwayland_surface.cpp:337-366 | a changed content position gives exactly the placement `set_position` computes (an absolute top-left without a parent; with one a 1x1 aux rect that lands on the requested position relative to the parent, zero hints and north-west gravities); an unchanged one sets no placement field; width and height set together iff the size changes; empty iff nothing changes; no state, name, application id or parent |
| Scene.DropUnchanged | packages/plurix/source/mir-src/server/frontend_xwayland/xwayland_surface.cpp:505-517 | application id and name survive iff set and different from the surface's; the parent survives iff set and, both locked, it is not the surface's parent (a gone parent counts as none); every other field is kept |
| Scene.DropUnchangedDeadParent | packages/plurix/source/mir-src/server/frontend_xwayland/xwayland_surface.cpp:515-517 | asking for no parent is dropped for a surface whose parent is gone |
| Scene.DropUnchangedEmpty | packages/plurix/source/mir-src/server/frontend_xwayland/xwayland_surface.cpp:505-521 | the filtered specification is empty iff it asked only for values the surface already has, parents compared as locked references |
| Scene.DropUnchangedIdempotent | packages/plurix/source/mir-src/server/frontend_xwayland/xwayland_surface.cpp:505-517 | filtering twice drops nothing more |
| Scene.UpdateFrom | packages/plurix/source/mir-src/server/frontend_xwayland/xwayland_surface.cpp:584-591 | every field the specification sets (top-left, width, height, state, application id, name, parent, aux rect, placement hints, both placement gravities) replaces the parameter's value, every unset one is kept; an empty specification changes nothing; decoration is never changed |
| Scene.ResizeEdgeOf | packages/plurix/source/mir-src/server/frontend_xwayland/xwayland_surface.cpp:74-93 | a direction has a resize edge iff it is one of the eight sizing directions |
| Scene.ResizeEdgesClockwise | packages/plurix/source/mir-src/server/frontend_xwayland/xwayland_surface.cpp:74-93 | the sizing directions map clockwise from north-west onto the eight compass edges |
| Scene.ResizeEdgeInjective | packages/plurix/source/mir-src/server/frontend_xwayland/xwayland_surface.cpp:74-93 | no two directions share an edge |
| Handlers.HandlerFor | packages/plurix/source/mir-src/server/frontend_xwayland/xwayland_surface.cpp:145-198 | WM_CLASS goes to the application id, WM_NAME and `_NET_WM_NAME` to the name, WM_TRANSIENT_FOR to the parent, WM_PROTOCOLS to the supported set; nothing else has a handler |
| Handlers.HandlerOrder | packages/plurix/source/mir-src/server/frontend_xwayland/xwayland_surface.cpp:573-576 | the handler table is walked in ascending atom order and holds exactly the handled atoms |
| Handlers.SceneSurfaceOf | packages/plurix/source/mir-src/server/frontend_xwayland/xwayland_surface.cpp:846-881 | a window yields a surface iff it has a bridge whose surface is alive, and then it is that bridge's surface |
| Handlers.ResolveTransientFor | packages/plurix/source/mir-src/server/frontend_xwayland/xwayland_surface.cpp:884-923 | no window means no parent; the window's own surface wins; otherwise the focused window's surface; the result is always a live surface |
| Handlers.TransientForFallsBackToFocused | packages/plurix/source/mir-src/server/frontend_xwayland/xwayland_surface.cpp:884-899 | a window transient for one without a surface gets the focused window's surface as parent |
| Handlers.PendingOrEmpty | packages/plurix/source/mir-src/server/frontend_xwayland/xwayland_surface.cpp:825-830 | the existing pending specification, or an empty one when there is none |
| Handlers.TransientSpec | packages/plurix/source/mir-src/server/frontend_xwayland/xwayland_surface.cpp:926-931 | the parent is recorded; with no parent the top-left is absolute and the other placement fields pending are kept; with one a 1x1 aux rect lands on the cached top-left relative to the parent, hints are zero, both gravities north-west and the top-left is kept; size, state, application id and name already pending are kept |
| Handlers.HandleReply | packages/plurix/source/mir-src/server/frontend_xwayland/xwayland_surface.cpp:145-198 | class and name handlers set their field only on a value; the transient-for handler records the resolved parent, and no parent when the property is missing; WM_PROTOCOLS replaces the supported set on a value and clears it otherwise; only it touches the set |
| Handlers.HandleAllStep | packages/plurix/source/mir-src/server/frontend_xwayland/xwayland_surface.cpp:579-582 | running one more handler extends the run of the prefix |
| Handlers.HandleReplyKeepsGeometry | packages/plurix/source/mir-src/server/frontend_xwayland/xwayland_surface.cpp:145-198 | no handler asks for a size, a state or another top-left than the cached one |
| Handlers.HandleAllKeepsGeometry | packages/plurix/source/mir-src/server/frontend_xwayland/xwayland_surface.cpp:570-582 | whatever the replies and their order, the handlers never ask for a size, a state or another top-left than the cached one |
| Handlers.HandleAllRecordsClass | packages/plurix/source/mir-src/server/frontend_xwayland/xwayland_surface.cpp:146-155 | once the WM_CLASS handler has run with a value, the pending application id is that value whatever runs after |
| Handlers.HandleAllRecordsParent | packages/plurix/source/mir-src/server/frontend_xwayland/xwayland_surface.cpp:172-184 | once the WM_TRANSIENT_FOR handler has run, the pending parent is the one its reply resolves to whatever runs after |
| Effects.InformEffects | packages/plurix/source/mir-src/server/frontend_xwayland/xwayland_surface.cpp:956-1000 | WM_STATE with no icon window, then `_NET_WM_STATE` deleted iff withdrawn or set to the state list, then a flush |
| Effects.InformIfChanged | packages/plurix/source/mir-src/server/frontend_xwayland/xwayland_surface.cpp:936-943 | nothing is written iff the state equals the cached one |
| Effects.InformedStateReadsBack | packages/plurix/source/mir-src/server/frontend_xwayland/xwayland_surface.cpp:934-1001 | whatever the window's properties were, after the writes a client reads back the announced state |
| Effects.StateRequestEffects | packages/plurix/source/mir-src/server/frontend_xwayland/xwayland_surface.cpp:1003-1018 | the surface is modified iff it is alive and in another state, and only its state is asked for |
| Effects.TakeFocusEffects | packages/plurix/source/mir-src/server/frontend_xwayland/xwayland_surface.cpp:291-326 | nothing for override-redirect; otherwise WM_TAKE_FOCUS iff supported, then input focus and a flush, and no other message |
| Effects.CloseRequestEffects | packages/plurix/source/mir-src/server/frontend_xwayland/xwayland_surface.cpp:765-800 | WM_DELETE_WINDOW iff supported, else the client is killed; then a flush |
| Effects.NotifyEffects | packages/plurix/source/mir-src/server/frontend_xwayland/xwayland_surface.cpp:505-521 | the surface is modified iff a specification and a live surface exist and the filtered specification is not empty, and then with that filtered specification |
| Effects.ConfigureRequestEffects | packages/plurix/source/mir-src/server/frontend_xwayland/xwayland_surface.cpp:328-391 | without a surface the window gets the merged cached geometry and a flush; with one the surface is modified only if the request changes it, never with empty mods |
| Effects.MoveResizeEffects | packages/plurix/source/mir-src/server/frontend_xwayland/xwayland_surface.cpp:608-637 | with a live surface MOVE requests a move and a sizing direction a resize from that direction's edge; keyboard size, keyboard move, cancel and unknown directions do nothing |
| Effects.TeardownEffects | packages/plurix/source/mir-src/server/frontend_xwayland/xwayland_surface.cpp:265-288 | observer removal only with both a surface and an observer, destruction only with a surface, a fatal error iff the observer survives |
| Bridge.AttachUsesCachedGeometry | packages/plurix/source/mir-src/server/frontend_xwayland/xwayland_surface.cpp:554-591 | whatever the properties say, the surface is created with the cached top-left and size, the mapped native state, and decorations iff not override-redirect |
| Bridge.AttachCarriesClassAndParent | packages/plurix/source/mir-src/server/frontend_xwayland/xwayland_surface.cpp:554-591 | the surface is created with the parent WM_TRANSIENT_FOR resolves to (none when missing) and with the WM_CLASS application id when present |
| Bridge.ReportedStateIsNotEchoed | packages/plurix/source/mir-src/server/frontend_xwayland/xwayland_surface.cpp:1003-1018 | after folding in a canonical state the surface reports, asking the surface for the bridge's state asks for nothing |
| Bridge.ReportedAliasIsReRequested | packages/plurix/source/mir-src/server/frontend_xwayland/xwayland_surface.cpp:1003-1018 | after folding in an alias the surface reports (hidden, one-axis maximized, unknown, attached), the next state request asks the surface for its canonical state |
| Bridge.IssueReads | packages/plurix/source/mir-src/server/frontend_xwayland/xwayland_surface.cpp:570-576 | one pending read per handled property, in table order, each with its handler and reply |
| Bridge.XWaylandSurface.constructor | packages/plurix/source/mir-src/server/frontend_xwayland/xwayland_surface.cpp:134-206 | the geometry and override-redirect come from the event; the window starts withdrawn with no surface; property and focus events are selected |
| Bridge.XWaylandSurface.InformClientOfWindowState | packages/plurix/source/mir-src/server/frontend_xwayland/xwayland_surface.cpp:934-1001 | the cached state becomes the new one, and the writes are made iff it changed |
| Bridge.XWaylandSurface.NetWmStates | packages/plurix/source/mir-src/server/frontend_xwayland/xwayland_surface.cpp:980-994 | the atoms pushed are exactly the state list |
| Bridge.XWaylandSurface.RequestSceneSurfaceState | packages/plurix/source/mir-src/server/frontend_xwayland/xwayland_surface.cpp:1003-1018 | appends exactly the state request for the locked surface |
| Bridge.XWaylandSurface.Map | packages/plurix/source/mir-src/server/frontend_xwayland/xwayland_surface.cpp:213-232 | workspace written, state no longer withdrawn and announced, surface asked for it, window mapped and flushed |
| Bridge.XWaylandSurface.Close | packages/plurix/source/mir-src/server/frontend_xwayland/xwayland_surface.cpp:234-289 | all references cleared; desktop deleted; withdrawn announced; unmapped; observer removed and surface destroyed as they existed; fatal iff the observer survives |
| Bridge.XWaylandSurface.TearDown | packages/plurix/source/mir-src/server/frontend_xwayland/xwayland_surface.cpp:265-288 | appends the teardown for the surface and observer that existed |
| Bridge.XWaylandSurface.TakeFocus | packages/plurix/source/mir-src/server/frontend_xwayland/xwayland_surface.cpp:291-326 | appends the focus effects for the cached protocols |
| Bridge.XWaylandSurface.ConfigureRequest | packages/plurix/source/mir-src/server/frontend_xwayland/xwayland_surface.cpp:328-391 | appends the configure-request effects for the locked surface and its parent |
| Bridge.XWaylandSurface.ConfigureNotify | packages/plurix/source/mir-src/server/frontend_xwayland/xwayland_surface.cpp:393-399 | caches the reported geometry and override-redirect and nothing else |
| Bridge.XWaylandSurface.NetWmStateClientMessage | packages/plurix/source/mir-src/server/frontend_xwayland/xwayland_surface.cpp:401-452 | the requested state is cached, announced if changed, and asked of the surface |
| Bridge.XWaylandSurface.WmChangeStateClientMessage | packages/plurix/source/mir-src/server/frontend_xwayland/xwayland_surface.cpp:454-486 | an invalid state is refused with nothing changed; NORMAL/ICONIC are cached, announced and asked of the surface |
| Bridge.XWaylandSurface.PendingSpec | packages/plurix/source/mir-src/server/frontend_xwayland/xwayland_surface.cpp:825-830 | returns the existing specification, creating an empty one only when there is none |
| Bridge.XWaylandSurface.ConsumePendingSpec | packages/plurix/source/mir-src/server/frontend_xwayland/xwayland_surface.cpp:832-839 | hands back the pending specification and leaves none |
| Bridge.XWaylandSurface.IsTransientFor | packages/plurix/source/mir-src/server/frontend_xwayland/xwayland_surface.cpp:841-932 | the pending specification gets the resolved parent and the cached top-left placed relative to it |
| Bridge.XWaylandSurface.RunHandler | packages/plurix/source/mir-src/server/frontend_xwayland/xwayland_surface.cpp:145-198 | running a handler changes the supported set and pending specification as the handler function says and nothing else |
| Bridge.XWaylandSurface.PropertyNotify | packages/plurix/source/mir-src/server/frontend_xwayland/xwayland_surface.cpp:488-523 | an unhandled property changes nothing; a handled one runs its handler, consumes the specification, and modifies the surface with what it does not already have |
| Bridge.XWaylandSurface.ReadAllProperties | packages/plurix/source/mir-src/server/frontend_xwayland/xwayland_surface.cpp:570-582 | after all reads and replies, the supported set and pending specification are those of all handlers run in table order |
| Bridge.XWaylandSurface.AttachWlSurface | packages/plurix/source/mir-src/server/frontend_xwayland/xwayland_surface.cpp:525-606 | refused with nothing changed if an observer, session or live surface exists; otherwise the surface is created from the cached geometry and handler results, the state announced, the window configured on top, and the surface published last |
| Bridge.XWaylandSurface.CreateSceneSurface | packages/plurix/source/mir-src/server/frontend_xwayland/xwayland_surface.cpp:593-605 | create, announce, configure above, then publish |
| Bridge.XWaylandSurface.LatestInputTimestamp | packages/plurix/source/mir-src/server/frontend_xwayland/xwayland_surface.cpp:1020-1031 | the observer's timestamp, or zero without an observer |
| Bridge.XWaylandSurface.MoveResize | packages/plurix/source/mir-src/server/frontend_xwayland/xwayland_surface.cpp:608-637 | appends the move/resize effects with the latest input timestamp |
| Bridge.XWaylandSurface.SceneSurfaceFocusSet | packages/plurix/source/mir-src/server/frontend_xwayland/xwayland_surface.cpp:705-716 | the window manager is told the focus, and the window is raised either way |
| Bridge.XWaylandSurface.SceneSurfaceStateSet | packages/plurix/source/mir-src/server/frontend_xwayland/xwayland_surface.cpp:718-735 | the cached state follows the reported one and is announced; the window is lowered iff the report is minimized (not hidden) |
| Bridge.XWaylandSurface.SceneSurfaceResized | packages/plurix/source/mir-src/server/frontend_xwayland/xwayland_surface.cpp:737-746 | the window gets the new size and a flush |
| Bridge.XWaylandSurface.SceneSurfaceMovedTo | packages/plurix/source/mir-src/server/frontend_xwayland/xwayland_surface.cpp:748-763 | the window moves to the new top-left plus the content offset of a live surface, which is the moved surface's content origin |
| Bridge.XWaylandSurface.SceneSurfaceCloseRequested | packages/plurix/source/mir-src/server/frontend_xwayland/xwayland_surface.cpp:765-800 | appends the close-request effects for the cached protocols |
| Bridge.XWaylandSurface.WlSurfaceDestroyed | packages/plurix/source/mir-src/server/frontend_xwayland/xwayland_surface.cpp:807-814 | the same as closing |
| Bridge.XWaylandSurface.GetSceneSurface | packages/plurix/source/mir-src/server/frontend_xwayland/xwayland_surface.cpp:816-823 | the surface iff its reference is still alive |

## Left out

- Mutexes and threads. Each method is modelled as one atomic step, and `run_on_wayland_thread` is not modelled.
- Destruction. The destructor only calls `close`, which is modelled.
- The X11 wire protocol. Requests and `flush` are logged as effects; their encoding and delivery are not modelled.
- Property reads. The asynchronous reply mechanics are not modelled; a handler is run with the decoded reply, or with `Missing` when the read fails. A reply of the wrong type counts as `Missing`.
- The container type of the property-handler table. Its entries are modelled from the constructor, but the container is declared in the class header, which is not part of this model. The model walks it in ascending atom order, as an ordered map would. If the container were unordered, only the order in which WM_NAME and `_NET_WM_NAME` overwrite the name would differ.
- The initial window state. `cached.state` is declared in the class header; the model starts it as withdrawn with no other flag.
- `get_session`, `populate_surface_data` (streams and input shape) and the window type. These are parameters of attachment or are left unmodelled; the window type is always freestyle.
- Reference counting. A weak reference is an id in `live`, and a session is taken as alive while the bridge holds it. Whether the observer outlives `close` is the parameter `observerSurvives`.
- The shell, the window manager and the observer. Their own behaviour is outside this model; the surface `create_surface` returns is a parameter.
- Logging, including the warning for an unknown move/resize direction. Log output is not modelled.
- Exceptions. `wm_change_state_client_message` and `attach_wl_surface` return `ok == false` instead of throwing, and `fatal_error` is an effect plus `fatal == true`.
- Integer widths. Window coordinates and sizes are unbounded integers; the C++ 16-bit event fields and 32-bit geometry types are not wrapped.
- Bridge.XWaylandSurface.MoveResize: the timestamp is the observer's latest input timestamp, given as a parameter; the observer's own bookkeeping is not modelled.
