/** The four-flag window state the bridge keeps for a legacy window, and its
    translation to and from the compositor's native window state. */
module WindowStates {

  /** The compositor's native window states, in the order of MirWindowState;
      StatesCount is the enumeration's count value (mir_window_states). */
  datatype NativeState =
    | Unknown | Restored | Minimized | Maximized | VertMaximized
    | Fullscreen | HorizMaximized | Hidden | Attached | StatesCount

  /** The window-manager view of a window. Equality is structural over all four flags. */
  datatype WindowState = WindowState(withdrawn: bool, minimized: bool, maximized: bool, fullscreen: bool)

  /** A newly created window is unmapped: withdrawn and nothing else. */
  const InitialState := WindowState(true, false, false, false)

  predicate IsMaximizedState(n: NativeState) {
    n == Maximized || n == VertMaximized || n == HorizMaximized
  }

  /** The native state that the flags ask the compositor for: minimized wins over
      fullscreen, which wins over maximized; withdrawn plays no part. */
  function ToNative(s: WindowState): (r: NativeState)
    ensures r == Minimized <==> s.minimized
    ensures r == Fullscreen <==> !s.minimized && s.fullscreen
    ensures r == Maximized <==> !s.minimized && !s.fullscreen && s.maximized
    ensures r == Restored <==> !s.minimized && !s.fullscreen && !s.maximized
  {
    if s.minimized then Minimized
    else if s.fullscreen then Fullscreen
    else if s.maximized then Maximized
    else Restored
  }

  /** The state after the compositor reports native state `n`: never withdrawn, and
      each flag set, cleared or kept as the native state says. */
  function UpdatedFrom(s: WindowState, n: NativeState): (r: WindowState)
    ensures !r.withdrawn
    ensures r.minimized == (n == Hidden || n == Minimized || (n == StatesCount && s.minimized))
    ensures r.fullscreen ==
      (n == Fullscreen || ((n == Hidden || n == Minimized || n == StatesCount) && s.fullscreen))
    ensures r.maximized ==
      (IsMaximizedState(n) || ((n == Hidden || n == Minimized || n == Fullscreen || n == StatesCount) && s.maximized))
  {
    var updated := s.(withdrawn := false);
    match n
    case Hidden | Minimized =>
      updated.(minimized := true)
    case Fullscreen =>
      updated.(minimized := false, fullscreen := true)
    case Maximized | VertMaximized | HorizMaximized =>
      updated.(minimized := false, maximized := true, fullscreen := false)
    case Restored | Unknown | Attached =>
      updated.(minimized := false, maximized := false, fullscreen := false)
    case StatesCount =>
      updated
  }

  /** The native state a compositor-reported state stands for once the bridge has
      folded it into its flags. */
  function Canonical(n: NativeState): NativeState
    requires n != StatesCount
  {
    match n
    case Hidden | Minimized => Minimized
    case Fullscreen => Fullscreen
    case Maximized | VertMaximized | HorizMaximized => Maximized
    case Restored | Unknown | Attached => Restored
  }

  /** Withdrawn never affects the native state. */
  lemma ToNativeIgnoresWithdrawn(s: WindowState, w: bool)
    ensures ToNative(s.(withdrawn := w)) == ToNative(s)
  {
  }

  /** Round trip: updating a state from its own native state gives it back, mapped. */
  lemma UpdatedFromOwnNative(s: WindowState)
    ensures UpdatedFrom(s, ToNative(s)) == s.(withdrawn := false)
  {
  }

  /** Folding a reported native state into the flags and translating back gives the
      reported state again (up to the aliases the compositor has for it). */
  lemma UpdatedFromAgrees(s: WindowState, n: NativeState)
    requires n != StatesCount
    ensures ToNative(UpdatedFrom(s, n)) == Canonical(n)
  {
  }

  /** Applying the same reported native state twice changes nothing the second time. */
  lemma UpdatedFromIdempotent(s: WindowState, n: NativeState)
    ensures UpdatedFrom(UpdatedFrom(s, n), n) == UpdatedFrom(s, n)
  {
  }
}
