/** Values of the X11 protocol that the surface bridge reads and writes:
    32-bit words, atoms, window handles and the constants of ICCCM and EWMH. */
module Xcb {

  /** An unsigned 32-bit word, the unit of every X11 property and client-message field. */
  newtype uint32 = x: int | 0 <= x < 0x1_0000_0000

  type Window = uint32
  type Atom = uint32

  /** XCB_WINDOW_NONE and the "no atom" value that ends a short property list. */
  const WINDOW_NONE: Window := 0
  const ATOM_NONE: Atom := 0

  /** XCB_CURRENT_TIME, the timestamp sent with WM_TAKE_FOCUS and WM_DELETE_WINDOW. */
  const CURRENT_TIME: uint32 := 0

  /** Predefined atoms of the core protocol (their values are fixed by X11). */
  const ATOM_WM_NAME: Atom := 39
  const ATOM_WM_CLASS: Atom := 67
  const ATOM_WM_TRANSIENT_FOR: Atom := 68
  const LAST_PREDEFINED_ATOM: Atom := 68

  /** Bits of the value mask of a ConfigureRequest event. */
  const CONFIG_WINDOW_X: bv16 := 1
  const CONFIG_WINDOW_Y: bv16 := 2
  const CONFIG_WINDOW_WIDTH: bv16 := 4
  const CONFIG_WINDOW_HEIGHT: bv16 := 8

  /** WM_STATE values, section 4.1.3.1 of ICCCM. */
  const WM_STATE_WITHDRAWN: uint32 := 0
  const WM_STATE_NORMAL: uint32 := 1
  const WM_STATE_ICONIC: uint32 := 3

  /** The actions of a _NET_WM_STATE request ("Application Window Properties", EWMH 1.3). */
  const NET_WM_STATE_REMOVE: uint32 := 0
  const NET_WM_STATE_ADD: uint32 := 1
  const NET_WM_STATE_TOGGLE: uint32 := 2

  /** The workspace written to _NET_WM_DESKTOP when a window is mapped. */
  const WORKSPACE: uint32 := 1

  /** The atoms the connection interns once at start-up and shares with every bridge. */
  datatype AtomTable = AtomTable(
    netWmName: Atom,
    wmProtocols: Atom,
    wmTakeFocus: Atom,
    wmDeleteWindow: Atom,
    wmState: Atom,
    netWmState: Atom,
    netWmStateHidden: Atom,
    netWmStateMaximizedHorz: Atom,
    netWmStateMaximizedVert: Atom,
    netWmStateFullscreen: Atom,
    netWmDesktop: Atom)
  {
    /** Interned atoms come after the predefined ones, and atoms interned for
        different names are different. */
    predicate Valid() {
      && netWmName > LAST_PREDEFINED_ATOM
      && wmProtocols > LAST_PREDEFINED_ATOM
      && netWmStateHidden > LAST_PREDEFINED_ATOM
      && netWmStateMaximizedHorz > LAST_PREDEFINED_ATOM
      && netWmStateMaximizedVert > LAST_PREDEFINED_ATOM
      && netWmStateFullscreen > LAST_PREDEFINED_ATOM
      && wmState > LAST_PREDEFINED_ATOM
      && netWmState > LAST_PREDEFINED_ATOM
      && netWmDesktop > LAST_PREDEFINED_ATOM
      && netWmName != wmProtocols
      && wmState != netWmState
      && wmState != netWmDesktop
      && netWmState != netWmDesktop
      && netWmStateHidden != netWmStateMaximizedHorz
      && netWmStateHidden != netWmStateMaximizedVert
      && netWmStateHidden != netWmStateFullscreen
      && netWmStateMaximizedHorz != netWmStateMaximizedVert
      && netWmStateMaximizedHorz != netWmStateFullscreen
      && netWmStateMaximizedVert != netWmStateFullscreen
    }
  }
}
