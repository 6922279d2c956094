/** The records the X libraries hand back, reduced to the fields the adapter reads. */
module Xlib {

  /** A C `short`, the width of the Xinerama screen fields. */
  newtype Int16 = n: int | -0x8000 <= n < 0x8000

  /** An X window id (`xlib::Window`, an unsigned long). */
  type Xid = nat

  /** The `map_state` value Xlib calls `IsViewable`. */
  const IsViewable: int := 2

  /** `XWindowAttributes`: the geometry, root, map state and override-redirect flag of a window. */
  datatype XWindowAttributes = XWindowAttributes(
    root: Xid, x: int, y: int, width: int, height: int,
    mapState: int, overrideRedirect: int)

  /** `XineramaScreenInfo`: one physical head as Xinerama reports it. */
  datatype XineramaScreenInfo = XineramaScreenInfo(
    screenNumber: int, xOrg: Int16, yOrg: Int16, width: Int16, height: Int16)

  /** An xrandr `Monitor`: an output's name and its rectangle in pixels. */
  datatype Monitor = Monitor(name: string, x: int, y: int, widthPx: int, heightPx: int)

  /** Why the xrandr topology query failed: the handle would not open, or listing monitors failed. */
  datatype QueryFailure = OpenFailed | MonitorsFailed
}
