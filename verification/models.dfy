/**
 * Types of leftwm-core's `models` module that the geometry model reads but
 * whose definitions are not part of this model: only the constructors and
 * fields the modelled code touches are kept.
 */
module Models {

  /** A window identity: a mock handle (headless use, config-derived screens) or an X window id. */
  datatype WindowHandle = MockHandle(mock: int) | XlibHandle(xid: nat)

  /** A width limit a workspace may carry; the resolver only copies it. */
  datatype Size = Size(raw: int)

  /** A layout name a workspace may list; the resolver never reads it. */
  datatype Layout = Layout(name: string)

  /**
   * Space reserved by a dock along one screen edge: for each edge its
   * thickness and the coordinate where the strip starts along that edge.
   */
  datatype DockArea = DockArea(
    top: int, topStartX: int,
    bottom: int, bottomStartX: int,
    left: int, leftStartY: int,
    right: int, rightStartY: int)
}
