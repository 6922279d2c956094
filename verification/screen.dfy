/**
 * leftwm's geometry model: a screen's bounding box, point and dock-area
 * containment, the conversions from X records, and the resolver that turns
 * a workspace request into a screen.  Integers stand for Rust's `i32`.
 */
module Screens {
  import opened Wrappers
  import opened Models
  import opened Xlib
  import opened WorkspaceConfig

  /** A rectangle in output pixel coordinates. */
  datatype BBox = BBox(x: int, y: int, width: int, height: int)

  /** One physical output as the window manager knows it. */
  datatype Screen = Screen(root: WindowHandle, bbox: BBox, wsid: Option<int>, maxWindowWidth: Option<Size>)

  /** The fields a screen gets when nothing assigns them: mock root, no workspace, no width limit. */
  predicate Unassigned(s: Screen)
  {
    s.root == MockHandle(0) && s.wsid.None? && s.maxWindowWidth.None?
  }

  /** `Screen::new`. */
  function NewScreen(b: BBox): (s: Screen)
    ensures s.bbox == b && Unassigned(s)
    ensures forall t: Screen :: Unassigned(t) && t.bbox == b ==> t == s
  {
    Screen(MockHandle(0), b, None, None)
  }

  /** `Default for Screen`: the 800x600 box at the origin. */
  function DefaultScreen(): (s: Screen)
    ensures s == NewScreen(BBox(0, 0, 800, 600))
  {
    Screen(MockHandle(0), BBox(0, 0, 800, 600), None, None)
  }

  // ---------------------------------------------------------------------
  // Conversions
  // ---------------------------------------------------------------------

  /** `From<&Monitor> for BBox` (see also `ConversionsCopyGeometry`). */
  function BBoxFromMonitor(m: Monitor): (b: BBox)
    ensures b.x == m.x && b.y == m.y
    ensures b.width == m.widthPx && b.height == m.heightPx
  {
    BBox(m.x, m.y, m.widthPx, m.heightPx)
  }

  /** `From<&xrandr::Monitor> for Screen`: `Screen::new` of the monitor's box (see `ConversionsCopyGeometry`). */
  function ScreenFromMonitor(m: Monitor): (s: Screen)
    ensures Unassigned(s)
    ensures s.bbox == BBoxFromMonitor(m)
  {
    Screen(MockHandle(0), BBox(m.x, m.y, m.widthPx, m.heightPx), None, None)
  }

  /** `From<&XWindowAttributes> for Screen`: the root window's geometry, rooted at that window (see `ConversionsCopyGeometry`). */
  function ScreenFromAttributes(a: XWindowAttributes): (s: Screen)
    ensures s.root == XlibHandle(a.root) && s.wsid.None? && s.maxWindowWidth.None?
    ensures s.bbox == BBox(a.x, a.y, a.width, a.height)
  {
    Screen(XlibHandle(a.root), BBox(a.x, a.y, a.width, a.height), None, None)
  }

  /**
   * `From<&XineramaScreenInfo> for Screen`: the `short` fields widened to
   * `i32` without loss, so the size stays within the 16-bit range (see
   * `ConversionsCopyGeometry`).
   */
  function ScreenFromXinerama(info: XineramaScreenInfo): (s: Screen)
    ensures Unassigned(s)
    ensures s.bbox == BBox(info.xOrg as int, info.yOrg as int, info.width as int, info.height as int)
    ensures -0x8000 <= s.bbox.width < 0x8000 && -0x8000 <= s.bbox.height < 0x8000
  {
    Screen(MockHandle(0), BBox(info.xOrg as int, info.yOrg as int, info.width as int, info.height as int), None, None)
  }

  /** Every conversion copies x, y, width and height field for field, and the monitor conversions agree. */
  lemma ConversionsCopyGeometry(m: Monitor, a: XWindowAttributes, info: XineramaScreenInfo)
    ensures BBoxFromMonitor(m) == BBox(m.x, m.y, m.widthPx, m.heightPx)
    ensures ScreenFromMonitor(m) == NewScreen(BBoxFromMonitor(m))
    ensures ScreenFromMonitor(m).bbox == BBoxFromMonitor(m)
    ensures ScreenFromAttributes(a) == NewScreen(BBox(a.x, a.y, a.width, a.height)).(root := XlibHandle(a.root))
    ensures ScreenFromXinerama(info)
         == NewScreen(BBox(info.xOrg as int, info.yOrg as int, info.width as int, info.height as int))
  {
  }

  // ---------------------------------------------------------------------
  // Containment
  // ---------------------------------------------------------------------

  /** `contains_point`: the closed rectangle test, every edge inclusive. */
  predicate ContainsPoint(s: Screen, x: int, y: int)
    ensures ContainsPoint(s, x, y) ==> s.bbox.width >= 0 && s.bbox.height >= 0
  {
    var b := s.bbox;
    var maxX := b.x + b.width;
    var maxY := b.y + b.height;
    (b.x <= x && x <= maxX) && (b.y <= y && y <= maxY)
  }

  /** All four corners of a box are inside it, and one step past any edge is outside. */
  lemma EdgesAreInclusive(s: Screen)
    requires s.bbox.width >= 0 && s.bbox.height >= 0
    ensures var b := s.bbox;
      ContainsPoint(s, b.x, b.y) && ContainsPoint(s, b.x + b.width, b.y)
      && ContainsPoint(s, b.x, b.y + b.height) && ContainsPoint(s, b.x + b.width, b.y + b.height)
    ensures var b := s.bbox;
      !ContainsPoint(s, b.x - 1, b.y) && !ContainsPoint(s, b.x + b.width + 1, b.y)
      && !ContainsPoint(s, b.x, b.y - 1) && !ContainsPoint(s, b.x, b.y + b.height + 1)
  {
  }

  /** A point is inside exactly when it lies between the two vertical and the two horizontal edges. */
  lemma ContainsPointIff(s: Screen, x: int, y: int)
    ensures ContainsPoint(s, x, y) <==>
      s.bbox.x <= x <= s.bbox.x + s.bbox.width && s.bbox.y <= y <= s.bbox.y + s.bbox.height
  {
  }

  /** The edges of a dock area, in the order `contains_dock_area` tries them. */
  datatype Edge = Top | Bottom | Left | Right

  function Rank(e: Edge): nat
  {
    match e
    case Top => 0
    case Bottom => 1
    case Left => 2
    case Right => 3
  }

  /** The thickness a dock area reserves along one edge. */
  function Thickness(d: DockArea, e: Edge): int
  {
    match e
    case Top => d.top
    case Bottom => d.bottom
    case Left => d.left
    case Right => d.right
  }

  /** The first edge, in the order top, bottom, left, right, with a positive thickness. */
  function SelectedEdge(d: DockArea): (r: Option<Edge>)
    ensures r.Some? ==> Thickness(d, r.value) > 0
    ensures r.Some? ==> forall e: Edge :: Rank(e) < Rank(r.value) ==> Thickness(d, e) <= 0
    ensures r.None? <==> forall e: Edge :: Thickness(d, e) <= 0
  {
    if d.top > 0 then Some(Top)
    else if d.bottom > 0 then Some(Bottom)
    else if d.left > 0 then Some(Left)
    else if d.right > 0 then Some(Right)
    else None
  }

  /**
   * The point tested for each edge.  The bottom strip is tested at height
   * `screens_area.0 - bottom` and the right strip at abscissa
   * `screens_area.1 - right`: the first component of `screens_area` is
   * used as a height and the second as a width, which is kept as it is.
   */
  function ProbePoint(d: DockArea, e: Edge, screensArea: (int, int)): (p: (int, int))
    ensures e == Top ==> p == (d.topStartX, Thickness(d, Top))
    ensures e == Left ==> p == (Thickness(d, Left), d.leftStartY)
    ensures e == Bottom ==> p == (d.bottomStartX, screensArea.0 - Thickness(d, Bottom))
    ensures e == Right ==> p == (screensArea.1 - Thickness(d, Right), d.rightStartY)
  {
    match e
    case Top => (d.topStartX, d.top)
    case Bottom => (d.bottomStartX, screensArea.0 - d.bottom)
    case Left => (d.left, d.leftStartY)
    case Right => (screensArea.1 - d.right, d.rightStartY)
  }

  /**
   * The axis mixing of the bottom and right probes: the bottom probe reads
   * only the first component of `screens_area`, the right probe only the
   * second, and the top and left probes neither.
   */
  lemma ProbePointAxes(d: DockArea, h: int, w: int, h2: int, w2: int)
    ensures ProbePoint(d, Bottom, (h, w)) == ProbePoint(d, Bottom, (h, w2))
    ensures ProbePoint(d, Right, (h, w)) == ProbePoint(d, Right, (h2, w))
    ensures ProbePoint(d, Top, (h, w)) == ProbePoint(d, Top, (h2, w2))
    ensures ProbePoint(d, Left, (h, w)) == ProbePoint(d, Left, (h2, w2))
  {
  }

  /** `contains_dock_area`: does this screen hold the dock's strip? */
  predicate ContainsDockArea(s: Screen, d: DockArea, screensArea: (int, int))
    ensures ContainsDockArea(s, d, screensArea) ==> d.top > 0 || d.bottom > 0 || d.left > 0 || d.right > 0
  {
    if d.top > 0 then ContainsPoint(s, d.topStartX, d.top)
    else if d.bottom > 0 then ContainsPoint(s, d.bottomStartX, screensArea.0 - d.bottom)
    else if d.left > 0 then ContainsPoint(s, d.left, d.leftStartY)
    else if d.right > 0 then ContainsPoint(s, screensArea.1 - d.right, d.rightStartY)
    else false
  }

  /** Exactly one edge is tested: the selected one, at its probe point; with no positive edge the answer is false. */
  lemma DockAreaTestsSelectedEdge(s: Screen, d: DockArea, screensArea: (int, int))
    ensures ContainsDockArea(s, d, screensArea) ==
      match SelectedEdge(d)
      case None => false
      case Some(e) => var p := ProbePoint(d, e, screensArea); ContainsPoint(s, p.0, p.1)
  {
  }

  /** Only the selected edge's fields matter: two dock areas that agree on them are judged alike. */
  lemma DockAreaIgnoresOtherEdges(s: Screen, d1: DockArea, d2: DockArea, screensArea: (int, int))
    requires SelectedEdge(d1) == SelectedEdge(d2)
    requires SelectedEdge(d1).Some? ==>
      ProbePoint(d1, SelectedEdge(d1).value, screensArea) == ProbePoint(d2, SelectedEdge(d1).value, screensArea)
    ensures ContainsDockArea(s, d1, screensArea) == ContainsDockArea(s, d2, screensArea)
  {
    DockAreaTestsSelectedEdge(s, d1, screensArea);
    DockAreaTestsSelectedEdge(s, d2, screensArea);
  }

  // ---------------------------------------------------------------------
  // Resolving a workspace request
  // ---------------------------------------------------------------------

  /** Why a workspace request has no screen. */
  datatype ResolveError =
    | TopologyUnavailable(cause: QueryFailure)
    | MonitorNotFound
    | AmbiguousWorkspaceConfig

  /** The request gives all four literal coordinates. */
  predicate HasLiteralBox(wsc: Workspace)
  {
    wsc.x.Some? && wsc.y.Some? && wsc.width.Some? && wsc.height.Some?
  }

  /** Index of the first monitor from `from` on whose name is exactly `name`, as `iter().find` scans. */
  function FirstNamedFrom(monitors: seq<Monitor>, name: string, from: nat): (r: Option<nat>)
    requires from <= |monitors|
    decreases |monitors| - from
    ensures r.Some? ==> from <= r.value < |monitors| && monitors[r.value].name == name
    ensures r.Some? ==> forall j :: from <= j < r.value ==> monitors[j].name != name
    ensures r.None? <==> forall j :: from <= j < |monitors| ==> monitors[j].name != name
  {
    if from == |monitors| then None
    else if monitors[from].name == name then Some(from)
    else FirstNamedFrom(monitors, name, from + 1)
  }

  /** The first monitor named `name`, if any. */
  function FindMonitor(monitors: seq<Monitor>, name: string): (r: Option<Monitor>)
    ensures r.Some? ==> r.value in monitors && r.value.name == name
    ensures r.None? <==> forall m :: m in monitors ==> m.name != name
    ensures r.Some? ==> exists i :: 0 <= i < |monitors| && monitors[i] == r.value
                                    && forall j :: 0 <= j < i ==> monitors[j].name != name
  {
    match FirstNamedFrom(monitors, name, 0)
    case Some(i) => Some(monitors[i])
    case None => None
  }

  /**
   * `TryFrom<&Workspace> for Screen`.  `topology` is what the xrandr query
   * (open, then list monitors) returns; it is consulted only when an output
   * name is given.  The named-output case fills `y` from the request's `x`,
   * falling back to the monitor's `y`, as the code does.
   */
  function Resolve(wsc: Workspace, topology: Result<seq<Monitor>, QueryFailure>): (r: Result<Screen, ResolveError>)
    ensures r.Ok? ==> r.value.root == MockHandle(0) && r.value.wsid == wsc.id
                      && r.value.maxWindowWidth == wsc.maxWindowWidth
    ensures r.Ok? <==> (wsc.outputName.None? && HasLiteralBox(wsc))
                       || (wsc.outputName.Some? && topology.Ok?
                           && exists m :: m in topology.value && m.name == wsc.outputName.value)
    ensures r == Err(AmbiguousWorkspaceConfig) <==> wsc.outputName.None? && !HasLiteralBox(wsc)
    ensures r.Err? && r.error.TopologyUnavailable? <==> wsc.outputName.Some? && topology.Err?
    ensures r.Err? && r.error.TopologyUnavailable? ==> r.error.cause == topology.error
  {
    match (wsc.outputName, wsc.x, wsc.y, wsc.width, wsc.height)
    case (None, Some(x), Some(y), Some(width), Some(height)) =>
      Ok(Screen(MockHandle(0), BBox(x, y, width, height), wsc.id, wsc.maxWindowWidth))
    case (Some(name), _, _, _, _) =>
      (match topology
       case Err(cause) => Err(TopologyUnavailable(cause))
       case Ok(monitors) =>
         match FindMonitor(monitors, name)
         case None => Err(MonitorNotFound)
         case Some(monitor) =>
           Ok(Screen(MockHandle(0),
                     BBox(wsc.x.UnwrapOr(monitor.x),
                          wsc.x.UnwrapOr(monitor.y),
                          wsc.width.UnwrapOr(monitor.widthPx),
                          wsc.height.UnwrapOr(monitor.heightPx)),
                     wsc.id, wsc.maxWindowWidth)))
    case _ => Err(AmbiguousWorkspaceConfig)
  }

  /** With an output name absent and all four coordinates given, the literal box is used and no query result matters. */
  lemma ResolveLiteralBox(wsc: Workspace, topology: Result<seq<Monitor>, QueryFailure>)
    requires wsc.outputName.None? && HasLiteralBox(wsc)
    ensures Resolve(wsc, topology)
         == Ok(Screen(MockHandle(0), BBox(wsc.x.value, wsc.y.value, wsc.width.value, wsc.height.value),
                      wsc.id, wsc.maxWindowWidth))
  {
  }

  /** Without an output name the monitor query is never consulted: any two query outcomes give the same answer. */
  lemma ResolveWithoutNameIgnoresTopology(wsc: Workspace, t1: Result<seq<Monitor>, QueryFailure>,
                                          t2: Result<seq<Monitor>, QueryFailure>)
    requires wsc.outputName.None?
    ensures Resolve(wsc, t1) == Resolve(wsc, t2)
  {
  }

  /**
   * A named output resolves against the first monitor of that name: x, width
   * and height from the request when set, else from the monitor, and y from
   * the request's x when that is set, else from the monitor's y.
   */
  lemma ResolveNamedOutput(wsc: Workspace, monitors: seq<Monitor>, i: nat)
    requires wsc.outputName.Some?
    requires i < |monitors| && monitors[i].name == wsc.outputName.value
    requires forall j :: 0 <= j < i ==> monitors[j].name != wsc.outputName.value
    ensures Resolve(wsc, Ok(monitors))
         == Ok(Screen(MockHandle(0),
                      BBox(wsc.x.UnwrapOr(monitors[i].x), wsc.x.UnwrapOr(monitors[i].y),
                           wsc.width.UnwrapOr(monitors[i].widthPx), wsc.height.UnwrapOr(monitors[i].heightPx)),
                      wsc.id, wsc.maxWindowWidth))
  {
  }

  /** The requested y never reaches the screen of a named output: y is the request's x, or the monitor's y. */
  lemma ResolveNamedOutputIgnoresRequestedY(wsc: Workspace, y: Option<int>, topology: Result<seq<Monitor>, QueryFailure>)
    requires wsc.outputName.Some?
    ensures Resolve(wsc.(y := y), topology) == Resolve(wsc, topology)
    ensures Resolve(wsc, topology).Ok? && wsc.x.Some? ==> Resolve(wsc, topology).value.bbox.y == wsc.x.value
  {
  }

  /** A bare named output (no x, width or height requested) yields the monitor's own screen, carrying the request's id and width limit. */
  lemma ResolveBareOutputIsMonitorScreen(wsc: Workspace, monitors: seq<Monitor>)
    requires wsc.outputName.Some? && wsc.x.None? && wsc.width.None? && wsc.height.None?
    requires FindMonitor(monitors, wsc.outputName.value).Some?
    ensures Resolve(wsc, Ok(monitors))
         == Ok(ScreenFromMonitor(FindMonitor(monitors, wsc.outputName.value).value)
                 .(wsid := wsc.id, maxWindowWidth := wsc.maxWindowWidth))
  {
  }

  /** A named output that is missing, or a failed query, is an error even when all four coordinates are given. */
  lemma ResolveNamedOutputNeverFallsBack(wsc: Workspace, topology: Result<seq<Monitor>, QueryFailure>)
    requires wsc.outputName.Some?
    ensures topology.Err? ==> Resolve(wsc, topology) == Err(TopologyUnavailable(topology.error))
    ensures topology.Ok? && (forall m :: m in topology.value ==> m.name != wsc.outputName.value)
            ==> Resolve(wsc, topology) == Err(MonitorNotFound)
  {
  }

  /** The only requests that resolve when the monitor query fails are those with no output name and a full literal box. */
  lemma OnlyLiteralBoxResolvesWithoutTopology(wsc: Workspace, cause: QueryFailure)
    ensures Resolve(wsc, Err(cause)).Ok? <==> wsc.outputName.None? && HasLiteralBox(wsc)
  {
  }

  /** The default request names no output and gives no x, so it does not resolve. */
  lemma ResolveDefaultFails(topology: Result<seq<Monitor>, QueryFailure>)
    ensures Resolve(DefaultWorkspace(), topology) == Err(AmbiguousWorkspaceConfig)
  {
  }

  /** The request's layouts never influence the resolved screen. */
  lemma ResolveIgnoresLayouts(wsc: Workspace, layouts: Option<seq<Layout>>, topology: Result<seq<Monitor>, QueryFailure>)
    ensures Resolve(wsc.(layouts := layouts), topology) == Resolve(wsc, topology)
  {
  }
}
