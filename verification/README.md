# leftwm display-server adapter — a verified model

This project models, in Dafny, the part of the leftwm tiling window manager
that establishes what screens and windows exist when the manager starts:

- the **geometry model** (`BBox`, `Screen`, point and dock-area containment,
  and the conversions from xrandr monitors, root-window attributes and
  Xinerama heads) — module `Screens`, file `screen.dfy`;
- the **workspace resolver** (`TryFrom<&Workspace> for Screen`), which turns a
  workspace request into a screen from literal coordinates or from a named
  xrandr output — module `Screens`, with the request record in
  `workspace_config.dfy` (module `WorkspaceConfig`);
- the **Xlib adapter** (`XlibDisplayServer`): the eligibility rule for
  pre-existing windows, `find_all_windows`, `initial_events`, the one-shot
  `SETUP` latch in `get_next_events`, and `update_windows` — module
  `XlibServer`, file `display_server.dfy`, where the adapter is a class whose
  fields are the latch and the trace of windows pushed to the server.

`wrappers.dfy` holds `Option`/`Result`, `models.dfy` the leftwm types the
code only passes around (window handles, `Size`, `Layout`, `DockArea`), and
`xlib.dfy` the X records (`XWindowAttributes`, `XineramaScreenInfo`, the
xrandr `Monitor`).

The X server is not modelled as behaviour. Each call of `get_next_events`
receives an `XState` — the replies the X calls gave during that call (the
screens' root-window attributes, the top-level window list or its error,
and per window its attributes, `WM_TRANSIENT_FOR` owner and name) — and the
result of translating the next raw event as an `Option`. The resolver
receives the outcome of the xrandr query as a `Result` and is shown not to
depend on it whenever no output name is given.

Behaviour kept exactly as the code has it:

- the named-output branch of the resolver fills `y` from the request's `x`
  (falling back to the monitor's `y`), so a requested `y` never reaches the
  screen (`ResolveNamedOutputIgnoresRequestedY`);
- `contains_dock_area` tests the bottom strip at height
  `screens_area.0 - bottom` and the right strip at abscissa
  `screens_area.1 - right`, mixing the two components of `screens_area`
  (`ProbePoint`).

`find_all_windows` unwraps each window's attribute reply, so a failed
query panics rather than skipping the window; the model makes the reply a
precondition (`AttrsAvailable`).

## Model

| member | source | states |
|---|---|---|
| `WorkspaceConfig.DefaultWorkspace` | leftwm-core/src/config/workspace_config.rs:6-16 | the derived default has all eight fields unset, and is the only workspace that does |
| `WorkspaceConfig.EqualityIsStructural` | leftwm-core/src/config/workspace_config.rs:6 | two workspaces are equal iff each of the eight fields is equal |
| `Screens.NewScreen` | leftwm-core/src/models/screen.rs:40-47 | `Screen::new(b)` has bbox `b`, mock root 0, no workspace id, no width limit, and is the only such screen |
| `Screens.DefaultScreen` | leftwm-core/src/models/screen.rs:171-185 | the default screen is `Screen::new` of the 800x600 box at the origin |
| `Screens.BBoxFromMonitor` | leftwm-core/src/models/screen.rs:27-36 | the box takes the monitor's x, y and pixel width and height |
| `Screens.ScreenFromMonitor` | leftwm-core/src/models/screen.rs:155-169 | a monitor's screen has the monitor's box, mock root 0, no workspace id and no width limit |
| `Screens.ScreenFromAttributes` | leftwm-core/src/models/screen.rs:123-137 | a root window's screen has that window's x, y, width and height, is rooted at that window, with no workspace id and no width limit |
| `Screens.ScreenFromXinerama` | leftwm-core/src/models/screen.rs:139-153 | a Xinerama head's screen has the head's origin and size widened from 16 bits without loss, mock root 0, no workspace id and no width limit |
| `Screens.ConversionsCopyGeometry` | leftwm-core/src/models/screen.rs:123-169 | every conversion copies x, y, width and height field for field; `BBox::from(&Monitor)` is the bbox of `Screen::from(&Monitor)`, which is `Screen::new` of it |
| `Screens.ContainsPoint` | leftwm-core/src/models/screen.rs:50-55 | a box with negative width or height contains no point |
| `Screens.ContainsPointIff` | leftwm-core/src/models/screen.rs:50-55 | a point is contained iff `x <= px <= x+width` and `y <= py <= y+height` |
| `Screens.EdgesAreInclusive` | leftwm-core/src/models/screen.rs:50-55 | all four corners are contained and one step past any edge is not |
| `Screens.SelectedEdge` | leftwm-core/src/models/screen.rs:58-71 | picks the first of top, bottom, left, right with positive thickness; none iff all four are <= 0 |
| `Screens.ProbePoint` | leftwm-core/src/models/screen.rs:60-70 | top and left strips are probed at their thickness on the y and x axis respectively; the bottom probe's y is `screens_area.0` minus the thickness and the right probe's x is `screens_area.1` minus the thickness; the other coordinate is the strip's start |
| `Screens.ProbePointAxes` | leftwm-core/src/models/screen.rs:64-70 | the bottom probe depends only on the first component of `screens_area`, the right probe only on the second, the top and left probes on neither |
| `Screens.ContainsDockArea` | leftwm-core/src/models/screen.rs:58-73 | the answer is false whenever top, bottom, left and right are all <= 0 |
| `Screens.DockAreaTestsSelectedEdge` | leftwm-core/src/models/screen.rs:58-72 | the answer is `contains_point` at the selected edge's literal probe point (axis-mixed for bottom and right), false when no edge is selected |
| `Screens.DockAreaIgnoresOtherEdges` | leftwm-core/src/models/screen.rs:58-71 | dock areas agreeing on the selected edge and its probe point get the same answer: only one edge is tested |
| `Screens.FirstNamedFrom` | leftwm-core/src/models/screen.rs:102-105 | the index found is the first monitor with exactly that name; none iff no monitor has it |
| `Screens.FindMonitor` | leftwm-core/src/models/screen.rs:102-105 | `iter().find` returns a monitor of that name that no earlier monitor shares, or none iff the name is absent |
| `Screens.Resolve` | leftwm-core/src/models/screen.rs:79-120 | success iff (no output name and all four coordinates) or (a name, a successful query and a monitor with that name); success carries `wsid = id`, the width limit and mock root 0; ambiguous iff no name and a coordinate missing; topology error iff a name and a failed query |
| `Screens.ResolveLiteralBox` | leftwm-core/src/models/screen.rs:87-97 | no output name and all four coordinates give exactly the literal box, id, width limit and mock root |
| `Screens.ResolveWithoutNameIgnoresTopology` | leftwm-core/src/models/screen.rs:80-118 | with no output name the answer is the same for every query outcome: no query is made |
| `Screens.ResolveNamedOutput` | leftwm-core/src/models/screen.rs:98-116 | a named output uses the first matching monitor: x, width, height from the request else the monitor, y from the request's x else the monitor's y |
| `Screens.ResolveNamedOutputIgnoresRequestedY` | leftwm-core/src/models/screen.rs:111-112 | for a named output the requested y changes nothing, and a requested x becomes the screen's y |
| `Screens.ResolveBareOutputIsMonitorScreen` | leftwm-core/src/models/screen.rs:98-116 | a bare named output resolves to `Screen::from(&monitor)` with the request's id and width limit |
| `Screens.ResolveNamedOutputNeverFallsBack` | leftwm-core/src/models/screen.rs:99-105 | a failed query or an absent name gives an error even when all four coordinates are given |
| `Screens.OnlyLiteralBoxResolvesWithoutTopology` | leftwm-core/src/models/screen.rs:80-118 | with a failed query, a request resolves iff it has no output name and all four coordinates |
| `Screens.ResolveDefaultFails` | leftwm-core/src/models/screen.rs:118 | the default workspace is rejected as ambiguous |
| `Screens.ResolveIgnoresLayouts` | leftwm-core/src/models/screen.rs:79-120 | the request's layouts never change the result |
| `XlibServer.IsManaged` | src/display_servers/xlib_display_server/mod.rs:75-79 | managed iff viewable (map state 2) and either a transient owner exists or override-redirect is <= 0 |
| `XlibServer.TransientOverridesOverrideRedirect` | src/display_servers/xlib_display_server/mod.rs:76-79 | with a transient owner only viewability counts; an owner never turns a managed window unmanaged |
| `XlibServer.MakeWindow` | src/display_servers/xlib_display_server/mod.rs:81-82 | the window gets the X handle it was enumerated under, and a name exactly when the name query answers |
| `XlibServer.EligibleWindowsOf` | src/display_servers/xlib_display_server/mod.rs:72-85 | every window returned is built from an enumerated eligible handle and its name, and every eligible handle yields one |
| `XlibServer.EligibleWindowsOfAppend` | src/display_servers/xlib_display_server/mod.rs:72-85 | filtering a concatenation concatenates the filtered parts: enumeration order is kept |
| `XlibServer.EligibleWindows` | src/display_servers/xlib_display_server/mod.rs:87-91 | a failed enumeration yields no windows |
| `XlibServer.FindAllWindows` | src/display_servers/xlib_display_server/mod.rs:66-92 | the loop returns exactly the eligible windows in enumeration order, or nothing on enumeration error |
| `XlibServer.InitialEvents` | src/display_servers/xlib_display_server/mod.rs:50-64 | the two loops build exactly the bootstrap batch |
| `XlibServer.BootstrapBatch` | src/display_servers/xlib_display_server/mod.rs:50-64 | the batch `initial_events` returns has |screens| + |eligible windows| items, every `ScreenCreate` before every `WindowCreate`, the screens converted in their order and the eligible windows in enumeration order |
| `XlibServer.Step` | src/display_servers/xlib_display_server/mod.rs:30-43 | once the latch is set a call returns at most one event |
| `XlibServer.Run` | src/display_servers/xlib_display_server/mod.rs:30-43 | successive calls give one result per call |
| `XlibServer.RunAppend` | src/display_servers/xlib_display_server/mod.rs:30-43 | one more call adds exactly its own step, with the latch set if any call came before |
| `XlibServer.BootstrapOnlyInFirstCall` | src/display_servers/xlib_display_server/mod.rs:32-41 | call i returns the bootstrap batch only if it is the first call of a fresh adapter, followed by the translated event iff there is one; later results have length <= 1 |
| `XlibServer.LiveEvents` | src/display_servers/xlib_display_server/mod.rs:37-41 | calls contribute at most one live event each |
| `XlibServer.EventStreamIsBootstrapThenLive` | src/display_servers/xlib_display_server/mod.rs:30-43 | across any calls the consumer sees the bootstrap batch once, before all live events, then the live events in order |
| `XlibServer.XlibDisplayServer.constructor` | src/display_servers/xlib_display_server/mod.rs:18-22 | a new adapter has the latch clear, no pushed windows and no calls served |
| `XlibServer.XlibDisplayServer.UpdateWindows` | src/display_servers/xlib_display_server/mod.rs:24-28 | the pushed trace grows by exactly the given windows, in order |
| `XlibServer.XlibDisplayServer.GetNextEvents` | src/display_servers/xlib_display_server/mod.rs:30-43 | returns the step for the current latch state, sets the latch, and keeps the served history equal to `Run` from a fresh adapter |

## Left out

- X11 and xrandr I/O: `XWrap::new`/`init`, `get_screens`, `get_all_windows`, `get_window_attrs`, `get_transient_for`, `get_window_name`, `get_next_event` and `XHandle::open`/`monitors` are foreign calls; their replies are inputs (`XState`, the resolver's `topology`), not behaviour.
- `xwrap.rs` is not part of this model: the screens `get_screens` returns are taken to be root-window `XWindowAttributes`, converted with `From<&XWindowAttributes>`.
- `update_window`'s effect on the server: `UpdateWindows` records the pushed windows as a trace.
- `event_translate::from_xevent` is not part of this model: its result is the `next` input, and its other event variants are the opaque `Translated` item.
- The `SETUP` latch is a process-wide, thread-safe `std::sync::Once`; the model keeps it as a field of one adapter and serves calls sequentially, so a second adapter in the same process (which would never bootstrap) and concurrent first calls are not modelled.
- A failed attribute query panics in the code (`unwrap`); it is a precondition (`AttrsAvailable`), so no failure path exists in the model.
- Rust's `i32`: coordinates are unbounded integers, so the unguarded overflow of `x + width` in `contains_point` and of the dock-area subtractions is not modelled.
- Window records carry only the handle and name that `Window::new` receives; `Size`, `Layout`, `WindowHandle` and `DockArea` keep only the constructors and fields the code touches.
- Serde derives, the error message texts ("foo", "could not find monitor", "could not open xrandr") and the `println!` on enumeration error: no logic to verify; errors are the tagged `ResolveError`.
- XlibServer.Run: its own contract states only the result count; what each result holds is stated by `RunAppend`, `BootstrapOnlyInFirstCall` and `EventStreamIsBootstrapThenLive`.
