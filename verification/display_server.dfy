/**
 * The Xlib display-server adapter: which existing windows it manages, the
 * one-time bootstrap batch it emits, and the event batches it returns.
 * Every X call is replaced by what it answered: an `XState` holds the
 * replies seen during one call, and the translated next event is an input.
 */
module XlibServer {
  import opened Wrappers
  import opened Models
  import opened Xlib
  import opened Screens

  /** A managed window, as `Window::new(handle, name)` builds it. */
  datatype Window = Window(handle: WindowHandle, name: Option<string>)

  /**
   * An item of the event queue.  `Translated` stands for the other variants
   * that the live-event translator produces; their content is not modelled.
   */
  datatype EventQueueItem =
    | ScreenCreate(screen: Screen)
    | WindowCreate(window: Window)
    | Translated(kind: int)

  /**
   * What the X server answers during one call: the root-window attributes
   * of each screen, the top-level window list (or the enumeration error),
   * and per window its attributes, its `WM_TRANSIENT_FOR` owner and its name.
   */
  datatype XState = XState(
    screens: seq<XWindowAttributes>,
    windows: Result<seq<Xid>, string>,
    attrs: map<Xid, XWindowAttributes>,
    transientFor: map<Xid, Xid>,
    names: map<Xid, string>)

  function TransientFor(x: XState, h: Xid): Option<Xid>
  {
    if h in x.transientFor then Some(x.transientFor[h]) else None
  }

  function WindowName(x: XState, h: Xid): Option<string>
  {
    if h in x.names then Some(x.names[h]) else None
  }

  /** The attribute query answers for every enumerated window (the code unwraps it). */
  predicate AttrsAvailable(x: XState)
  {
    x.windows.Ok? ==> forall h :: h in x.windows.value ==> h in x.attrs
  }

  /**
   * The eligibility rule: a window with a transient owner is managed iff it
   * is viewable; one without is managed iff it is viewable and not
   * override-redirect.
   */
  function IsManaged(attrs: XWindowAttributes, transient: Option<Xid>): (managed: bool)
    ensures managed ==> attrs.mapState == IsViewable
    ensures managed <==> attrs.mapState == IsViewable && (transient.Some? || attrs.overrideRedirect <= 0)
  {
    match transient
    case Some(_) => attrs.mapState == IsViewable
    case None => attrs.overrideRedirect <= 0 && attrs.mapState == IsViewable
  }

  /** A transient owner lifts the override-redirect exclusion, and only that. */
  lemma TransientOverridesOverrideRedirect(attrs: XWindowAttributes, owner: Xid)
    ensures IsManaged(attrs, Some(owner)) == (attrs.mapState == IsViewable)
    ensures !IsManaged(attrs, None) && attrs.mapState == IsViewable ==> IsManaged(attrs, Some(owner))
    ensures IsManaged(attrs, None) ==> IsManaged(attrs, Some(owner))
  {
  }

  predicate Eligible(x: XState, h: Xid)
    requires h in x.attrs
  {
    IsManaged(x.attrs[h], TransientFor(x, h))
  }

  /** `Window::new(WindowHandle::XlibHandle(handle), name)` with the name the server reports. */
  function MakeWindow(x: XState, h: Xid): (w: Window)
    ensures w.handle.XlibHandle? && w.handle.xid == h
    ensures w.name.Some? <==> h in x.names
    ensures w.name.Some? ==> w.name.value == x.names[h]
  {
    Window(XlibHandle(h), WindowName(x, h))
  }

  /** The windows made from the eligible handles of `hs`, in the order of `hs`. */
  function EligibleWindowsOf(x: XState, hs: seq<Xid>): (ws: seq<Window>)
    requires forall h :: h in hs ==> h in x.attrs
    ensures |ws| <= |hs|
    ensures forall w :: w in ws ==>
      w.handle.XlibHandle? && w.handle.xid in hs && Eligible(x, w.handle.xid) && w == MakeWindow(x, w.handle.xid)
    ensures forall h :: h in hs && Eligible(x, h) ==> MakeWindow(x, h) in ws
  {
    if hs == [] then []
    else
      var rest := EligibleWindowsOf(x, hs[1..]);
      if Eligible(x, hs[0]) then [MakeWindow(x, hs[0])] + rest else rest
  }

  /** Filtering a concatenation is concatenating the filtered parts: the enumeration order is kept. */
  lemma {:induction false} EligibleWindowsOfAppend(x: XState, a: seq<Xid>, b: seq<Xid>)
    requires forall h :: h in a + b ==> h in x.attrs
    ensures EligibleWindowsOf(x, a + b) == EligibleWindowsOf(x, a) + EligibleWindowsOf(x, b)
  {
    if a == [] {
      assert a + b == b;
    } else {
      assert (a + b)[1..] == a[1..] + b;
      EligibleWindowsOfAppend(x, a[1..], b);
    }
  }

  /** What `find_all_windows` returns: the eligible windows, or nothing when enumeration fails. */
  function EligibleWindows(x: XState): (ws: seq<Window>)
    requires AttrsAvailable(x)
    ensures x.windows.Err? ==> ws == []
  {
    match x.windows
    case Err(_) => []
    case Ok(hs) => EligibleWindowsOf(x, hs)
  }

  /** `find_all_windows`. */
  method FindAllWindows(x: XState) returns (all: seq<Window>)
    requires AttrsAvailable(x)
    ensures all == EligibleWindows(x)
  {
    all := [];
    match x.windows {
      case Ok(handles) =>
        for i := 0 to |handles|
          invariant all == EligibleWindowsOf(x, handles[..i])
        {
          var handle := handles[i];
          var attrs := x.attrs[handle];
          var transient := TransientFor(x, handle);
          var managed := IsManaged(attrs, transient);
          if managed {
            var w := MakeWindow(x, handle);
            all := all + [w];
          }
          assert handles[..i + 1] == handles[..i] + [handle];
          EligibleWindowsOfAppend(x, handles[..i], [handle]);
        }
        assert handles[..|handles|] == handles;
      case Err(_) =>
        // the enumeration error is logged and no window is reported
    }
  }

  /**
   * The bootstrap batch: one `ScreenCreate` per screen, then one
   * `WindowCreate` per eligible window, every `ScreenCreate` first and each
   * part in source order.
   */
  function BootstrapBatch(x: XState): (events: seq<EventQueueItem>)
    requires AttrsAvailable(x)
    ensures |events| == |x.screens| + |EligibleWindows(x)|
    ensures forall i, j :: 0 <= i < |events| && 0 <= j < |events| && events[i].WindowCreate? && events[j].ScreenCreate? ==> j < i
    ensures forall k :: 0 <= k < |x.screens| ==> events[k] == ScreenCreate(ScreenFromAttributes(x.screens[k]))
    ensures forall k :: 0 <= k < |EligibleWindows(x)| ==> events[|x.screens| + k] == WindowCreate(EligibleWindows(x)[k])
  {
    var ws := EligibleWindows(x);
    seq(|x.screens| + |ws|, i requires 0 <= i < |x.screens| + |ws| =>
      if i < |x.screens| then ScreenCreate(ScreenFromAttributes(x.screens[i]))
      else WindowCreate(ws[i - |x.screens|]))
  }

  /** `initial_events`. */
  method InitialEvents(x: XState) returns (events: seq<EventQueueItem>)
    requires AttrsAvailable(x)
    ensures events == BootstrapBatch(x)
  {
    events := [];
    // existing screens
    for i := 0 to |x.screens|
      invariant |events| == i
      invariant forall k :: 0 <= k < i ==> events[k] == ScreenCreate(ScreenFromAttributes(x.screens[k]))
    {
      var screen := ScreenFromAttributes(x.screens[i]);
      events := events + [ScreenCreate(screen)];
    }
    // existing windows
    var windows := FindAllWindows(x);
    for j := 0 to |windows|
      invariant |events| == |x.screens| + j
      invariant forall k :: 0 <= k < |x.screens| ==> events[k] == ScreenCreate(ScreenFromAttributes(x.screens[k]))
      invariant forall k :: 0 <= k < j ==> events[|x.screens| + k] == WindowCreate(windows[k])
    {
      events := events + [WindowCreate(windows[j])];
    }
  }

  // ---------------------------------------------------------------------
  // Successive calls of `get_next_events`
  // ---------------------------------------------------------------------

  /** One call of `get_next_events`: the X replies during it and what the translator made of the next event. */
  datatype Call = Call(state: XState, next: Option<EventQueueItem>)

  /** The result of one call, given whether the setup latch was already set. */
  function Step(setupDone: bool, c: Call): (events: seq<EventQueueItem>)
    requires !setupDone ==> AttrsAvailable(c.state)
    ensures setupDone ==> |events| <= 1
  {
    (if setupDone then [] else BootstrapBatch(c.state)) + c.next.ToSeq()
  }

  /** A sequence of calls the adapter can serve: the first one, if it bootstraps, needs the attribute replies. */
  predicate Servable(setupDone: bool, calls: seq<Call>)
  {
    setupDone || calls == [] || AttrsAvailable(calls[0].state)
  }

  /** The results of successive calls starting from the given latch state. */
  function Run(setupDone: bool, calls: seq<Call>): (results: seq<seq<EventQueueItem>>)
    requires Servable(setupDone, calls)
    decreases calls
    ensures |results| == |calls|
  {
    if calls == [] then []
    else [Step(setupDone, calls[0])] + Run(true, calls[1..])
  }

  /** Serving one more call extends the results by that call's step, with the latch set by any earlier call. */
  lemma {:induction false} RunAppend(setupDone: bool, calls: seq<Call>, c: Call)
    requires Servable(setupDone, calls + [c])
    decreases calls
    ensures Servable(setupDone, calls)
    ensures Run(setupDone, calls + [c]) == Run(setupDone, calls) + [Step(setupDone || |calls| > 0, c)]
  {
    if calls == [] {
      assert calls + [c] == [c];
    } else {
      assert (calls + [c])[0] == calls[0];
      assert (calls + [c])[1..] == calls[1..] + [c];
      RunAppend(true, calls[1..], c);
    }
  }

  /**
   * Only the first call from a fresh adapter carries the bootstrap batch;
   * every later call returns just the translated event, if there is one.
   */
  lemma {:induction false} BootstrapOnlyInFirstCall(setupDone: bool, calls: seq<Call>, i: nat)
    requires Servable(setupDone, calls) && i < |calls|
    decreases calls
    ensures Run(setupDone, calls)[i]
         == (if i == 0 && !setupDone then BootstrapBatch(calls[0].state) else []) + calls[i].next.ToSeq()
    ensures i > 0 || setupDone ==> |Run(setupDone, calls)[i]| <= 1
  {
    if i > 0 {
      BootstrapOnlyInFirstCall(true, calls[1..], i - 1);
    }
  }

  /** The concatenation of a sequence of batches. */
  function Flatten<T>(batches: seq<seq<T>>): (flat: seq<T>)
  {
    if batches == [] then [] else batches[0] + Flatten(batches[1..])
  }

  /** The translated events of a sequence of calls, in call order. */
  function LiveEvents(calls: seq<Call>): (events: seq<EventQueueItem>)
    ensures |events| <= |calls|
  {
    if calls == [] then [] else calls[0].next.ToSeq() + LiveEvents(calls[1..])
  }

  /**
   * Over any sequence of calls the consumer sees the bootstrap batch exactly
   * once, before every live event, and then the live events in order.
   */
  lemma {:induction false} EventStreamIsBootstrapThenLive(setupDone: bool, calls: seq<Call>)
    requires Servable(setupDone, calls)
    decreases calls
    ensures Flatten(Run(setupDone, calls))
         == (if calls != [] && !setupDone then BootstrapBatch(calls[0].state) else []) + LiveEvents(calls)
  {
    if calls != [] {
      EventStreamIsBootstrapThenLive(true, calls[1..]);
      var first := if setupDone then [] else BootstrapBatch(calls[0].state);
      var rs := Run(setupDone, calls);
      assert rs[0] == first + calls[0].next.ToSeq();
      assert rs[1..] == Run(true, calls[1..]);
      assert Flatten(rs) == rs[0] + Flatten(rs[1..]);
      assert LiveEvents(calls) == calls[0].next.ToSeq() + LiveEvents(calls[1..]);
      assert Flatten(rs) == first + LiveEvents(calls);
    }
  }

  /** The adapter object: the `SETUP` latch and the trace of windows pushed to the server. */
  class XlibDisplayServer {
    /** The one-shot `SETUP` latch. */
    var setupDone: bool
    /** The windows handed to `update_window`, in order. */
    var updated: seq<Window>
    /** The calls of `get_next_events` served so far, and their results. */
    ghost var calls: seq<Call>
    ghost var results: seq<seq<EventQueueItem>>

    ghost predicate Valid()
      reads this
    {
      setupDone == (|calls| > 0) && Servable(false, calls) && results == Run(false, calls)
    }

    /** `new`: opening the connection and installing the event masks are outside the model. */
    constructor ()
      ensures Valid()
      ensures !setupDone && updated == [] && calls == [] && results == []
    {
      setupDone := false;
      updated := [];
      calls := [];
      results := [];
    }

    /** `update_windows`: one `update_window` per window, in the given order. */
    method UpdateWindows(windows: seq<Window>)
      requires Valid()
      modifies this`updated
      ensures Valid()
      ensures updated == old(updated) + windows
    {
      for i := 0 to |windows|
        invariant updated == old(updated) + windows[..i]
      {
        updated := updated + [windows[i]];
        assert windows[..i + 1] == windows[..i] + [windows[i]];
      }
      assert windows[..|windows|] == windows;
    }

    /**
     * `get_next_events`: on the first call the bootstrap batch, then the
     * translated next event if the translator produced one.
     */
    method GetNextEvents(x: XState, next: Option<EventQueueItem>) returns (events: seq<EventQueueItem>)
      requires Valid()
      requires !setupDone ==> AttrsAvailable(x)
      modifies this`setupDone, this`calls, this`results
      ensures Valid() && setupDone
      ensures events == Step(old(setupDone), Call(x, next))
      ensures calls == old(calls) + [Call(x, next)] && results == old(results) + [events]
    {
      events := [];
      if !setupDone {
        var initial := InitialEvents(x);
        for i := 0 to |initial|
          invariant events == initial[..i]
        {
          events := events + [initial[i]];
          assert initial[..i + 1] == initial[..i] + [initial[i]];
        }
        assert initial[..|initial|] == initial;
        setupDone := true;
      }
      match next {
        case Some(e) => events := events + [e];
        case None =>
      }
      ghost var c := Call(x, next);
      assert events == Step(old(setupDone), c);
      RunAppend(false, calls, c);
      assert Run(false, calls + [c]) == results + [events];
      calls := calls + [c];
      results := results + [events];
    }
  }
}
