/**
 * The Window activator: make a window's first accessibility window the main
 * one of its application, and bring that application forward only when the
 * write was accepted. Effects are recorded as a trace of actions.
 */
module Activation {
  import opened Wrappers
  import opened Accessibility
  import opened Windows
  import opened StageGroups

  /**
   * What the activator asks of the platform: a write of 1 to the `AXMain`
   * attribute of a window element of `pid` (and whether it was accepted),
   * and `NSRunningApplication.activate()` on `pid`.
   */
  datatype Action =
    | SetMain(pid: Pid, window: nat, accepted: bool)
    | Activate(pid: Pid)

  /**
   * The platform services as one snapshot: the WindowManager's root
   * accessibility element (none when the WindowManager is not running), the
   * accessibility service, the window registry's answer, and the processes
   * `NSRunningApplication(processIdentifier:)` finds.
   */
  datatype Desktop = Desktop(
    windowManager: Option<Node>,
    ax: AxService,
    registry: Option<seq<Value>>,
    running: set<Pid>)

  datatype MainResult = MainResult(ok: bool, writes: seq<Action>)

  /** The first window element of `pid`, if its window list can be read and is not empty. */
  function FirstWindow(ax: AxService, pid: Pid): (r: Option<AxWindow>)
    ensures r.Some? <==> pid in ax.windows && ax.windows[pid] != []
    ensures r.Some? ==> r.value == ax.windows[pid][0]
  {
    var windows :- WindowsOf(ax, pid);
    if windows == [] then None else Some(windows[0])
  }

  /**
   * `becomeMain(id:pid:)`. The window id is not consulted: the write goes to
   * the first window element of the process, whichever window that is.
   */
  function BecomeMain(ax: AxService, id: WindowId, pid: Pid): (r: MainResult)
    ensures |r.writes| <= 1
    ensures r.writes != [] <==> pid in ax.windows && ax.windows[pid] != []
    ensures r.writes != [] ==> r.writes[0] == SetMain(pid, ax.windows[pid][0].handle, r.ok)
    ensures r.ok <==> pid in ax.windows && ax.windows[pid] != [] && ax.windows[pid][0].acceptsMain
  {
    match FirstWindow(ax, pid)
    case None => MainResult(false, [])
    case Some(window) => MainResult(window.acceptsMain, [SetMain(pid, window.handle, window.acceptsMain)])
  }

  /** The requested window id never changes what `becomeMain` does. */
  lemma BecomeMainIgnoresId(ax: AxService, id1: WindowId, id2: WindowId, pid: Pid)
    ensures BecomeMain(ax, id1, pid) == BecomeMain(ax, id2, pid)
  {
  }

  /** Each activation directly follows an accepted `AXMain` write for the same process. */
  predicate Guarded(trace: seq<Action>)
  {
    forall k :: 0 <= k < |trace| && trace[k].Activate? ==>
      0 < k && trace[k - 1].SetMain? && trace[k - 1].accepted && trace[k - 1].pid == trace[k].pid
  }

  /** The number of activations in a trace. */
  function Activations(trace: seq<Action>): nat
  {
    if trace == [] then 0
    else Activations(trace[..|trace| - 1]) + (if trace[|trace| - 1].Activate? then 1 else 0)
  }

  /** The trace of `focusWindow(id:pid:)`: the `becomeMain` write, then an activation only if it was accepted. */
  predicate FocusesWindow(trace: seq<Action>, d: Desktop, id: WindowId, pid: Pid)
  {
    var main := BecomeMain(d.ax, id, pid);
    && (trace == main.writes || trace == main.writes + [Activate(pid)])
    && (Activate(pid) in trace <==> main.ok && pid in d.running)
  }

  /** The trace of focusing window `id`: nothing unless the registry knows it. */
  predicate FocusesId(trace: seq<Action>, d: Desktop, id: WindowId)
  {
    match Lookup(d.registry, id)
    case None => trace == []
    case Some(w) => FocusesWindow(trace, d, id, w.ownerPID)
  }

  lemma ActivationsSingle(a: Action)
    ensures Activations([a]) == if a.Activate? then 1 else 0
  {
    assert [a][..0] == [];
  }

  /**
   * A `focusWindow` trace holds at most one activation, and only right after an
   * accepted write of `AXMain`; a rejected or impossible write means no activation.
   */
  lemma FocusesWindowSafe(trace: seq<Action>, d: Desktop, id: WindowId, pid: Pid)
    requires FocusesWindow(trace, d, id, pid)
    ensures Guarded(trace)
    ensures Activations(trace) <= 1
    ensures !BecomeMain(d.ax, id, pid).ok ==> forall a :: a in trace ==> !a.Activate?
    ensures forall a :: a in trace ==> a.pid == pid
  {
    var main := BecomeMain(d.ax, id, pid);
    if main.writes != [] {
      ActivationsSingle(main.writes[0]);
      assert main.writes == [main.writes[0]];
      assert (main.writes + [Activate(pid)])[..1] == main.writes;
    }
    if trace == main.writes + [Activate(pid)] {
      assert Activate(pid) in trace;
      assert trace[|trace| - 1] == Activate(pid);
    }
  }

  /**
   * `activate()` is called exactly once when the write was accepted and the
   * process is running, and never otherwise.
   */
  lemma ActivatesOnce(trace: seq<Action>, d: Desktop, id: WindowId, pid: Pid)
    requires FocusesWindow(trace, d, id, pid)
    ensures var main := BecomeMain(d.ax, id, pid);
      main.ok && pid in d.running ==> trace == main.writes + [Activate(pid)] && Activations(trace) == 1
    ensures var main := BecomeMain(d.ax, id, pid);
      !(main.ok && pid in d.running) ==> trace == main.writes && Activations(trace) == 0
  {
    var main := BecomeMain(d.ax, id, pid);
    assert Activate(pid) !in main.writes;
    if main.writes != [] {
      ActivationsSingle(main.writes[0]);
      assert main.writes == [main.writes[0]];
      assert (main.writes + [Activate(pid)])[..1] == main.writes;
    }
    if main.ok && pid in d.running {
      assert trace == main.writes + [Activate(pid)];
      assert trace[..|trace| - 1] == main.writes;
    }
  }

  /** The focusing relations describe exactly one trace. */
  lemma FocusesIdDeterministic(t1: seq<Action>, t2: seq<Action>, d: Desktop, id: WindowId)
    requires FocusesId(t1, d, id) && FocusesId(t2, d, id)
    ensures t1 == t2
  {
    match Lookup(d.registry, id)
    case None =>
    case Some(w) =>
      var main := BecomeMain(d.ax, id, w.ownerPID);
      assert Activate(w.ownerPID) !in main.writes;
      assert Activate(w.ownerPID) in main.writes + [Activate(w.ownerPID)];
  }

  /** `focusWindow(id:pid:)`. */
  method FocusWindow(d: Desktop, id: WindowId, pid: Pid) returns (trace: seq<Action>)
    ensures FocusesWindow(trace, d, id, pid)
    ensures Guarded(trace) && Activations(trace) <= 1
  {
    var main := BecomeMain(d.ax, id, pid);
    trace := main.writes;
    assert Activate(pid) !in trace;
    if main.ok {
      if pid in d.running {
        trace := trace + [Activate(pid)];
      }
    }
    FocusesWindowSafe(trace, d, id, pid);
  }

  /** `StageGroup.focus(nth:)`. */
  method Focus(d: Desktop, group: StageGroup, windowIndex: nat) returns (trace: seq<Action>)
    ensures windowIndex >= |group.windowIds| ==> trace == []
    ensures windowIndex < |group.windowIds| ==> FocusesId(trace, d, group.windowIds[windowIndex])
    ensures Guarded(trace) && Activations(trace) <= 1
  {
    if windowIndex >= |group.windowIds| {
      return [];
    }
    var windowId := group.windowIds[windowIndex];
    var window := Lookup(d.registry, windowId);
    if window.Some? {
      trace := FocusWindow(d, windowId, window.value.ownerPID);
    } else {
      trace := [];
    }
  }
}
