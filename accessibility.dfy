/**
 * The Accessibility tree walker: a snapshot of the accessibility elements of
 * one application, each read through total accessors that report absence
 * instead of failing.
 */
module Accessibility {
  import opened Wrappers

  /** Window identifiers (`CGWindowID`). */
  type WindowId = nat

  /** Process identifiers (`pid_t`). */
  type Pid = int

  /** The raw role names the walker compares against. */
  const GroupRole: string := "AXGroup"
  const ListRole: string := "AXList"
  const ButtonRole: string := "AXButton"
  const UnknownRole: string := "AXUnknown"

  /** A frame; only the origin's `y` is ever compared. */
  datatype Rect = Rect(x: real, y: real, width: real, height: real)

  /**
   * One accessibility element as read from the tree. Every attribute is
   * optional because reading it may fail: `role` is the `AXRole` attribute,
   * `frame` the decoded `AXFrame`, `windowIds` the `AXWindowsIDs` list and
   * `children` the `AXChildren` attribute.
   */
  datatype Node = Node(
    role: Option<string>,
    frame: Option<Rect>,
    windowIds: Option<seq<WindowId>>,
    children: Option<seq<Node>>)

  /** `children()`: the children, or none when the attribute cannot be read. */
  function Children(n: Node): (r: seq<Node>)
    ensures n.children.Some? ==> r == n.children.value
    ensures n.children.None? ==> r == []
  {
    n.children.GetOr([])
  }

  /** `role()`: the role, normalised to the unknown role when it cannot be read. */
  function Role(n: Node): (r: string)
    ensures n.role.Some? ==> r == n.role.value
    ensures n.role.None? ==> r == UnknownRole
  {
    n.role.GetOr(UnknownRole)
  }

  /**
   * One window element of an application. `acceptsMain` is whether the
   * platform accepts writing 1 to its `AXMain` attribute, an input the model
   * does not interpret.
   */
  datatype AxWindow = AxWindow(handle: nat, acceptsMain: bool)

  /**
   * What the accessibility service answers about applications: `windows[pid]`
   * is the `AXWindows` attribute of the application element of `pid`; a pid
   * outside the map stands for an attribute that cannot be read.
   */
  datatype AxService = AxService(windows: map<Pid, seq<AxWindow>>)

  /** `AXUIElementCreateApplication(pid).get(.windows)`. */
  function WindowsOf(ax: AxService, pid: Pid): (r: Option<seq<AxWindow>>)
    ensures r.Some? <==> pid in ax.windows
    ensures r.Some? ==> r.value == ax.windows[pid]
  {
    if pid in ax.windows then Some(ax.windows[pid]) else None
  }
}
