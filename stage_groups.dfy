/**
 * The Stage group resolver: walk the WindowManager's accessibility tree
 * three levels deep (group, list, button), keep every button that has a
 * frame and a non-empty window-id list, and order the result top to bottom.
 */
module StageGroups {
  import opened Wrappers
  import opened Accessibility

  /** One stage: the button's frame and the ids of the windows in it. */
  datatype StageGroup = StageGroup(frame: Rect, windowIds: seq<WindowId>)

  /** The concatenation of `f(x)` for the elements `x` of `s`, in order. */
  function FlatMap<T, U>(f: T -> seq<U>, s: seq<T>): seq<U>
  {
    if s == [] then [] else FlatMap(f, s[..|s| - 1]) + f(s[|s| - 1])
  }

  lemma FlatMapSnoc<T, U>(f: T -> seq<U>, s: seq<T>, i: nat)
    requires i < |s|
    ensures FlatMap(f, s[..i + 1]) == FlatMap(f, s[..i]) + f(s[i])
  {
    assert s[..i + 1][..i] == s[..i];
  }

  lemma {:induction false} FlatMapAppend<T, U>(f: T -> seq<U>, a: seq<T>, b: seq<T>)
    ensures FlatMap(f, a + b) == FlatMap(f, a) + FlatMap(f, b)
    decreases |b|
  {
    if b == [] {
      assert a + b == a;
    } else {
      assert (a + b)[..|a + b| - 1] == a + b[..|b| - 1];
      FlatMapAppend(f, a, b[..|b| - 1]);
    }
  }

  /** An element whose image is empty contributes nothing, wherever it stands. */
  lemma FlatMapSkip<T, U>(f: T -> seq<U>, a: seq<T>, x: T, b: seq<T>)
    requires f(x) == []
    ensures FlatMap(f, a + [x] + b) == FlatMap(f, a + b)
  {
    FlatMapAppend(f, a + [x], b);
    FlatMapAppend(f, a, b);
    assert (a + [x])[..|a|] == a;
    assert FlatMap(f, a + [x]) == FlatMap(f, a) + f(x);
  }

  lemma {:induction false} InFlatMap<T, U>(f: T -> seq<U>, s: seq<T>, y: U)
    ensures y in FlatMap(f, s) <==> exists i :: 0 <= i < |s| && y in f(s[i])
    decreases |s|
  {
    if s != [] {
      var init := s[..|s| - 1];
      InFlatMap(f, init, y);
      if y in FlatMap(f, s) {
        if y !in f(s[|s| - 1]) {
          var i :| 0 <= i < |init| && y in f(init[i]);
          assert s[i] == init[i];
        }
      } else {
        forall i | 0 <= i < |s| ensures y !in f(s[i]) {
          if i < |init| {
            assert s[i] == init[i];
          }
        }
      }
    }
  }

  /** The guard on one button: a frame, and a window-id list that is not empty. */
  predicate Complete(button: Node)
  {
    button.frame.Some? && button.windowIds.Some? && button.windowIds.value != []
  }

  /** The stage a button contributes: none unless it is a complete button. */
  function FromButton(button: Node): seq<StageGroup>
  {
    if Role(button) == ButtonRole && Complete(button) then
      [StageGroup(button.frame.value, button.windowIds.value)]
    else
      []
  }

  /** The stages below an element of role list; nothing for any other role. */
  function FromList(list: Node): seq<StageGroup>
  {
    if Role(list) == ListRole then FlatMap(FromButton, Children(list)) else []
  }

  /** The stages below an element of role group; nothing for any other role. */
  function FromGroup(group: Node): seq<StageGroup>
  {
    if Role(group) == GroupRole then FlatMap(FromList, Children(group)) else []
  }

  /** The stages collected by the traversal, in traversal order. */
  function Collected(root: Node): seq<StageGroup>
  {
    FlatMap(FromGroup, Children(root))
  }

  /** `button` is reached from `root` through children of roles group, list, button. */
  ghost predicate Reaches(root: Node, button: Node)
  {
    exists group, list ::
      group in Children(root) && Role(group) == GroupRole &&
      list in Children(group) && Role(list) == ListRole &&
      button in Children(list) && Role(button) == ButtonRole
  }

  lemma InFlatMapMember<T, U>(f: T -> seq<U>, s: seq<T>, y: U)
    ensures y in FlatMap(f, s) <==> exists x :: x in s && y in f(x)
  {
    InFlatMap(f, s, y);
    if y in FlatMap(f, s) {
      var i :| 0 <= i < |s| && y in f(s[i]);
      assert s[i] in s;
    } else {
      forall x | x in s ensures y !in f(x) {
        var i :| 0 <= i < |s| && s[i] == x;
      }
    }
  }

  /**
   * A stage is collected exactly when some complete button reached through a
   * group, list, button role path carries it, with the button's frame and
   * window ids unchanged.
   */
  lemma CollectedIff(root: Node, g: StageGroup)
    ensures g in Collected(root) <==>
      exists button :: Reaches(root, button) && Complete(button) &&
        g == StageGroup(button.frame.value, button.windowIds.value)
  {
    InFlatMapMember(FromGroup, Children(root), g);
    if g in Collected(root) {
      var group :| group in Children(root) && g in FromGroup(group);
      InFlatMapMember(FromList, Children(group), g);
      var list :| list in Children(group) && g in FromList(list);
      InFlatMapMember(FromButton, Children(list), g);
      var button :| button in Children(list) && g in FromButton(button);
      assert Reaches(root, button);
    } else {
      forall button | Reaches(root, button) && Complete(button)
        ensures g != StageGroup(button.frame.value, button.windowIds.value)
      {
        var group, list :|
          group in Children(root) && Role(group) == GroupRole &&
          list in Children(group) && Role(list) == ListRole &&
          button in Children(list) && Role(button) == ButtonRole;
        assert g !in FromGroup(group);
        InFlatMapMember(FromList, Children(group), g);
        assert g !in FromList(list);
        InFlatMapMember(FromButton, Children(list), g);
      }
    }
  }

  /** Every collected stage has a non-empty window-id list. */
  lemma CollectedNonEmpty(root: Node)
    ensures forall g :: g in Collected(root) ==> g.windowIds != []
  {
    forall g | g in Collected(root) ensures g.windowIds != [] {
      CollectedIff(root, g);
    }
  }

  /**
   * A child of the root that is not a group contributes nothing, however its
   * subtree looks: removing it leaves the collected stages unchanged.
   */
  lemma NonGroupChildIgnored(root: Node, before: seq<Node>, x: Node, after: seq<Node>)
    requires Children(root) == before + [x] + after
    requires Role(x) != GroupRole
    ensures Collected(root) == Collected(root.(children := Some(before + after)))
  {
    FlatMapSkip(FromGroup, before, x, after);
  }

  /** Likewise a child of a group that is not a list. */
  lemma NonListChildIgnored(group: Node, before: seq<Node>, x: Node, after: seq<Node>)
    requires Children(group) == before + [x] + after
    requires Role(x) != ListRole
    ensures FromGroup(group) == FromGroup(group.(children := Some(before + after)))
  {
    FlatMapSkip(FromList, before, x, after);
  }

  /**
   * A child of a list that is not a button, or a button without a frame,
   * without a window-id list or with an empty one, is skipped and the other
   * buttons of the list contribute as before.
   */
  lemma SkippedButtonIgnored(list: Node, before: seq<Node>, x: Node, after: seq<Node>)
    requires Children(list) == before + [x] + after
    requires Role(x) != ButtonRole || x.frame.None? || x.windowIds.None? || x.windowIds == Some([])
    ensures FromList(list) == FromList(list.(children := Some(before + after)))
  {
    FlatMapSkip(FromButton, before, x, after);
  }

  /** Frames in non-decreasing order of origin `y`. */
  predicate SortedByY(s: seq<StageGroup>)
  {
    forall i, j :: 0 <= i < j < |s| ==> s[i].frame.y <= s[j].frame.y
  }

  /** No stage of `s` lies above height `y`. */
  predicate NoneAbove(s: seq<StageGroup>, y: real)
  {
    forall k :: 0 <= k < |s| ==> y <= s[k].frame.y
  }

  lemma NoneAbovePermutation(a: seq<StageGroup>, b: seq<StageGroup>, y: real)
    requires multiset(a) == multiset(b) && NoneAbove(b, y)
    ensures NoneAbove(a, y)
  {
    forall k | 0 <= k < |a| ensures y <= a[k].frame.y {
      assert a[k] in multiset(b);
      var j :| 0 <= j < |b| && b[j] == a[k];
    }
  }

  lemma SortedCons(g: StageGroup, s: seq<StageGroup>)
    requires SortedByY(s) && NoneAbove(s, g.frame.y)
    ensures SortedByY([g] + s)
  {
    var r := [g] + s;
    forall i, j | 0 <= i < j < |r| ensures r[i].frame.y <= r[j].frame.y {
      if i > 0 {
        assert r[i] == s[i - 1] && r[j] == s[j - 1];
      } else {
        assert r[j] == s[j - 1];
      }
    }
  }

  /** Inserts `g` before the first stage that is not above it. */
  function Insert(g: StageGroup, s: seq<StageGroup>): (r: seq<StageGroup>)
    requires SortedByY(s)
    ensures SortedByY(r)
    ensures multiset(r) == multiset(s) + multiset{g}
  {
    if s == [] then [g]
    else if g.frame.y <= s[0].frame.y then
      SortedCons(g, s);
      [g] + s
    else
      var rest := Insert(g, s[1..]);
      assert s == [s[0]] + s[1..];
      assert NoneAbove(s[1..] + [g], s[0].frame.y);
      NoneAbovePermutation(rest, s[1..] + [g], s[0].frame.y);
      SortedCons(s[0], rest);
      [s[0]] + rest
  }

  /**
   * `groups.sorted(by: { $0.frame.origin.y < $1.frame.origin.y })`: the same
   * stages, ordered by origin `y`; stages at the same height keep their order.
   */
  function SortByY(s: seq<StageGroup>): (r: seq<StageGroup>)
    ensures SortedByY(r)
    ensures multiset(r) == multiset(s)
  {
    if s == [] then []
    else
      assert s == [s[0]] + s[1..];
      Insert(s[0], SortByY(s[1..]))
  }

  /** What discovery yields: nothing without a WindowManager, else its stages sorted. */
  function Discovered(windowManager: Option<Node>): seq<StageGroup>
  {
    match windowManager
    case None => []
    case Some(root) => SortByY(Collected(root))
  }

  /** Every discovered stage carries a non-empty window-id list. */
  lemma DiscoveredNonEmpty(windowManager: Option<Node>)
    ensures forall g :: g in Discovered(windowManager) ==> g.windowIds != []
  {
    if windowManager.Some? {
      var root := windowManager.value;
      CollectedNonEmpty(root);
      forall g | g in Discovered(windowManager) ensures g.windowIds != [] {
        assert g in multiset(Discovered(windowManager));
        assert g in multiset(Collected(root));
      }
    }
  }

  /**
   * The innermost loop of `StageGroup.all()`: for each child of a list that is
   * a button with a frame and a non-empty window-id list, append its stage.
   */
  method AppendButtons(groups: seq<StageGroup>, buttons: seq<Node>) returns (r: seq<StageGroup>)
    ensures r == groups + FlatMap(FromButton, buttons)
  {
    r := groups;
    for k := 0 to |buttons|
      invariant r == groups + FlatMap(FromButton, buttons[..k])
    {
      FlatMapSnoc(FromButton, buttons, k);
      var button := buttons[k];
      if Role(button) != ButtonRole {
        continue;
      }
      if button.frame.None? || button.windowIds.None? || button.windowIds.value == [] {
        continue;
      }
      r := r + [StageGroup(button.frame.value, button.windowIds.value)];
    }
    assert buttons[..|buttons|] == buttons;
  }

  /** `StageGroup.all()`. */
  method All(windowManager: Option<Node>) returns (groups: seq<StageGroup>)
    ensures groups == Discovered(windowManager)
  {
    if windowManager.None? {
      return [];
    }
    var root := windowManager.value;
    var collected: seq<StageGroup> := [];
    var groupNodes := Children(root);
    for i := 0 to |groupNodes|
      invariant collected == FlatMap(FromGroup, groupNodes[..i])
    {
      FlatMapSnoc(FromGroup, groupNodes, i);
      var group := groupNodes[i];
      if Role(group) != GroupRole {
        continue;
      }
      ghost var beforeGroup := collected;
      var lists := Children(group);
      for j := 0 to |lists|
        invariant collected == beforeGroup + FlatMap(FromList, lists[..j])
      {
        FlatMapSnoc(FromList, lists, j);
        var list := lists[j];
        if Role(list) != ListRole {
          continue;
        }
        assert FromList(list) == FlatMap(FromButton, Children(list));
        collected := AppendButtons(collected, Children(list));
      }
      assert lists[..|lists|] == lists;
      assert FromGroup(group) == FlatMap(FromList, lists);
    }
    assert groupNodes[..|groupNodes|] == groupNodes;
    groups := SortByY(collected);
  }

  /** Discovery yields stages in non-decreasing order of `y`, a permutation of those collected. */
  lemma DiscoveredSortedPermutation(windowManager: Option<Node>)
    ensures SortedByY(Discovered(windowManager))
    ensures windowManager.None? ==> Discovered(windowManager) == []
    ensures windowManager.Some? ==>
      multiset(Discovered(windowManager)) == multiset(Collected(windowManager.value))
  {
  }
}
