/** End-to-end scenarios of the tool, stated over the model. */
module Scenarios {
  import opened Wrappers
  import opened Accessibility
  import opened Windows
  import opened StageGroups
  import opened Activation
  import opened Cli

  function Element(role: string, children: seq<Node>): Node
  {
    Node(Some(role), None, None, Some(children))
  }

  function StageButton(frame: Rect, ids: seq<WindowId>): Node
  {
    Node(Some(ButtonRole), Some(frame), Some(ids), None)
  }

  /** The WindowManager root holding one strip list with the given buttons. */
  function Strip(buttons: seq<Node>): Node
  {
    Element("AXApplication", [Element(GroupRole, [Element(ListRole, buttons)])])
  }

  function Window(id: int, pid: Pid, name: string): WindowInfo
  {
    WindowInfo(1.0, true, 0, id, name, pid, 100, 200, 0, 0)
  }

  /** One list in one group, read back through the three role levels. */
  lemma StripCollects(buttons: seq<Node>)
    ensures Collected(Strip(buttons)) == FlatMap(FromButton, buttons)
  {
    var list := Element(ListRole, buttons);
    var group := Element(GroupRole, [list]);
    assert Role(list) == ListRole && Children(list) == buttons;
    assert Role(group) == GroupRole && Children(group) == [list];
    assert FlatMap(FromList, [list]) == FlatMap(FromList, []) + FromList(list);
    assert Children(Strip(buttons)) == [group];
    assert FlatMap(FromGroup, [group]) == FlatMap(FromGroup, []) + FromGroup(group);
  }

  lemma CompleteButtonCollected(frame: Rect, ids: seq<WindowId>)
    requires ids != []
    ensures FromButton(StageButton(frame, ids)) == [StageGroup(frame, ids)]
  {
    assert Role(StageButton(frame, ids)) == ButtonRole;
  }

  lemma TwoWindowRegistry(mail: WindowInfo, other: WindowInfo)
    requires Representable(mail) && Representable(other) && mail.id != other.id
    ensures var registry := Some([Dictionary(ToRecord(mail)), Dictionary(ToRecord(other))]);
      Lookup(registry, mail.id as nat) == Some(mail) && Lookup(registry, other.id as nat) == Some(other)
    requires mail.id >= 0 && other.id >= 0
  {
    ParseToRecord(mail);
    ParseToRecord(other);
    var entries := [Dictionary(ToRecord(mail)), Dictionary(ToRecord(other))];
    assert entries[1..] == [Dictionary(ToRecord(other))];
    assert entries[1..][1..] == [];
    assert CompactMap(entries[1..]) == [other];
    assert AllWindows(Some(entries)) == [mail, other];
  }

  lemma OneStageDiscovered(frame: Rect, ids: seq<WindowId>)
    requires ids != []
    ensures Discovered(Some(Strip([StageButton(frame, ids)]))) == [StageGroup(frame, ids)]
  {
    var button := StageButton(frame, ids);
    StripCollects([button]);
    CompleteButtonCollected(frame, ids);
    assert FlatMap(FromButton, [button]) == FlatMap(FromButton, []) + FromButton(button);
    var stage := StageGroup(frame, ids);
    assert Collected(Strip([button])) == [stage];
    assert [stage][1..] == [];
    assert SortByY([stage]) == Insert(stage, SortByY([]));
  }

  lemma Decimal100()
    ensures Decimal(100) == "100"
  {
    assert Decimal(10) == "10";
  }

  lemma Decimal200()
    ensures Decimal(200) == "200"
  {
    assert Decimal(20) == "20";
  }

  lemma MailLine(mail: WindowInfo)
    requires mail.ownerName == "Mail"
    ensures WindowLine(100, Some(mail)) == "- window #100: Mail"
  {
    Decimal100();
  }

  lemma UnnamedLine(other: WindowInfo)
    requires other.ownerName == ""
    ensures WindowLine(200, Some(other)) == "- window #200"
  {
    Decimal200();
  }

  /** The listing of one stage holding windows 100 and 200. */
  lemma OneStageListing(registry: Option<seq<Value>>, stage: StageGroup)
    requires stage.windowIds == [100, 200]
    ensures Listing([stage], registry) ==
      [GroupHeader(0), WindowLine(100, Lookup(registry, 100)), WindowLine(200, Lookup(registry, 200))]
  {
    var ids := stage.windowIds;
    var first := WindowLine(100, Lookup(registry, 100));
    var second := WindowLine(200, Lookup(registry, 200));
    WindowLinesSnoc(registry, ids, 0);
    assert ids[..0] == [] && ids[0] == 100;
    assert WindowLines(registry, ids[..1]) == [first];
    WindowLinesSnoc(registry, ids, 1);
    assert ids[..2] == ids && ids[1] == 200;
    assert WindowLines(registry, ids) == [first, second];
    ListingSnoc([stage], registry, 0);
    assert [stage][..0] == [] && [stage][..1] == [stage];
  }

  lemma FirstHeader()
    ensures GroupHeader(0) == "group #0:"
  {
    assert Decimal(0) == "0";
  }

  /**
   * One stage at height 50 holding windows 100 (owned by "Mail") and 200
   * (owner name empty) lists as a header and two window lines.
   */
  lemma ScenarioList()
    ensures var frame := Rect(0.0, 50.0, 10.0, 10.0);
      var root := Strip([StageButton(frame, [100, 200])]);
      var registry := Some([Dictionary(ToRecord(Window(100, 7, "Mail"))),
                            Dictionary(ToRecord(Window(200, 9, "")))]);
      && Discovered(Some(root)) == [StageGroup(frame, [100, 200])]
      && Listing(Discovered(Some(root)), registry) == ["group #0:", "- window #100: Mail", "- window #200"]
  {
    var frame := Rect(0.0, 50.0, 10.0, 10.0);
    OneStageDiscovered(frame, [100, 200]);
    var mail := Window(100, 7, "Mail");
    var other := Window(200, 9, "");
    TwoWindowRegistry(mail, other);
    var registry := Some([Dictionary(ToRecord(mail)), Dictionary(ToRecord(other))]);
    MailLine(mail);
    UnnamedLine(other);
    OneStageListing(registry, StageGroup(frame, [100, 200]));
    FirstHeader();
  }

  lemma TwoStagesCollected(first: StageGroup, second: StageGroup)
    requires first.windowIds != [] && second.windowIds != []
    ensures Collected(Strip([StageButton(first.frame, first.windowIds), StageButton(second.frame, second.windowIds)]))
            == [first, second]
  {
    var buttons := [StageButton(first.frame, first.windowIds), StageButton(second.frame, second.windowIds)];
    StripCollects(buttons);
    CompleteButtonCollected(first.frame, first.windowIds);
    CompleteButtonCollected(second.frame, second.windowIds);
    assert buttons[..1] == [buttons[0]] && buttons[..1][..0] == [];
    assert FlatMap(FromButton, buttons[..1]) == [first];
  }

  lemma SortTwo(first: StageGroup, second: StageGroup)
    requires second.frame.y < first.frame.y
    ensures SortByY([first, second]) == [second, first]
  {
    assert [first, second][1..] == [second];
    assert [second][1..] == [];
    assert SortByY([second]) == [second];
  }

  /** Stages found at heights 80 then 20 come out as 20 then 80. */
  lemma ScenarioSort()
    ensures var low := StageGroup(Rect(0.0, 80.0, 10.0, 10.0), [1]);
      var high := StageGroup(Rect(0.0, 20.0, 10.0, 10.0), [2]);
      var root := Strip([StageButton(low.frame, [1]), StageButton(high.frame, [2])]);
      Discovered(Some(root)) == [high, low]
  {
    var low := StageGroup(Rect(0.0, 80.0, 10.0, 10.0), [1]);
    var high := StageGroup(Rect(0.0, 20.0, 10.0, 10.0), [2]);
    TwoStagesCollected(low, high);
    SortTwo(low, high);
  }

  /** The out-of-range message names the index asked for and the number of stages. */
  lemma GroupIndexMessage()
    ensures InvalidIndex("group", "5", 3) == "invalid group index `5` >= `3`"
  {
    assert Decimal(3) == "3";
  }

  /** With three stages, asking for stage 5 fails with a message naming 5 and 3, and focuses nothing. */
  method ScenarioOutOfRange(parseUInt: string -> Option<nat>, d: Desktop) returns (out: Outcome)
    requires |Discovered(d.windowManager)| == 3 && parseUInt("5") == Some(5)
    ensures out.status == Failure && out.trace == []
    ensures out.lines == [InvalidIndex("group", "5", 3)]
  {
    var args := ["stageswitch", "5", "0"];
    assert !IsHelp(args[1]) by {
      assert |args[1]| == 1;
    }
    assert IndexBelow(args[1], parseUInt, 3).None?;
    out := Run(args, parseUInt, d);
  }

  /** Asking for help prints the usage, succeeds, and focuses nothing. */
  method ScenarioHelp(parseUInt: string -> Option<nat>, d: Desktop) returns (out: Outcome)
    ensures out.status == Success && out.trace == []
    ensures out.lines == UsageLines("stageswitch") && |out.lines| == 7
  {
    out := Run(["stageswitch", "--help"], parseUInt, d);
  }
}
