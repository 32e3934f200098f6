/**
 * The command-line front end: discover the stages, then list them, print
 * usage, report a bad argument, or focus one window, from the arguments.
 */
module Cli {
  import opened Wrappers
  import opened Accessibility
  import opened Windows
  import opened StageGroups
  import opened Activation

  datatype Exit = Success | Failure

  /** What a run leaves behind: its exit status, the lines it printed, and its effects. */
  datatype Outcome = Outcome(status: Exit, lines: seq<string>, trace: seq<Action>)

  predicate IsDigit(c: char) { '0' <= c <= '9' }

  function Digit(d: nat): (c: char)
    requires d < 10
    ensures IsDigit(c) && c as int - '0' as int == d
  {
    ('0' as int + d) as char
  }

  /** The decimal text of `n`, as string interpolation writes it. */
  function Decimal(n: nat): string
  {
    if n < 10 then [Digit(n)] else Decimal(n / 10) + [Digit(n % 10)]
  }

  /** The decimal text is a non-empty string of digits without a leading zero. */
  lemma {:induction false} DecimalDigits(n: nat)
    ensures |Decimal(n)| >= 1
    ensures forall i :: 0 <= i < |Decimal(n)| ==> IsDigit(Decimal(n)[i])
    ensures |Decimal(n)| > 1 ==> Decimal(n)[0] != '0'
  {
    if n >= 10 {
      DecimalDigits(n / 10);
    }
  }

  /** The number a string of decimal digits denotes. */
  function DecimalValue(s: string): int
  {
    if s == [] then 0
    else DecimalValue(s[..|s| - 1]) * 10 + (s[|s| - 1] as int - '0' as int)
  }

  /** The printed number is the number. */
  lemma {:induction false} DecimalRoundTrip(n: nat)
    ensures DecimalValue(Decimal(n)) == n
  {
    if n >= 10 {
      DecimalRoundTrip(n / 10);
      var s := Decimal(n);
      assert s[..|s| - 1] == Decimal(n / 10);
    }
  }

  /** The owner-name suffix of a window line: empty unless a record names an owner. */
  function Title(info: Option<WindowInfo>): string
  {
    match info
    case Some(w) => if w.ownerName != [] then ": " + w.ownerName else ""
    case None => ""
  }

  const WindowPrefix: string := "- window #"

  /** The line for window `id`, given what the registry lookup found for it. */
  function WindowLine(id: WindowId, info: Option<WindowInfo>): string
  {
    WindowPrefix + Decimal(id) + Title(info)
  }

  /**
   * A window line is `- window #<id>: <ownerName>` when the lookup found a
   * record with a non-empty owner name, and `- window #<id>` otherwise.
   */
  lemma WindowLineFormat(id: WindowId, info: Option<WindowInfo>)
    ensures WindowLine(id, info) ==
      if info.Some? && info.value.ownerName != [] then WindowPrefix + Decimal(id) + ": " + info.value.ownerName
      else WindowPrefix + Decimal(id)
  {
  }

  /** The digits after the prefix of a window line denote the window's id. */
  lemma WindowLineNamesId(id: WindowId, info: Option<WindowInfo>)
    ensures |WindowLine(id, info)| >= |WindowPrefix| + |Decimal(id)|
    ensures DecimalValue(WindowLine(id, info)[|WindowPrefix|..|WindowPrefix| + |Decimal(id)|]) == id
  {
    var digits := Decimal(id);
    var line := WindowPrefix + digits + Title(info);
    assert line[|WindowPrefix|..|WindowPrefix| + |digits|] == digits;
    DecimalRoundTrip(id);
  }

  const GroupPrefix: string := "group #"

  /** The header line of stage `i`. */
  function GroupHeader(i: nat): string
  {
    GroupPrefix + Decimal(i) + ":"
  }

  /** A header is `group #`, the digits of the stage's index, then a colon. */
  lemma GroupHeaderNamesIndex(i: nat)
    ensures |GroupHeader(i)| == |GroupPrefix| + |Decimal(i)| + 1
    ensures GroupHeader(i)[..|GroupPrefix|] == GroupPrefix
    ensures GroupHeader(i)[|GroupHeader(i)| - 1] == ':'
    ensures DecimalValue(GroupHeader(i)[|GroupPrefix|..|GroupHeader(i)| - 1]) == i
  {
    var digits := Decimal(i);
    var header := GroupPrefix + digits + ":";
    assert header[|GroupPrefix|..|header| - 1] == digits;
    DecimalRoundTrip(i);
  }

  function WindowLines(registry: Option<seq<Value>>, ids: seq<WindowId>): (r: seq<string>)
    ensures |r| == |ids|
  {
    if ids == [] then []
    else
      var id := ids[|ids| - 1];
      WindowLines(registry, ids[..|ids| - 1]) + [WindowLine(id, Lookup(registry, id))]
  }

  /** Line `k` of a stage's window lines is the line for its `k`-th window id. */
  lemma {:induction false} WindowLinesContents(registry: Option<seq<Value>>, ids: seq<WindowId>)
    ensures forall k :: 0 <= k < |ids| ==>
      WindowLines(registry, ids)[k] == WindowLine(ids[k], Lookup(registry, ids[k]))
    decreases |ids|
  {
    if ids != [] {
      var n := |ids| - 1;
      var init := ids[..n];
      WindowLinesContents(registry, init);
      var r := WindowLines(registry, ids);
      assert r == WindowLines(registry, init) + [WindowLine(ids[n], Lookup(registry, ids[n]))];
      forall k | 0 <= k < |ids| ensures r[k] == WindowLine(ids[k], Lookup(registry, ids[k])) {
        if k < n {
          assert ids[k] == init[k];
        }
      }
    }
  }

  /** The listing: per stage, in order, its header and one line per window. */
  function Listing(groups: seq<StageGroup>, registry: Option<seq<Value>>): seq<string>
  {
    if groups == [] then []
    else
      var n := |groups| - 1;
      Listing(groups[..n], registry) + [GroupHeader(n)] + WindowLines(registry, groups[n].windowIds)
  }

  /** The listing has one header per stage and one line per window. */
  function LineCount(groups: seq<StageGroup>): nat
  {
    if groups == [] then 0 else LineCount(groups[..|groups| - 1]) + 1 + |groups[|groups| - 1].windowIds|
  }

  lemma {:induction false} ListingLength(groups: seq<StageGroup>, registry: Option<seq<Value>>)
    ensures |Listing(groups, registry)| == LineCount(groups)
    decreases |groups|
  {
    if groups != [] {
      ListingLength(groups[..|groups| - 1], registry);
    }
  }

  function UsageLines(program: string): seq<string>
  {
    [ "usage:",
      "\t" + program,
      "\t\tprint stages on screen",
      "usage: " + program + " [group]",
      "\t\tfocus first window of nth group",
      "usage: " + program + " [group] [window]",
      "\t\tfocus nth window of nth group" ]
  }

  predicate IsHelp(arg: string)
  {
    arg == "-h" || arg == "--help"
  }

  /** The window argument, `"0"` when only a group is given. */
  function WindowArg(args: seq<string>): string
    requires |args| >= 2
  {
    if |args| == 3 then args[2] else "0"
  }

  /** An argument that parses as an unsigned number below `bound`. */
  function IndexBelow(raw: string, parseUInt: string -> Option<nat>, bound: nat): (r: Option<nat>)
    ensures r.Some? <==> parseUInt(raw).Some? && parseUInt(raw).value < bound
    ensures r.Some? ==> r == parseUInt(raw) && r.value < bound
  {
    var n :- parseUInt(raw);
    if n < bound then Some(n) else None
  }

  function InvalidIndex(what: string, raw: string, bound: nat): string
  {
    "invalid " + what + " index `" + raw + "` >= `" + Decimal(bound) + "`"
  }

  /**
   * The message quotes the rejected argument verbatim and ends with the
   * digits of the bound in backticks.
   */
  lemma InvalidIndexNamesBound(what: string, raw: string, bound: nat)
    ensures var lead := "invalid " + what + " index `" + raw + "` >= `";
      var m := InvalidIndex(what, raw, bound);
      && |m| == |lead| + |Decimal(bound)| + 1
      && m[..|lead|] == lead
      && m[|m| - 1] == '`'
      && DecimalValue(m[|lead|..|m| - 1]) == bound
  {
    var lead := "invalid " + what + " index `" + raw + "` >= `";
    var m := lead + Decimal(bound) + "`";
    assert m[|lead|..|m| - 1] == Decimal(bound);
    DecimalRoundTrip(bound);
  }

  /** The run reaches `focus`: two or three arguments, not help, both indices in range. */
  predicate FocusRequested(args: seq<string>, parseUInt: string -> Option<nat>, groups: seq<StageGroup>)
  {
    && 2 <= |args| <= 3
    && !IsHelp(args[1])
    && IndexBelow(args[1], parseUInt, |groups|).Some?
    && IndexBelow(WindowArg(args), parseUInt,
                  |groups[IndexBelow(args[1], parseUInt, |groups|).value].windowIds|).Some?
  }

  lemma WindowLinesSnoc(registry: Option<seq<Value>>, ids: seq<WindowId>, j: nat)
    requires j < |ids|
    ensures WindowLines(registry, ids[..j + 1]) == WindowLines(registry, ids[..j]) + [WindowLine(ids[j], Lookup(registry, ids[j]))]
  {
    assert ids[..j + 1][..j] == ids[..j];
  }

  lemma ListingSnoc(groups: seq<StageGroup>, registry: Option<seq<Value>>, i: nat)
    requires i < |groups|
    ensures Listing(groups[..i + 1], registry) ==
            Listing(groups[..i], registry) + [GroupHeader(i)] + WindowLines(registry, groups[i].windowIds)
  {
    assert groups[..i + 1][..i] == groups[..i];
  }

  /** The inner listing loop: one line per window of a stage, appended to `lines`. */
  method AppendWindowLines(lines: seq<string>, registry: Option<seq<Value>>, windowIds: seq<WindowId>)
    returns (r: seq<string>)
    ensures r == lines + WindowLines(registry, windowIds)
  {
    r := lines;
    for j := 0 to |windowIds|
      invariant r == lines + WindowLines(registry, windowIds[..j])
    {
      WindowLinesSnoc(registry, windowIds, j);
      var window := Lookup(registry, windowIds[j]);
      r := r + [WindowLine(windowIds[j], window)];
    }
    assert windowIds[..|windowIds|] == windowIds;
  }

  /** The listing loop of the script: a header per stage, then a line per window. */
  method ListStages(groups: seq<StageGroup>, registry: Option<seq<Value>>) returns (lines: seq<string>)
    ensures lines == Listing(groups, registry)
  {
    lines := [];
    for i := 0 to |groups|
      invariant lines == Listing(groups[..i], registry)
    {
      ListingSnoc(groups, registry, i);
      lines := lines + [GroupHeader(i)];
      lines := AppendWindowLines(lines, registry, groups[i].windowIds);
    }
    assert groups[..|groups|] == groups;
  }

  /** The top-level script, after discovery has produced `groups`. */
  method Run(args: seq<string>, parseUInt: string -> Option<nat>, d: Desktop) returns (out: Outcome)
    ensures var groups := Discovered(d.windowManager);
      |args| < 2 ==> out == Outcome(Success, Listing(groups, d.registry), [])
    ensures |args| > 3 ==> out == Outcome(Failure, ["too many arguments"], [])
    ensures 2 <= |args| <= 3 && IsHelp(args[1]) ==> out == Outcome(Success, UsageLines(args[0]), [])
    ensures var groups := Discovered(d.windowManager);
      2 <= |args| <= 3 && !IsHelp(args[1]) && IndexBelow(args[1], parseUInt, |groups|).None? ==>
        out == Outcome(Failure, [InvalidIndex("group", args[1], |groups|)], [])
    ensures var groups := Discovered(d.windowManager);
      2 <= |args| <= 3 && !IsHelp(args[1]) && IndexBelow(args[1], parseUInt, |groups|).Some? ==>
        var ids := groups[IndexBelow(args[1], parseUInt, |groups|).value].windowIds;
        IndexBelow(WindowArg(args), parseUInt, |ids|).None? ==>
          out == Outcome(Failure, [InvalidIndex("window", WindowArg(args), |ids|)], [])
    ensures var groups := Discovered(d.windowManager);
      FocusRequested(args, parseUInt, groups) ==>
        var ids := groups[IndexBelow(args[1], parseUInt, |groups|).value].windowIds;
        && out.status == Success && out.lines == []
        && FocusesId(out.trace, d, ids[IndexBelow(WindowArg(args), parseUInt, |ids|).value])
    ensures !FocusRequested(args, parseUInt, Discovered(d.windowManager)) ==> out.trace == []
    ensures Guarded(out.trace) && Activations(out.trace) <= 1
  {
    var stageGroups := All(d.windowManager);

    if |args| < 2 {
      var lines := ListStages(stageGroups, d.registry);
      return Outcome(Success, lines, []);
    }

    if |args| > 3 {
      return Outcome(Failure, ["too many arguments"], []);
    }

    var rawGroupIndex := args[1];
    var rawWindowIndex := WindowArg(args);

    if IsHelp(rawGroupIndex) {
      return Outcome(Success, UsageLines(args[0]), []);
    }

    var groupIndex := parseUInt(rawGroupIndex);
    if groupIndex.None? || groupIndex.value >= |stageGroups| {
      return Outcome(Failure, [InvalidIndex("group", rawGroupIndex, |stageGroups|)], []);
    }

    var stageGroup := stageGroups[groupIndex.value];

    var windowIndex := parseUInt(rawWindowIndex);
    if windowIndex.None? || windowIndex.value >= |stageGroup.windowIds| {
      return Outcome(Failure, [InvalidIndex("window", rawWindowIndex, |stageGroup.windowIds|)], []);
    }

    var trace := Focus(d, stageGroup, windowIndex.value);
    return Outcome(Success, [], trace);
  }
}
