# StageSwitch, modelled in Dafny

StageSwitch is a macOS command-line tool for Stage Manager. It reads the
stage strip from the accessibility tree of the `com.apple.WindowManager`
process. A stage is a button with a frame and a list of window ids. With no
argument the tool lists the stages top to bottom, with each window's owner
name looked up in the window server's registry. With a group index and an
optional window index it focuses that window. It makes the first
accessibility window of the owning process the main one, and activates the
process only if that write was accepted.

This project models the whole of `main.swift` on values. Platform services
are inputs:

- The WindowManager's accessibility tree is a `Node` value, absent when the
  WindowManager is not running.
- The accessibility service's per-process window lists are a map.
- The window registry's answer is a list of tagged values.
- The set of processes that `NSRunningApplication` can find is a set of pids.
- Everything the tool does to the system is recorded as a trace of
  `SetMain` / `Activate` actions. Everything it prints is a list of lines
  with an exit status.

Modules:

- `Wrappers`: `Option` with failure propagation.
- `Accessibility`: accessibility elements, `children()`, `role()`, and an
  application's window list.
- `StageGroups`: `StageGroup.all()`. The three nested loops are an
  imperative method (`All`, with `AppendButtons` for the innermost loop). It
  is proved equal to a functional specification (`Discovered`): the
  traversal (`Collected`), then a sort on the frame's `y` (`SortByY`).
- `Windows`: `WindowInfo.init?(properties:)` as `Parse`, `WindowInfo.all` as
  `AllWindows` (a `compactMap`), and `WindowInfo.init?(id:)` as `Lookup`.
- `Activation`: `becomeMain`, `focusWindow` and `StageGroup.focus(nth:)`.
  Their effects are specified as relations on traces (`FocusesWindow`,
  `FocusesId`).
- `Cli`: the top-level script (`Run`). It covers the listing loop, the
  argument checks and their exact error messages, and the final focus. It
  also covers decimal rendering of numbers, as string interpolation prints
  them.
- `Scenarios`: concrete runs. These are a one-stage listing, a two-stage
  sort, an out-of-range group index and the help text.

## Model

| member | source | states |
|---|---|---|
| Accessibility.Children | StageSwitch/StageSwitch/main.swift:52-54 | definition: the children of an element, or none when the attribute cannot be read |
| Accessibility.Role | StageSwitch/StageSwitch/main.swift:56-58 | definition: the role of an element; an unreadable role counts as the unknown role |
| Accessibility.WindowsOf | StageSwitch/StageSwitch/main.swift:10-13 | definition: an application's window list is present exactly when the service can read it, and is then that list |
| StageGroups.Collected | StageSwitch/StageSwitch/main.swift:74-86 | the stages in traversal order; what it holds is stated by `CollectedIff`, and the skipping of other children by the three `...Ignored` lemmas |
| StageGroups.Discovered | StageSwitch/StageSwitch/main.swift:66-88 | discovery as a function: empty without a WindowManager, else the collected stages sorted; stated by `DiscoveredSortedPermutation` and `DiscoveredNonEmpty` |
| StageGroups.All | StageSwitch/StageSwitch/main.swift:66-89 | the three nested loops (group, then list, then button, with `continue` on a failed guard) followed by the sort give exactly `Discovered`; the result is empty without a WindowManager |
| StageGroups.AppendButtons | StageSwitch/StageSwitch/main.swift:76-84 | the innermost loop appends, in order, the stage of each child that is a button with a frame and a non-empty window-id list, and nothing else |
| StageGroups.CollectedIff | StageSwitch/StageSwitch/main.swift:74-83 | a stage is collected if and only if some button reached through a group, then a list, then a button role path has a frame and a non-empty id list; the stage carries that button's frame and ids unchanged |
| StageGroups.CollectedNonEmpty | StageSwitch/StageSwitch/main.swift:77-81 | no collected stage has an empty window-id list |
| StageGroups.NonGroupChildIgnored | StageSwitch/StageSwitch/main.swift:74 | removing a child of the root whose role is not group leaves the collected stages unchanged, whatever its subtree |
| StageGroups.NonListChildIgnored | StageSwitch/StageSwitch/main.swift:75 | removing a child of a group whose role is not list leaves that group's stages unchanged |
| StageGroups.SkippedButtonIgnored | StageSwitch/StageSwitch/main.swift:76-81 | removing a child of a list that is not a button, or that lacks a frame or a non-empty id list, leaves that list's stages unchanged |
| StageGroups.Insert | StageSwitch/StageSwitch/main.swift:88 | inserting into a list sorted by `y` keeps it sorted and adds exactly the one stage (multiset) |
| StageGroups.SortByY | StageSwitch/StageSwitch/main.swift:88 | the result is sorted by frame origin `y` and is a permutation of the input |
| StageGroups.DiscoveredSortedPermutation | StageSwitch/StageSwitch/main.swift:66-88 | the discovered stages are sorted by `y`; they are empty without a WindowManager, and otherwise a permutation of the collected stages |
| StageGroups.DiscoveredNonEmpty | StageSwitch/StageSwitch/main.swift:77-88 | every discovered stage has at least one window id |
| Windows.Parse | StageSwitch/StageSwitch/main.swift:119-144 | `init?(properties:)`; stated by `ParseIff`, `ParseToRecord` and the four rejection lemmas |
| Windows.ParseEntry | StageSwitch/StageSwitch/main.swift:158-161 | one registry entry: it must be a dictionary and then parse; stated through the `CompactMap` lemmas |
| Windows.CompactMap | StageSwitch/StageSwitch/main.swift:157-162 | the `compactMap` over the registry's entries; stated by `CompactMapSources`, `CompactMapKeeps`, `CompactMapDrops`, `CompactMapAppend` and `CompactMapLength` |
| Windows.AllWindows | StageSwitch/StageSwitch/main.swift:154-163 | nothing when the registry returns no list; otherwise no more windows than entries |
| Windows.Lookup | StageSwitch/StageSwitch/main.swift:146-152 | nothing if and only if no parsed window has the id; otherwise a parsed window with that id |
| Windows.FindById | StageSwitch/StageSwitch/main.swift:147-149 | `first(where:)` on ids: nothing if and only if no window has the id; otherwise a window with the id that no earlier window matches |
| Windows.ParseIff | StageSwitch/StageSwitch/main.swift:119-144 | a record parses if and only if each of the seven keys and the four bounds keys is present with its Swift type (Int within 64 bits, pid_t within 32); each field of the result is the record's value unchanged |
| Windows.ParseToRecord | StageSwitch/StageSwitch/main.swift:119-144 | parsing the record that describes a window gives that window back |
| Windows.MissingFieldRejected | StageSwitch/StageSwitch/main.swift:120-132 | a record missing any one required top-level key does not parse |
| Windows.MissingBoundRejected | StageSwitch/StageSwitch/main.swift:126-132 | a record whose bounds lack any one of Height, Width, X, Y does not parse |
| Windows.MistypedFieldRejected | StageSwitch/StageSwitch/main.swift:120-132 | a required top-level value of the wrong type rejects the record |
| Windows.MistypedBoundRejected | StageSwitch/StageSwitch/main.swift:127-132 | a bounds value of the wrong type rejects the record |
| Windows.ExtraKeyIgnored | StageSwitch/StageSwitch/main.swift:119-132 | a key the parser does not read has no effect on the result |
| Windows.CompactMapSources | StageSwitch/StageSwitch/main.swift:157-162 | every window in the list comes from a registry entry that parses to it |
| Windows.CompactMapKeeps | StageSwitch/StageSwitch/main.swift:157-162 | every entry that parses is in the list |
| Windows.CompactMapDrops | StageSwitch/StageSwitch/main.swift:158-160 | an entry that does not parse is dropped without disturbing the order of the others |
| Windows.CompactMapAppend | StageSwitch/StageSwitch/main.swift:157-162 | the list of a concatenation is the concatenation of the lists |
| Windows.CompactMapLength | StageSwitch/StageSwitch/main.swift:157-162 | the list is never longer than the registry's |
| Windows.LookupIff | StageSwitch/StageSwitch/main.swift:146-163 | lookup finds a window if and only if the registry answered and some entry parses to a window with that id; what it finds has that id and is among the parsed windows |
| Activation.FirstWindow | StageSwitch/StageSwitch/main.swift:12-17 | a first window exists if and only if the process's window list is readable and non-empty, and is then its first element |
| Activation.BecomeMain | StageSwitch/StageSwitch/main.swift:9-20 | at most one `AXMain` write, made if and only if the process's window list is readable and non-empty; it targets the first window element; the result is true if and only if that write is accepted |
| Activation.BecomeMainIgnoresId | StageSwitch/StageSwitch/main.swift:14 | the window id passed in never changes what `becomeMain` does |
| Activation.FocusesWindowSafe | StageSwitch/StageSwitch/main.swift:22-28 | a `focusWindow` trace has at most one activation, and only right after an accepted `AXMain` write for the same process; a failed `becomeMain` means no activation; every action concerns the given pid |
| Activation.FocusesIdDeterministic | StageSwitch/StageSwitch/main.swift:91-100 | focusing a window id determines the trace uniquely |
| Activation.ActivatesOnce | StageSwitch/StageSwitch/main.swift:25-27 | `activate()` runs exactly once, after the `AXMain` write, if the write was accepted and the process is running; otherwise it never runs and the trace is the write alone |
| Activation.FocusWindow | StageSwitch/StageSwitch/main.swift:22-28 | the trace is the `becomeMain` write, then `activate()` if and only if the write was accepted and the process is running; it is guarded and has at most one activation |
| Activation.Focus | StageSwitch/StageSwitch/main.swift:91-100 | an index past the window ids does nothing; otherwise the window is looked up in the registry; an unknown id does nothing; a known one is focused with the owner pid from its record |
| Cli.DecimalDigits | StageSwitch/StageSwitch/main.swift:170 | a printed number is a non-empty string of digits without a leading zero |
| Cli.DecimalRoundTrip | StageSwitch/StageSwitch/main.swift:170 | reading back a printed number gives the number |
| Cli.WindowLineFormat | StageSwitch/StageSwitch/main.swift:173-179 | a window line is `- window #<id>: <owner>` when the lookup found a record with a non-empty owner name, and `- window #<id>` otherwise |
| Cli.WindowLineNamesId | StageSwitch/StageSwitch/main.swift:179 | the digits after the line's prefix denote the window id |
| Cli.Decimal | StageSwitch/StageSwitch/main.swift:170 | how interpolation prints a number; stated by `DecimalDigits` and `DecimalRoundTrip` |
| Cli.Title | StageSwitch/StageSwitch/main.swift:173-178 | the owner-name suffix: `: <owner>` for a found record with a non-empty owner name, else empty; stated by `WindowLineFormat` |
| Cli.WindowLine | StageSwitch/StageSwitch/main.swift:179 | one window line; stated by `WindowLineFormat` and `WindowLineNamesId` |
| Cli.GroupHeader | StageSwitch/StageSwitch/main.swift:170 | the header of stage `i`; stated by `GroupHeaderNamesIndex` |
| Cli.GroupHeaderNamesIndex | StageSwitch/StageSwitch/main.swift:170 | a header is `group #`, the digits of the stage's index, then `:` |
| Cli.WindowLines | StageSwitch/StageSwitch/main.swift:172-180 | one line per window id of a stage (its length) |
| Cli.WindowLinesContents | StageSwitch/StageSwitch/main.swift:172-180 | line `k` is the line for the stage's `k`-th window id, with that id's lookup |
| Cli.Listing | StageSwitch/StageSwitch/main.swift:169-181 | the listing: for each stage in order, its header, then its window lines; stated by `ListingLength` and met by `ListStages` |
| Cli.ListingLength | StageSwitch/StageSwitch/main.swift:169-181 | the listing has one header per stage plus one line per window |
| Cli.IndexBelow | StageSwitch/StageSwitch/main.swift:206-213 | an index is accepted if and only if it parses and the parsed value is below the bound; the accepted value is the parsed one |
| Cli.UsageLines | StageSwitch/StageSwitch/main.swift:195-201 | the seven usage lines, with the program name as given; stated by `ScenarioHelp` |
| Cli.InvalidIndex | StageSwitch/StageSwitch/main.swift:207-214 | the out-of-range message; stated by `InvalidIndexNamesBound` |
| Cli.InvalidIndexNamesBound | StageSwitch/StageSwitch/main.swift:207-214 | the message quotes the rejected argument verbatim and ends with the bound's digits in backticks |
| Cli.AppendWindowLines | StageSwitch/StageSwitch/main.swift:172-180 | the inner listing loop appends exactly the stage's window lines, in id order |
| Cli.ListStages | StageSwitch/StageSwitch/main.swift:168-181 | the listing loop prints exactly `Listing`: for each stage in order, `group #<i>:` and then its window lines |
| Cli.Run | StageSwitch/StageSwitch/main.swift:166-218 | each branch of the script. Fewer than two arguments: the listing, exit success. More than three: `too many arguments`, failure. `-h`/`--help`: the usage lines, success. Bad or out-of-range group, then window, index: the exact message, failure. Otherwise `focus(nth:)` on the chosen stage, with nothing printed. Only the last branch has effects; they are guarded and include at most one activation |
| Scenarios.StripCollects | StageSwitch/StageSwitch/main.swift:74-86 | a root holding one group with one list collects exactly that list's button stages |
| Scenarios.OneStageDiscovered | StageSwitch/StageSwitch/main.swift:66-89 | one complete button yields exactly its stage |
| Scenarios.OneStageListing | StageSwitch/StageSwitch/main.swift:169-181 | one stage with windows 100 and 200 lists as its header and two window lines |
| Scenarios.TwoWindowRegistry | StageSwitch/StageSwitch/main.swift:146-163 | a registry of two records with distinct ids finds each of them by its id |
| Scenarios.ScenarioList | StageSwitch/StageSwitch/main.swift:168-181 | one stage with windows 100 (owner "Mail") and 200 (no owner name) prints `group #0:`, `- window #100: Mail`, `- window #200` |
| Scenarios.TwoStagesCollected | StageSwitch/StageSwitch/main.swift:76-84 | two complete buttons are collected in child order |
| Scenarios.SortTwo | StageSwitch/StageSwitch/main.swift:88 | two stages out of `y` order are swapped |
| Scenarios.ScenarioSort | StageSwitch/StageSwitch/main.swift:88 | stages found at heights 80 then 20 come out as 20 then 80 |
| Scenarios.GroupIndexMessage | StageSwitch/StageSwitch/main.swift:207 | the out-of-range message reads ``invalid group index `5` >= `3` `` |
| Scenarios.ScenarioOutOfRange | StageSwitch/StageSwitch/main.swift:206-209 | with three stages, group index 5 fails with that message and no effect |
| Scenarios.ScenarioHelp | StageSwitch/StageSwitch/main.swift:194-204 | `--help` prints the seven usage lines, succeeds and has no effect |

## Left out

- The accessibility calls are not modelled as calls (`AXUIElementCreateApplication`, `AXUIElementCopyAttributeValue`, `AXUIElementSetAttributeValue`). Their answers are inputs: the `Node` tree, the `AxService` map, and whether a window accepts the `AXMain` write. `acceptsMain` covers both a rejected write and a failed call.
- `AXValue` decoding of the frame is not modelled: the `AXValue` type check and `AXValueGetValue` become an optional `Rect`. A frame value that is not an `AXValue` is an absent frame.
- Geometry and alpha are real numbers. Single-precision and double-precision rounding is not modelled; only the comparison of `origin.y` matters.
- `CGWindowListCopyWindowInfo` is not modelled. Its answer is a single snapshot, `Option<seq<Value>>`, whose `None` is the failed `as? [CFDictionary]` cast. The `optionIncludingWindow` / `relativeToWindow:` scoping of the query is not modelled: every lookup searches the same snapshot.
- Windows.Parse: Foundation's `NSNumber` bridging is not modelled. That bridging lets one number pass `as? Float32`, `as? Bool` and `as? Int` alike. Here each registry value carries one Swift type, and a number converts to `Int` or `pid_t` only when it is an integer in range.
- `WindowInfo.isOwnedByWindowManager` is not modelled, because nothing in the program uses it.
- `NSWorkspace.shared.runningApplications` is not modelled, nor the bundle-identifier search. The WindowManager's root element is an optional input.
- `NSRunningApplication(processIdentifier:)?.activate()` is not modelled as a call. It is the `Activate(pid)` action, emitted when the pid is in the running set; the return value of `activate()` is not read by the program.
- `UInt(String)` is not modelled; it is the parameter `parseUInt`. Every contract holds for any parser that returns only non-negative numbers.
- `print` and `exit` are not modelled; they are the `Outcome`: its lines, its exit status, and the fact that nothing follows an exit.
- Concurrency and staleness are not modelled. The tree, the registry and the process set do not change between reads during one run.
- StageGroups.SortByY: Swift's `sorted(by:)` does not promise stability. The model is a stable insertion sort. The contracts of `SortByY` and `DiscoveredSortedPermutation` state only what Swift promises: sorted by `y`, and a permutation. Stages at equal `y` keep traversal order in the model. `StageGroups.All` and `Cli.Run` are stated through `Discovered`, and so depend on that choice; so does `Scenarios.ScenarioSort`, although its two heights differ.
- Activation.BecomeMain: this is how the code behaves. The write goes to the first window element of the process, whichever window was asked for (`first(where: { window in true })`). The model keeps this (see `BecomeMainIgnoresId`), because the program has no mapping from window ids to accessibility elements.
- Cli.Run: stage discovery runs before the argument checks, as in the code. So even `--help` and `too many arguments` run discovery first; since discovery has no effect, their outcomes do not depend on it.
