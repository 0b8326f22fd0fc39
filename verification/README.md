# ccb: a verified model of its logs, hot reload, message bureau and config transforms

The repository is a daemon (`ccbd`) that runs coding agents in tmux panes, and the tools around it. This
project models the parts of it that are deterministic logic, separated from tmux, files and processes, and
proves what they are for. `dafny verify dfyconfig.toml` checks everything; every file is one module.

| part | modules | main results |
|---|---|---|
| JSONL log store | `Jsonl`, `JsonlStore`, `CallbackEdges` | the backward chunked readers agree with the forward reader for every file, limit and chunk size; a follower sees every row once; the forward overwrite pass lists exactly what the backward search calls pending |
| Layouts | `Layout`, `LayoutGrammar`, `AppendLayout` | the parser accepts exactly the grammar; parsing a rendered layout gives its left-nested form; equal renderings are equal left-nested forms; planning and growing a layout undo each other; carrying a plan out gives the new layout exactly when its splits go in one direction |
| Hot reload planner | `NameOrder`, `ReloadOperations`, `NamespacePatch`, `PatchReplay`, `PatchBlocking`, `ReloadGate` | exactly which differences of two configurations are blocked, and which dry runs are accepted; replaying the steps of an unblocked plan on the old windows gives exactly the new windows; an accepted plan touches no agent that stays and never both adds and removes |
| Publish transaction and handoff | `ReloadPublish`, `ReloadHandoff` | when a transaction publishes; under every pattern of faults the graph is moved atomically; exactly when the report about the two stores is true; in all interleavings, exactly which signature mismatches a handoff covers |
| Drain queue | `ReloadDrain` | the status of a record says exactly what happened to it; the bound on pending records, and when a repeated id breaks it |
| Message bureau | `MessageBureau` | in every run a message is settled exactly when the latest record of each of its attempts is over |
| Heartbeat | `Heartbeat` | notices are counted, capped and spaced in every run |
| Tree merge | `MergeTree` | at every path, what moves and what stays; no file is lost, duplicated or overwritten |
| Config text | `TextLines`, `JsonText`, `TomlLine`, `TomlMerge`, `TomlTwoTables`, `TomlDocument`, `ProjectTrust`, `FeatureOverrides`, `ActivityBlock`, `TomlSections` | the rendered sections read back to the payload; for each line merger, exactly when a second run changes nothing |

Objects that the source updates in place (a log file, the parser, the application with its two stores, the
bureau) are classes whose methods are proved against functions of their state; loops stay loops. A Python
exception that leaves a call is `Raised` or `None`.

## Where the code differs from what one would expect

These are properties of the code as it is. Each entry names the lemma that shows it, at an input where there is
one, and the lemma that says exactly when it happens.

- `render()` does not determine a layout: chains nested to the right render like chains nested to the left
  (`Layout.RenderingIsNotInjective`; exactly: `Layout.SameRendering`).
- Appended panes are split off one another, while the planner reads the new layout as panes put beside
  everything before them. With splits in both directions the window ends up with another layout than the
  configuration asks for (`AppendLayout.MixedDirectionsMiss`; exactly: `AppendLayout.PlanGivesNewLayoutIff`).
- An append plan for unchanged agents is empty even when the shape of the layout changed
  (`AppendLayout.EmptyPlanIgnoresShape`, `AppendLayout.EmptyPlanMeans`); such a reload is blocked by its layout
  operation (`PatchReplay.UnblockedLayouts`).
- When a store read raises while a failed publish is being reported, the wrapper reports that nothing was
  written although the rollback may be incomplete (`ReloadPublish.FalseReportExists`; exactly:
  `ReloadPublish.HiddenRollback`).
- A complete rollback leaves the epoch, owner, instance, run state and failure of the lifecycle as the failed
  attempt wrote them (`ReloadPublish.RollbackKeepsNewEpoch`; exactly: `ReloadPublish.RollbackRestores`).
- The keeper loop accepts every daemon that reports a signature, with or without a handoff
  (`ReloadHandoff.KeeperIgnoresHandoff`, for all inputs). A handoff that could not be removed excuses a mismatch
  outside of any reload (`ReloadHandoff.LeftoverExcuses`; exactly: `ReloadHandoff.MismatchNeedsReload`).
- `replace_record` overwrites every record with the id, so a repeated intent id can revive a timed-out
  record and break the bound (`ReloadDrain.RepeatedIdBreaksBound`; exactly: `ReloadDrain.TransitionKeepsBound`).
  A record that is idle-ready never times out (`ReloadDrain.IdleReadyNeverTimesOut`, for all inputs).
- `set_message_state`, which other services call directly, can give a message a state that its attempts
  contradict (`MessageBureau.DelegatedParentIsMisled`; exactly: `MessageBureau.SetStateKeepsIff` for one call and
  `MessageBureau.TruthfulUnlessMisled` for runs).
- A submission that names an agent twice makes two attempts with the same agent and retry index (exactly:
  `MessageBureau.RetryIndicesIdentifyIff`).
- Project trust: a path with '#' is never found again, so every run adds a table; a second path with ']'
  makes the second run take the first table's trust line away, already in an empty document
  (`ProjectTrust.HashNeverSettles`, `ProjectTrust.BracketUnsettles`; exactly: `ProjectTrust.OnePathSettlesIff`,
  `ProjectTrust.TwoPathsSettleIff`). A ']' in the first path does no harm.
- Feature overrides: adding the table keeps the text, but the next run rebuilds it from its lines, so a line
  break other than the newline (a form feed, U+2028) is replaced then (`FeatureOverrides.FormFeedIsReplaced`;
  exactly: `FeatureOverrides.OverrideSettlesIff`).
- The activity block gains an empty line above it at every run (`ActivityBlock.OneLineGrows`,
  `ActivityBlock.RunsLeave`; exactly: `ActivityBlock.ReplaceSettlesIff`).

## Model

| member | source | states |
|---|---|---|
| `Jsonl.EntriesSplit` | lib/storage/jsonl_store.py:28-42 | a file may be cut next to any line break, even inside `\r\n`, without changing the rows it holds |
| `Jsonl.CarryPartialLine` | lib/storage/jsonl_store.py:132-138 | holding back the first line of the buffer until more of the file is read loses and invents no row, wherever the chunk boundary falls |
| `JsonlStore.JsonlFile.Append` | lib/storage/jsonl_store.py:11-26 | a file whose last line is complete stays so, and its rows grow by exactly the new one |
| `Jsonl.AppendExtends` | lib/storage/jsonl_store.py:11-26 | the rows of a file after appending a row's line are the old rows and that row |
| `JsonlStore.JsonlFile.ReadAll` | lib/storage/jsonl_store.py:28-42 | all rows in file order; raises exactly when some non-blank line is malformed |
| `JsonlStore.JsonlFile.ReadSince` | lib/storage/jsonl_store.py:44-69 | the rows behind the cursor and the new cursor, for every start value; a missing file gives the cursor back and no rows, a negative start raises |
| `Jsonl.SinceExactly` | lib/storage/jsonl_store.py:44-69 | for a file that exists: the number of its rows and those behind the cursor, also beyond the end, unless one of these cannot be read |
| `JsonlStore.JsonlFile.TakeChunk` | lib/storage/jsonl_store.py:127-138 | unread part, buffer and split-off lines together keep the rows of the file, and the buffer is empty once the start of the file is reached, so the code after the loop finds nothing |
| `JsonlStore.JsonlFile.ReadTail` | lib/storage/jsonl_store.py:71-112 | for every file, limit and chunk size the backward chunked scan returns the tail of the forward rows; raises for a negative limit or a malformed row it reaches |
| `Jsonl.TailOfIsSuffix` | lib/storage/jsonl_store.py:71-112 | with all rows valid that tail is the last min(limit, n) rows in file order |
| `JsonlStore.JsonlFile.FindLast` | lib/storage/jsonl_store.py:114-157 | for every file, predicate and chunk size: the last row of the forward read that satisfies the predicate, or none |
| `Jsonl.LastMatchingIsLast` | lib/storage/jsonl_store.py:114-157 | the backward search result is a matching row with no matching row after it, or there is no match |
| `Jsonl.FollowerSeesEachRowOnce` | lib/storage/jsonl_store.py:11-69 | every interleaving of appends and polls that feed the cursor back delivers every appended row once and in order |
| `Layout.ParseRender` | lib/agents/models_runtime/layout_runtime/parser.py:24-59 | every rendered layout parses, to its left-nested form, and to itself exactly when it is left-nested |
| `LayoutGrammar.ParsesExactly` | lib/agents/models_runtime/layout_runtime/parser.py:24-59 | the parser accepts a token list with a tree if and only if the list is a text of the layout grammar with that tree: words and groups, joined to the left by commas and those by semicolons |
| `Layout.SameRendering` | lib/agents/models_runtime/layout_runtime/nodes.py:40-80 | two layouts render alike exactly when their left-nested forms are equal, and then they have the same leaves |
| `Layout.RenderingIsNotInjective` | lib/agents/models_runtime/layout_runtime/nodes.py:48-80 | two different layouts of three panes that render alike |
| `Layout.NormIsLeftNested` | lib/agents/models_runtime/layout_runtime/parser.py:32-46 | normal forms are the left-nested layouts and exactly those are left alone |
| `Layout.NormRenders` | lib/agents/models_runtime/layout_runtime/nodes.py:48-80 | re-nesting a layout does not change its rendering |
| `Layout.NormLeaves` | lib/agents/models_runtime/layout_runtime/nodes.py:40-46 | re-nesting a layout keeps its leaves in order |
| `Layout.LayoutParser.Run` | lib/agents/models_runtime/layout_runtime/parser.py:24-30 | the cursor-moving parser reads the whole token list or fails |
| `Layout.LayoutParser.ParseHorizontalChain` | lib/agents/models_runtime/layout_runtime/parser.py:32-38 | node and cursor after a chain of `;`, looped to the left |
| `Layout.LayoutParser.ParseVerticalChain` | lib/agents/models_runtime/layout_runtime/parser.py:40-46 | node and cursor after a chain of `,`, looped to the left |
| `Layout.LayoutParser.ParseOne` | lib/agents/models_runtime/layout_runtime/parser.py:48-74 | node and cursor after a leaf or a parenthesised layout; every failure of the source fails here |
| `AppendLayout.PlanOfGrown` | lib/ccbd/reload_append_layout.py:14-52 | the planner undoes growing: against a layout in which each entry of a list puts a pane beside everything grown from the rightmost pane so far, it returns that list |
| `AppendLayout.PlanRegrows` | lib/ccbd/reload_append_layout.py:26-52 | growing undoes the rightmost-leaf planner: grown by its plan, the old layout is the new one along the right spine and in all names |
| `AppendLayout.PlanAppendsLeaves` | lib/ccbd/reload_append_layout.py:14-86 | on both planning paths the new leaves are the old ones followed by the planned agents |
| `AppendLayout.PlanExistsIff` | lib/ccbd/reload_append_layout.py:14-86 | a layout plan exists if and only if the new layout is the old one with panes put beside its last pane, up to nesting beside the right spine, or the names go on and both layouts are flat and of one kind |
| `AppendLayout.FlatWindowGrows` | lib/ccbd/reload_append_layout.py:55-86 | a flat window that goes on with more panes gets a plan that adds exactly those, all to the right in a row and all below in a column |
| `AppendLayout.PlanGrowsNewLayout` | lib/ccbd/reload_append_layout.py:14-86 | on both planning paths the old layout grown by the plan renders like the new one up to leaf fields other than names |
| `AppendLayout.AnchorsCarryOut` | lib/ccbd/services/project_namespace_runtime/additive_patch_agents.py:55-74 | with unrepeated names, splitting the pane named by each anchor is splitting the last pane every time |
| `AppendLayout.PlanGivesNewLayoutIff` | lib/ccbd/services/project_namespace_runtime/additive_patch_agents.py:55-74 | for every old and new layout with a plan that adds something, carrying the splits out gives the new layout if and only if they all go in the same direction |
| `AppendLayout.MixedDirectionsMiss` | lib/ccbd/services/project_namespace_runtime/additive_patch_agents.py:55-74 | from `a` to `(a; b), c` the accepted plan makes `a; (b, c)` |
| `AppendLayout.EmptyPlanMeans` | lib/ccbd/reload_append_layout.py:26-69 | an empty plan of the rightmost-leaf planner means equal renderings up to leaf fields other than names; one of the trailing rule only means equal names |
| `AppendLayout.EmptyPlanIgnoresShape` | lib/ccbd/reload_append_layout.py:55-69 | a reshaped window with unchanged leaves gets an empty plan |
| `AppendLayout.WindowPlan` | lib/ccbd/reload_additive_agents.py:25-39 | a plan exists exactly for equal agents, for fewer agents, and for agents that go on where the old ones end with a layout plan that adds just those; it completes the agent list |
| `ReloadOperations.BuildOperations` | lib/ccbd/reload_plan.py:180-249 | the operations listed are exactly the differences between the two configurations, in the order of the source's loops and sort keys |
| `ReloadOperations.PassOperations` | lib/ccbd/reload_plan.py:190-284 | one loop over its sorted names lists exactly the differences of its kind, windows by order and name, agents by name |
| `ReloadOperations.OperationsAreDetermined` | lib/ccbd/reload_plan.py:180-249 | there is only one list with that content and that order |
| `ReloadOperations.OperationsInOrder` | lib/ccbd/reload_plan.py:180-307 | in the list kinds follow one another as in the source, agents of a kind come by name and windows by order and name |
| `NameOrder.SortNames` | lib/ccbd/reload_plan.py:422-427 | a set of names in ascending order of key and then code points, nothing lost or repeated |
| `ReloadOperations.TopologyOperations` | lib/ccbd/reload_plan.py:252-307 | exactly the removed and reshaped windows and the entry and sidebar changes, in that order |
| `ReloadOperations.DryRunOperations` | lib/ccbd/reload_plan.py:23-177 | the operations of a dry run, with the shortcut for configurations of equal identity |
| `ReloadOperations.SelectClass` | lib/ccbd/reload_plan.py:310-313 | the class of highest priority among the operations, and no change for none |
| `NamespacePatch.OpenWindowSteps` | lib/ccbd/reload_patch.py:180-215 | the steps that open one new window, sidebar first and then its agents |
| `NamespacePatch.AdditiveWindowSteps` | lib/ccbd/reload_patch.py:180-215 | the opening steps of all new windows in order |
| `NamespacePatch.AppendAgentSteps` | lib/ccbd/reload_patch_additive_agents.py:39-55 | every appended pane is anchored at the one before it, the first at the last old agent |
| `NamespacePatch.StepsForWindow` | lib/ccbd/reload_patch_additive_agents.py:24-36 | unblocked, the steps complete the window's old agents to its new ones in order; blocked or for a shorter window there are none |
| `NamespacePatch.AdditiveAgentSteps` | lib/ccbd/reload_patch_additive_agents.py:6-21 | the growing steps of all common windows |
| `NamespacePatch.RemoveAgentSteps` | lib/ccbd/reload_patch_remove_agents.py:6-79 | the removing steps of all old windows, or why they are blocked |
| `PatchBlocking.BuildPatchPlan` | lib/ccbd/reload_patch.py:46-93 | from a dry run of two well-formed configurations: nothing is blocked exactly when the reload can be carried out in place, and then the steps replay to the new panes and are empty exactly when nothing changed |
| `PatchBlocking.PlanBlocksIff` | lib/ccbd/reload_patch.py:46-93 | over the two configurations: a dry run is not blocked if and only if at most the view differs, or the scope is verified, agents come or go, entry, sidebar and the records and homes of staying agents are equal, and every common window is unchanged, has agents added at its end in a layout the append planner knows, or has agents left out |
| `PatchBlocking.WholeWindowsReload` | lib/ccbd/reload_patch.py:116-131 | opening whole windows, and closing whole windows, with the rest unchanged is never blocked and always has steps |
| `PatchBlocking.PlanIsEmptyIff` | lib/ccbd/reload_patch.py:46-93 | an unblocked plan has no steps exactly when the configurations are equal |
| `PatchBlocking.NothingUncovered` | lib/ccbd/reload_patch.py:218-255 | for well-formed configurations the checks for operations without steps never find one |
| `PatchReplay.AppendStepsPlay` | lib/ccbd/reload_patch_additive_agents.py:39-55 | carried out, the anchor chain appends the planned agents in order |
| `PatchReplay.KillStepsPlay` | lib/ccbd/reload_patch_remove_agents.py:25-54 | carried out, the kill steps leave the kept agents in their old order |
| `PatchReplay.Pigeonhole` | lib/ccbd/reload_additive_agents.py:25-39 | a repetition-free list inside another is no longer than it, which settles the case of a shorter new window |
| `PatchReplay.SharedWindowPlay` | lib/ccbd/reload_patch.py:46-93 | growing and shrinking steps of one window together give its new agents in order |
| `PatchReplay.ReplayByWindow` | lib/ccbd/reload_patch.py:46-93 | replaying steps on a project is replaying each window's own steps on that window |
| `PatchReplay.UnblockedPlanReplays` | lib/ccbd/reload_patch.py:46-93 | whenever nothing is blocked, the steps replay on the panes of the old configuration without breaking and give exactly the panes of the new one, order included |
| `PatchReplay.UnblockedLayouts` | lib/ccbd/reload_patch.py:46-93 | in an unblocked plan a window with the same set of agents keeps its layout text, and one that gains agents gets its new layout if and only if its splits all go in the same direction |
| `ReloadGate.UnsupportedOpClasses` | lib/ccbd/reload_apply_plan.py:72-81 | the set of operation classes that the gate rejects |
| `ReloadGate.StepOrigin` | lib/ccbd/reload_patch.py:46-93 | every step of a plan refreshes the view, adds something only the new configuration has, or removes something only the old one has |
| `ReloadGate.OnlyThereMeansOnly` | lib/ccbd/reload_plan.py:180-249 | when no agent moves, an agent that only one configuration has in a window is not in the other at all |
| `ReloadGate.AcceptedPlanIsPure` | lib/ccbd/reload_apply_plan.py:14-34 | an accepted plan creates exactly the new agents, kills exactly the gone ones, is purely additive or purely removing, and replays to the new panes |
| `ReloadGate.AcceptedIff` | lib/ccbd/reload_apply_plan.py:14-34 | the gate accepts a dry run if and only if only the view changed, or the reload can be carried out in place and agents only come or only go |
| `ReloadPublish.ReloadApp.WriteLease` | lib/ccbd/services/mount.py:92-163 | the write succeeds exactly for a mounted lease of this process, instance and generation and a known signature, and changes the signature only; otherwise nothing changes |
| `ReloadPublish.ReloadApp.WriteLifecycle` | lib/ccbd/reload_transaction_signature.py:36-86 | the write succeeds exactly in the mounted phase, for this generation, owner and instance and a known signature; every field afterwards |
| `ReloadPublish.ReloadApp.RollbackSignatures` | lib/ccbd/reload_transaction_signature_rollback.py:9-103 | lifecycle first, then lease; the flag says whether every attempted write succeeded |
| `ReloadPublish.ReloadApp.PublishTransaction` | lib/ccbd/reload_transaction_service.py:29-163 | the whole transaction on both stores, the cached lease and the graph, for every pattern of faults |
| `ReloadPublish.PublishesIff` | lib/ccbd/reload_transaction_service.py:29-78 | in fields: a transaction publishes if and only if the stages are done, the signatures known, lease and lifecycle are mounted and this daemon's at the generation the application goes by, and no write nor the publication fails |
| `ReloadPublish.TransactIsAtomicOnTheGraph` | lib/ccbd/reload_transaction_publish.py:10-66 | published means lease, lifecycle and graph carry the new signature; anything else leaves the old graph |
| `ReloadPublish.ReportIsExact` | lib/ccbd/reload_transaction_service.py:81-163 | from agreement and without a failing report read: agreement is kept exactly when the report says published or nothing written, and then both stores are on that signature |
| `ReloadPublish.HiddenRollback` | lib/ccbd/reload_apply_publish.py:27-60 | over the inputs: agreement is lost exactly when the preflight passes, the lease is written, a later write fails and so does one of the rollback; and the report of nothing written is false exactly when, besides, the read for the report raises |
| `ReloadPublish.FalseReportExists` | lib/ccbd/reload_apply_publish.py:41-60 | a reachable failure that reports nothing written and leaves the stores apart |
| `ReloadPublish.RunKeepsAgreement` | lib/ccbd/reload_transaction_service.py:29-163 | in every run of reloads the graph is the last one reported published, and agreement is an invariant as long as rollbacks complete |
| `ReloadPublish.AgreesThroughoutIff` | lib/ccbd/reload_transaction_service.py:29-163 | stores and graph agree after every attempt of a run if and only if no attempt is torn in that sense |
| `ReloadPublish.RollbackRestores` | lib/ccbd/reload_transaction_signature_rollback.py:80-97 | a failed attempt with a complete rollback restores graph and lease, and of a written lifecycle exactly the signature, mount state and generation |
| `ReloadPublish.RollbackKeepsNewEpoch` | lib/ccbd/reload_transaction_signature_rollback.py:80-97 | a complete rollback after which the lifecycle has another namespace epoch than before |
| `ReloadPublish.PublishRepairs` | lib/ccbd/reload_transaction_service.py:29-78 | a published attempt ends any disagreement left by an earlier one |
| `ReloadHandoff.MismatchNeedsReload` | lib/ccbd/reload_handoff.py:105-186 | in every interleaving of begins, publishes with faults, ends, crashes, other writers, damage and checks, a mismatch is allowed if and only if some call recorded a handoff that nothing touched since, and the check reports the signature published when that call began, expects the one it asked for, comes at most 60 seconds later and finds the same live holder and generation |
| `ReloadHandoff.BeginsIff` | lib/ccbd/reload_handoff.py:105-129 | in fields: when a call records a handoff, when it is skipped, when it is an error, and what is recorded |
| `ReloadHandoff.AllowedOnlyInCallOrAfterFault` | lib/ccbd/reload_apply_service.py:81-141 | a mismatch is allowed only while the call that recorded the handoff is under way, or after a crash or failed clean-up that came after it |
| `ReloadHandoff.CallsAreTruthful` | lib/ccbd/reload_apply_service.py:95-141 | in every interleaving the handoff of the call under way is on disk or damaged, and the live graph is its source until the call publishes and its target afterwards |
| `ReloadHandoff.LiveGraphIsExcusedUntilPublished` | lib/ccbd/reload_handoff.py:136-162 | while a call is under way, a check that reports the live graph is excused exactly until the call publishes |
| `ReloadHandoff.LeftoverExcuses` | lib/ccbd/reload_apply_service.py:139-141 | a handoff that could not be removed excuses the live graph although no reload is under way |
| `ReloadHandoff.KeeperIgnoresHandoff` | lib/ccbd/keeper_runtime/loop.py:188-210 | the keeper's answer does not depend on the handoff and accepts every reported signature |
| `ReloadHandoff.ReloadService.RunStages` | lib/ccbd/reload_apply_service.py:96-138 | a stage that raises or is not ready leaves all stores and the graph alone and gives an exception or a failure; otherwise stores, graph and result are exactly those of the transaction |
| `ReloadHandoff.ReloadService.RunLocked` | lib/ccbd/reload_apply_service.py:68-141 | the call is the begin, publish and end steps of the interleavings; it publishes nothing unless all stages are ready, and then its result is exactly the transaction's unless the handoff could not be written or removed; every exit removes the handoff this call wrote unless the removal itself fails |
| `ReloadDrain.StatusExactly` | lib/ccbd/reload_drain.py:283-334 | after any run of events a record has a status exactly when the events tell that story: retired only through an idle plan strictly before both deadlines and a later retire step, timed out exactly when the first deciding plan came too late |
| `ReloadDrain.NewRecordIsDue` | lib/ccbd/reload_drain.py:154-168 | a new record is due after its timeout from now or its age from the intent's creation, whichever is earlier |
| `ReloadDrain.EnqueuesIff` | lib/ccbd/reload_drain.py:214-228 | an intent enters the queue, at its end, exactly when it is not too old and the bound is not reached; what is recorded otherwise |
| `ReloadDrain.LifeNeverFallsBack` | lib/ccbd/reload_drain.py:110-137 | status rank never falls along a run and terminal records never change |
| `ReloadDrain.IdleReadyNeverTimesOut` | lib/ccbd/reload_drain.py:283-320 | planning alone never ends an idle-ready record, however late |
| `ReloadDrain.ReplaceRecord` | lib/ccbd/reload_drain.py:230-241 | every record with the id is overwritten, all others stay in place |
| `ReloadDrain.OverwrittenCount` | lib/ccbd/reload_drain.py:210-241 | a live update revives the terminal records of its id, a terminal one ends the live ones: the exact change of the pending count |
| `ReloadDrain.TransitionKeepsBound` | lib/ccbd/reload_drain.py:230-241 | one transition keeps the bound if and only if it ends the record or there is room for every terminal record of the same id |
| `ReloadDrain.BoundHolds` | lib/ccbd/reload_drain.py:210-241 | every run of arrivals, plans and retirements with distinct intent ids keeps the pending count within the bound |
| `ReloadDrain.RepeatedIdBreaksBound` | lib/ccbd/reload_drain.py:396-413 | a run with a repeated id that exceeds the bound |
| `ReloadDrain.OverdueStopsBlocking` | lib/ccbd/reload_drain.py:250-320 | a pending or waiting record planned at or after its earlier deadline times out together with all records of its id and no other, and its agent stays blocked exactly if a live record with another id names it |
| `MessageBureau.RunIsConsistent` | lib/message_bureau/facade_state.py:38-121 | in every run of recording calls, for every message, the latest state is terminal exactly when the latest record of each of its attempts is |
| `MessageBureau.TruthfulUnlessMisled` | lib/message_bureau/facade_state.py:38-121 | in every run with direct state settings as well, that holds of a message if and only if the last event that concerned it was not a setting that did not fit its attempts |
| `MessageBureau.DelegatedParentIsMisled` | lib/ccbd/services/dispatcher_runtime/finalization_runtime/message_bureau.py:35-46 | a delegated parent whose only attempt completed is set to running again, and is not truthful then |
| `MessageBureau.RecordingRenews` | lib/message_bureau/facade_recording_terminal_attempts.py:20-73 | a recording call makes the message it concerns truthful whatever was there before, and touches no other |
| `MessageBureau.EventKeepsConsistent` | lib/message_bureau/facade_recording_terminal_replies.py:19-136 | each recording call keeps that |
| `MessageBureau.RefreshIsTruthful` | lib/message_bureau/facade_state.py:38-48 | refreshing makes one message truthful and leaves all others alone |
| `MessageBureau.SetStateKeepsIff` | lib/message_bureau/facade_state.py:51-55 | setting a state directly keeps consistency if and only if the state fits the attempts |
| `MessageBureau.OutcomeIsUnanimous` | lib/message_bureau/facade_state.py:86-121 | a refreshed message is completed, failed or cancelled exactly when nothing is active and every counted reply, or without replies every attempt, says so; incomplete when they do not agree; running or partially replied while something is active |
| `MessageBureau.RefreshedState` | lib/message_bureau/facade_state.py:38-48 | refreshing a known message records that state |
| `MessageBureau.EndIsReported` | lib/message_bureau/facade_recording_common.py:26-43 | after the end of a job is recorded, its attempt is completed, failed or cancelled exactly as the job is and incomplete otherwise, and the reply, if there is one, says the same |
| `MessageBureau.RetryIndicesIdentifyIff` | lib/message_bureau/facade_recording_submission.py:11-137 | in every run message, agent and retry index identify an attempt if and only if every submission names each agent once |
| `MessageBureau.Bureau.LatestAttemptsFor` | lib/message_bureau/facade_state.py:58-62 | the latest record of every attempt of the message |
| `MessageBureau.Bureau.RetryIndexFor` | lib/message_bureau/facade_state.py:72-79 | one more than the highest index used by the agent for the message, zero for none |
| `MessageBureau.Bureau.SetMessageState` | lib/message_bureau/facade_state.py:51-55 | one record appended when the state changes, none for an unknown message or an equal state |
| `MessageBureau.Bureau.RefreshMessageState` | lib/message_bureau/facade_state.py:38-48 | the derived state is recorded |
| `MessageBureau.Bureau.RecordSubmission` | lib/message_bureau/facade_recording_submission.py:11-85 | a message and one attempt per job |
| `MessageBureau.Bureau.MarkAttemptStarted` | lib/message_bureau/facade_recording_terminal_attempts.py:20-47 | the attempt and its message are running |
| `MessageBureau.Bureau.RecordAttemptTerminal` | lib/message_bureau/facade_recording_terminal_attempts.py:50-73 | one attempt record is added, which reports how the job ended, and the message is refreshed; nothing for an unknown job |
| `MessageBureau.Bureau.RecordReply` | lib/message_bureau/facade_recording_terminal_replies.py:19-66 | one reply is added, for the job's message and attempt, which says how the job ended, and the message is refreshed; nothing for an unknown job |
| `MessageBureau.Bureau.RecordNotice` | lib/message_bureau/facade_recording_terminal_replies.py:69-121 | a notice is recorded and the message refreshed |
| `MessageBureau.Bureau.RecordTerminal` | lib/message_bureau/facade_recording_terminal_replies.py:124-136 | the latest record of the attempt and, if wanted, one reply say how the job ended |
| `MessageBureau.Bureau.RecordRetryAttempt` | lib/message_bureau/facade_recording_submission.py:98-137 | a new attempt with the next retry index; raises exactly for an unknown message, and then writes nothing |
| `CallbackEdges.LatestIsLast` | lib/message_bureau/callback_edges.py:120-125 | the latest record of an edge is the last row of the log with its id |
| `CallbackEdges.PendingIsExact` | lib/message_bureau/facade.py:181-189 | an edge record is listed exactly once if the latest record of its id is that record and outstanding, and otherwise not at all |
| `CallbackEdges.IdsInOrder` | lib/message_bureau/facade.py:181-189 | edges are listed in the order in which their ids first occur in the log |
| `CallbackEdges.CallbackEdgeStore.Record` | lib/message_bureau/callback_edges.py:114-115 | the log grows by the edge |
| `CallbackEdges.CallbackEdgeStore.GetLatest` | lib/message_bureau/callback_edges.py:120-125 | the backward search stops at the last line that has the id or cannot be read, returns the former and raises for the latter; with all lines readable that is the latest record of the id |
| `CallbackEdges.CallbackEdgeStore.PendingEdges` | lib/message_bureau/facade.py:181-189 | the forward pass agrees with the backward search for every edge; raises exactly when a row is malformed |
| `Heartbeat.EvaluateKeeps` | lib/heartbeat/engine_runtime.py:10-51 | one evaluation keeps the spacing and counts its own notice |
| `Heartbeat.DecidesExactly` | lib/heartbeat/engine_runtime.py:10-51 | with readable timestamps: newer progress resets exactly when a notice is outstanding; a first notice comes exactly when none is and the silence has reached its start; a further one exactly when the maximum allows it and the interval is over |
| `Heartbeat.FirstDecision` | lib/heartbeat/engine_runtime.py:10-51 | the first evaluation gives a notice exactly when the subject has been silent long enough |
| `Heartbeat.UnreadableIsNoSilence` | lib/heartbeat/engine_runtime.py:128-132 | a timestamp that cannot be read never leads to a notice while there is a silence to wait for |
| `Heartbeat.RunIsSpaced` | lib/heartbeat/engine_runtime.py:93-155 | in every run under one policy: the count equals the notices since the last reset, stays within the limit, and (count - 1) intervals fit between the first and the last notice |
| `Heartbeat.NoticesAreApart` | lib/heartbeat/engine_runtime.py:145-155 | a repeated notice comes at least one interval after the one before it, whatever the clock did |
| `MergeTree.Merge` | lib/provider_profiles/materializer.py:396-410 | the loop over the children, with the missing target directory and the error for a target path that leads to no directory |
| `MergeTree.MergeAt` | lib/provider_profiles/materializer.py:396-410 | at every path the merge either moves what the source has there or leaves both sides as they are |
| `MergeTree.MovesIsMovesBelow` | lib/provider_profiles/materializer.py:396-410 | the condition on paths for a move is the one the recursion follows |
| `MergeTree.MovesIffVacant` | lib/provider_profiles/materializer.py:464-485 | for a source without symbolic links, something moves exactly when the target has nothing there and no file or link above it |
| `MergeTree.TargetIsKept` | lib/provider_profiles/materializer.py:396-410 | no file or link of the target changes |
| `MergeTree.FilesAreConserved` | lib/provider_profiles/materializer.py:396-410 | a file of the source ends up at the same path on exactly one side |
| `MergeTree.NoNewFiles` | lib/provider_profiles/materializer.py:396-410 | a file found afterwards was at the same path before |
| `TomlSections.RenderSections` | lib/provider_profiles/codex_home_config.py:1073-1099 | the sections of a payload below a path |
| `TomlSections.RenderRoundTrip` | lib/provider_profiles/codex_home_config.py:1073-1099 | a reader that refuses repeated keys and tables over scalars reads the rendered sections back to the payload without its missing entries |
| `TomlSections.SectionsExactly` | lib/provider_profiles/codex_home_config.py:1073-1099 | there is a header for exactly the tables that hold an assignment or no table, with exactly their assignments, and a part without header for the document's own |
| `TomlSections.InOrder` | lib/provider_profiles/codex_home_config.py:1073-1099 | assignments and tables come in the order of the payload |
| `TomlSections.RenderIsShaped` | lib/provider_profiles/codex_home_config.py:1073-1099 | every header occurs at most once and no top-level assignment follows a header, as the Table section of TOML v1.0.0 requires |
| `TomlSections.PathTextInjective` | lib/provider_profiles/codex_home_config.py:1102-1111 | different table paths are written as different header texts, with bare and quoted keys and dots inside of quotes |
| `TomlSections.HeaderTextsDiffer` | lib/provider_profiles/codex_home_config.py:1073-1111 | no header text occurs twice in the rendered document |
| `JsonText.QuotedInjective` | lib/provider_profiles/codex_home_config.py:370-371 | different paths give different headers |
| `JsonText.PrintableIsKept` | lib/provider_profiles/codex_home_config.py:370-371 | a path of printable characters other than quote and backslash is only put between quotes |
| `TomlLine.TableIsHeader` | lib/provider_profiles/codex_home_config.py:56-56 | a line read as the header of a table ends the table before it if the name holds no ']' |
| `TomlLine.BracketHidesHeader` | lib/provider_profiles/codex_home_config.py:56-56 | a quoted name with ']' makes a header that ends no table |
| `TomlLine.AssignmentLine` | lib/provider_profiles/codex_home_config.py:425-430 | a line `key = value` is read as an assignment of exactly that key |
| `TomlLine.HeaderIff` | lib/provider_profiles/codex_home_config.py:56-56 | the lines that end a table, as the pattern says: space, bracket, a name without closing brackets, one or two closing brackets, space, maybe a comment |
| `TomlLine.BareIff` | lib/provider_profiles/codex_home_config.py:410-415 | a line is taken for a text exactly when it is the text between space with maybe a comment behind |
| `TomlLine.KeyIff` | lib/provider_profiles/codex_home_config.py:425-430 | a line assigns a bare key exactly when it starts with the key, between space, and an equals sign |
| `TomlMerge.FindTable` | lib/provider_profiles/codex_home_config.py:410-415 | the first line read as the header |
| `TomlMerge.TableEnd` | lib/provider_profiles/codex_home_config.py:418-422 | the next header line, or the end |
| `TomlMerge.InsertBehind` | lib/provider_profiles/codex_home_config.py:381-384 | the line goes behind the last line that is not blank |
| `TomlMerge.MergeInto` | lib/provider_profiles/codex_home_config.py:369-385 | one assignment merged into one table of a line list |
| `TomlMerge.MergeSettles` | lib/provider_profiles/codex_home_config.py:369-385 | the table holds its assignment exactly once, behind everything but blank lines, and all lines before and after the table and all other lines in it are the old ones |
| `TomlMerge.MergeKeepsOthers` | lib/provider_profiles/codex_home_config.py:369-385 | all lines that do not assign the key stay in order; only a missing table adds to them |
| `TomlMerge.MergeIsIdempotent` | lib/provider_profiles/codex_home_config.py:369-385 | merging twice is merging once when the header is found again |
| `TomlTwoTables.MergeKeepsSettled` | lib/provider_profiles/codex_home_config.py:364-365 | merging a second table, wherever it is, keeps the first one's assignment if the second header ends tables |
| `TomlTwoTables.HiddenTableRobs` | lib/provider_profiles/codex_home_config.py:364-365 | otherwise the second pass takes the first table's assignment away |
| `TomlTwoTables.MergeAllGrows` | lib/provider_profiles/codex_home_config.py:364-365 | a table that is never found makes every pass add lines |
| `TomlTwoTables.MergeAllKeepsOthers` | lib/provider_profiles/codex_home_config.py:364-385 | over all passes the lines that assign no managed key stay in order, and only missing tables add to them |
| `ProjectTrust.MergeProjectTrust` | lib/provider_profiles/codex_home_config.py:354-366 | the merger over all paths, from text to text; with paths whose headers are found and seen, every path's table holds its trust line |
| `ProjectTrust.ProjectLines` | lib/provider_profiles/codex_home_config.py:370-373 | the header and the assignment that are written for a path |
| `ProjectTrust.TrustHolds` | lib/provider_profiles/codex_home_config.py:354-385 | in the merged text the table of every such path holds exactly one trust line, behind everything but blank lines |
| `ProjectTrust.TrustKeepsOthers` | lib/provider_profiles/codex_home_config.py:354-385 | for all paths, the merged text has all lines that set no trust level, in order, and those of the new tables, up to space at its end |
| `ProjectTrust.HeaderIsFound` | lib/provider_profiles/codex_home_config.py:410-415 | a written header is found again exactly when the path holds no '#' |
| `ProjectTrust.HeaderIsVisible` | lib/provider_profiles/codex_home_config.py:418-422 | it ends other tables exactly when the path holds no ']' |
| `ProjectTrust.TrustIsIdempotent` | lib/provider_profiles/codex_home_config.py:354-385 | for any number of such paths a second run gives the same text, whatever the document |
| `ProjectTrust.OnePathSettlesIff` | lib/provider_profiles/codex_home_config.py:354-385 | one path: a second run changes nothing exactly when the path holds no '#' |
| `ProjectTrust.TwoPathsSettleIff` | lib/provider_profiles/codex_home_config.py:354-385 | two paths: a second run never changes anything exactly when neither holds '#' and the second holds no ']' |
| `FeatureOverrides.MergeFeatureOverrides` | lib/provider_profiles/codex_home_config.py:309-330 | in the merged text the features table holds its override exactly once, and merging it again reaches a text that stays |
| `FeatureOverrides.FeatureLines` | lib/provider_profiles/codex_home_config.py:309-315 | the header and the assignment that are written |
| `FeatureOverrides.OverrideHolds` | lib/provider_profiles/codex_home_config.py:309-330 | after one run the table holds its override exactly once; after the second run nothing changes any more |
| `FeatureOverrides.OverrideSettlesIff` | lib/provider_profiles/codex_home_config.py:309-330 | a second run changes nothing exactly when the table was there or the text has no line break but the newline |
| `FeatureOverrides.FormFeedIsReplaced` | lib/provider_profiles/codex_home_config.py:309-330 | two lines with a form feed between them, which the second run replaces |
| `FeatureOverrides.OverrideAddedLines` | lib/provider_profiles/codex_home_config.py:314-316 | a text without the table keeps its lines, without blank lines at the end and empty ones at the top, and gains the table |
| `ActivityBlock.RemoveBlocks` | lib/provider_profiles/codex_home_config.py:843-855 | the index loop takes all blocks out |
| `ActivityBlock.BlockGoes` | lib/provider_profiles/codex_home_config.py:847-853 | a block goes with both markers and everything between them |
| `ActivityBlock.OpenBlockGoes` | lib/provider_profiles/codex_home_config.py:847-853 | a block that is never closed takes the rest of the document with it |
| `ActivityBlock.DropBlocksBefore` | lib/provider_profiles/codex_home_config.py:854-855 | lines in front of the first block stay as they are |
| `ActivityBlock.NoBlockIsLeft` | lib/provider_profiles/codex_home_config.py:843-855 | no begin line survives |
| `ActivityBlock.ReplaceBlock` | lib/provider_profiles/codex_home_config.py:840-857 | for every rendered block: the lines outside of blocks from the first that is not blank, an empty line, and exactly the one block |
| `ActivityBlock.ManagedMarkers` | lib/provider_profiles/codex_home_config.py:841-842 | the lines that open and close the block |
| `ActivityBlock.RunsLeave` | lib/provider_profiles/codex_home_config.py:840-857 | after n runs: the lines outside of blocks, n empty lines, and exactly one block |
| `ActivityBlock.ReplaceSettlesIff` | lib/provider_profiles/codex_home_config.py:840-857 | a second run changes nothing exactly when there is nothing but blank lines outside of blocks |
| `ActivityBlock.OneLineGrows` | lib/provider_profiles/codex_home_config.py:840-857 | a document of one line that the second run changes |
| `TextLines.JoinOfLines` | lib/provider_profiles/codex_home_config.py:330-330 | splitting and joining a text gives it back exactly when its only line break is the newline |
| `TextLines.BreakEndsLine` | lib/provider_profiles/codex_home_config.py:843-843 | every line break ends a line |
| `TextLines.CarriageReturnNewlineEndsLine` | lib/provider_profiles/codex_home_config.py:843-843 | a carriage return and a newline together end one line |

## Left out

- tmux, sockets, processes, signals, file locks and the command line: operating system calls, no logic of their own.
- Clocks, timestamps and fresh ids: parameters of the model; the stored timestamps of lease, lifecycle and bureau records are not kept.
- `json.loads`, `json.dumps` of rows and the record codecs: an abstract codec that reads its own output back; character encoding of the log files is not modelled.
- SHA-256 config signatures: equal signatures are taken to mean equal signed fields.
- The tokenizer of layout texts and the pattern of a leaf token: layouts are token lists.
- `ReloadOperations.PassOperations`: compares the tokens of layout texts, so two texts that differ only in spacing count as equal, because the tokenizer is left out.
- The shape of a window's layout after panes were killed: tmux decides it.
- Reasons, warnings and diagnostics in plans and results; the scope record of a plan is a flag that says whether it was verified.
- The `update_*` hooks that callers may pass to the transaction instead of the default writers.
- Mailboxes and inbound events of the bureau, reply delivery and artifact spilling: not part of this model.
- `resolve_origin_message_id` looks an origin up in another store; the origin is a parameter.
- The keeper loop apart from how it matches a daemon to the config, the mailbox kernel and the completion detectors: not part of this model.
- `MergeTree.Merge`: does not capture the file system changing in place, only the trees before and after; the loop over legacy session files is not modelled.
- `TomlSections.RenderSections`: scalar values are texts; how strings, numbers, dates, arrays and inline tables are written is not modelled.
- How project root and workspace are resolved to trusted paths: the paths are parameters; the source passes at most two, and different ones.
- Lone surrogates in project paths: characters are Unicode scalar values.
- `ActivityBlock.ReplaceBlock`: the rendered block is a parameter; the results about it ask that its lines are no markers, which rendered TOML lines never are, since they start with a bracket or a key.
- The drain queue's file store, its suggestion builder and the record codecs: copies and lookups.
