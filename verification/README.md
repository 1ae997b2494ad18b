# FleetKanban sidecar: a verified model

The sidecar runs coding agents on a Kanban board. A planner splits a task into subtasks, a scheduler runs them in waves on one
worktree, a reviewer approves or sends the task back, and everything that happens is written to an event log that clients replay
and follow live. A charter with stages and conditions steers the pipeline and is itself edited by machine-written patches.

This project models the parts of the sidecar where correctness is not obvious and proves what they guarantee:

- **Plans and waves** (`DepGraph`, `TopoSort`, `Planner`, `PlanTheorems`, `PlanRows`, `SubtaskStore`, `WritePaths`,
  `WriteSpellings`, `FileIdentity`, `DiskOverlap`, `SubtaskLoop`, `SubtaskLoopTheorems`, `PlanToRun`): from the planner's raw output to
  the last session of the last wave.
- **Patches** (`PatchApply`, `PatchTheorems`, `PatchPlacement`, `PatchInverse`, `PatchParse`, `PatchPrint`, `PatchRoundTrip`,
  `PatchText`): reading, applying and undoing strict unified diffs.
- **Event log** (`EventStore`, `EventLog`, `EventContents`, `FlushRace`, `Archival`, `Broker`, `Watch`, `WatchUnreplayed`, `WatchDrops`): many writers, one
  numbering, replay followed by live delivery.
- **Task states** (`TaskStore`, `TaskWrites`, `TaskFlows`, `Pipeline`, `Verdicts`, `Dispatch`, `DispatchSteps`): compare-and-set rows, user
  steps, the automatic pipeline with its rework cap, and the dispatchers with their concurrency limit.
- **Small interpreters** (`LineBuffer`, `Interpreter`, `Conditions`, `CharterCheck`, `SeedCharter`, `BalancedJson`; `Text` holds the string
  operations they share).

Code that changes things step by step is a method or a class proved against a specification function; protocols with several
goroutines are step systems whose properties hold over every interleaving. Git, the agent sessions, SQL, clocks and the network
are parameters: an outcome function for sessions, an oracle for git, minted ids as an argument, tables as sequences and maps whose
writes are atomic. `dafny verify dfyconfig.toml` checks everything.

## What the proofs showed

Places where the code differs from its own documentation or from what one would expect:

- Planner names are trimmed when registered but not when looked up (planner.go:511, 577). Padded subtasks share the empty id, all
  but one are lost, and the store then rejects the plan (`PlanTheorems.PaddedNamesCollapse`, `SubtaskStore.AcceptedPlanIsStoredIff`).
- A wave member cancelled while it waits for a slot stays pending and is booked as done (orchestrator.go:834-838, 1072-1080;
  `SubtaskLoopTheorems.NothingLeftOpen`). A session that was running when its task was cancelled is failed in memory and stays
  doing in the table (orchestrator.go:833-895, 1095-1117; `SubtaskLoopTheorems.CancelledSessionStaysDoing`, with the exact
  condition in `SubtaskLoopTheorems.NoRowLeftOpenIff`).
- `src/a*` and `src/ab.go` are judged disjoint (orchestrator.go:1251-1268), and so are `src/App.go` and `src/app.go`, or `src/./a`
  and `src/a`, which are one file on NTFS. `WritePaths.MissedOverlapIff` says which pairs are missed as texts,
  `FileIdentity.MissedOnDiskIff` under the case rule of the file system, and `DiskOverlap.MissedFileIff` under the case rule and
  up to empty and dot segments, with wildcards anywhere.
- A hunk with old range `-a,0` is applied before line a, where the unified format puts it after line a (evolver.go:161-165;
  `PatchPlacement.InsertionIsMisplaced`, exactly when in `PatchPlacement.PlacementIff` and
  `PatchPlacement.InsertionIsStandardIff`).
- A patch does not survive printing and reading when a deleted line starts with `--`, an added line with `++`, a line takes
  a mebibyte, or a line ends in a carriage return; in the last case reading succeeds with a different patch
  (`PatchRoundTrip.PatchRoundTripExact`).
- The inverse of a patch does not always restore the text: joining lines may form a CR-LF pair that the next application normalises
  away, and a text without lines is read back as one empty line (`PatchTheorems.UndoesTextIff`, `PatchInverse.CrLfIsLost`,
  `PatchInverse.EmptiedTextGrows`). With headers numbered as the unified format prescribes it also fails for hunks with an empty
  side: the inverse of `-2,1 +1,0` puts the line back before the first one (`PatchInverse.DeletionComesBackEarly`, exactly when in
  `PatchInverse.InverseUndoesStandardIff`). The rows of `PatchTheorems` assume new starts in the program's own numbering.
- Archiving a task's events while a writer holds one of its numbers leaves a gap at the start of the log
  (`Archival.ArchivalStaysNumberedIff` says for which writers).
- The broker promises that a subscriber always sees the latest event; two concurrent Publish calls on a full buffer can drop it
  (`WatchDrops.NewestCanBeDropped`; exactly when in `WatchDrops.PublishKeepsIff`). Deleting a branch by
  hand writes an event that is never published (service.go:1322-1334).
- RunTask is documented to always land on failed(auth) when nobody is signed in; from queued, human review and aborted there is no
  such edge and the task stays (`TaskFlows.RunTask`). RemoveWorktree leaves a task in progress or under review as it is.
- `TaskStore.UpdateFields` by itself allows a stale copy to turn merged back into keep; the callers never write such a copy
  (`TaskStore.MergeUndoneIff`; `TaskFlows.UserStepsKeepMerges` for the user's steps and `Pipeline.StepIsStored` for the
  automatic ones).
- The rework counter is documented to be zero in terminal statuses; crash recovery does not reset it
  (`TaskStore.RecoveryKeepsCounter`), and `TaskStore.CounterPromiseIff` lists every write that breaks the promise.
- A reviewer that times out is documented to leave the task in ai_review; the code moves it to aborted (orchestrator.go:1541-1544,
  1668-1683; `Pipeline.FailedReviewStaysIff`, `Pipeline.ReviewAbortsIff`).
- A self-enqueue after a rework verdict is lost when the previous dispatcher has not unregistered yet
  (`Pipeline.SelfEnqueueCanBeLost`, `Pipeline.SelfEnqueueWorksIff`).
- The interpreter is documented to give `&&` and `||` equal precedence; in the code `&&` binds tighter
  (`Conditions.EqualPrecedenceDiffersIff`).

## Model

| member | source | states |
|---|---|---|
| `TopoSort.TopoSort` | sidecar/internal/copilot/planner.go:614-654 | Returns an order exactly when every dependency is a node and the graph is acyclic; the order lists every node once, after its dependencies, and is the queue order of Kahn's algorithm over the sorted ids |
| `TopoSort.IterationOrderIrrelevant` | sidecar/internal/copilot/planner.go:617-633 | Two sorts of the same nodes give the same list, whatever order the maps were visited in |
| `TopoSort.KahnOrderUnique` | sidecar/internal/copilot/planner.go:635-648 | The queue discipline (roots in id order, then released successors in id order) determines the order completely |
| `TopoSort.CountEdges` | sidecar/internal/copilot/planner.go:615-627 | In-degrees count every dependency entry, duplicates included, and the successor lists are the inverse of the dependency lists with multiplicity |
| `TopoSort.Release` | sidecar/internal/copilot/planner.go:642-647 | Taking a node lowers each dependent by the number of times it names the node and queues exactly those that reach zero, in list order |
| `DepGraph.StuckSetHasCycle` | sidecar/internal/copilot/planner.go:650-652 | A set of nodes each waiting for a member of the set contains a cycle, so a short output list means a cycle or an unknown dependency |
| `DepGraph.OrderedGraphIsAcyclic` | sidecar/internal/copilot/planner.go:611-613 | A graph that has a dependency order is closed and has no cycle |
| `Planner.CleanWritePaths` | sidecar/internal/copilot/planner.go:560-575 | Write paths are trimmed, blanks dropped, and each path kept once, at its first mention |
| `Planner.RegisterIds` | sidecar/internal/copilot/planner.go:509-519 | A blank or repeated trimmed name is reported, first offender first; otherwise each trimmed name has the id minted for it |
| `Planner.MapDependencies` | sidecar/internal/copilot/planner.go:538-553 | Blank dependencies are skipped; the first one equal to the name as written or not registered is the error; the rest become ids |
| `Planner.BuildNode` | sidecar/internal/copilot/planner.go:524-592 | Title, role and dependency checks in order, then the working-set entry, stored under the untrimmed look-up of its name; what the entry reads is PlanRows.NodeIsRow |
| `Planner.NormalisePlan` | sidecar/internal/copilot/planner.go:501-601 | The first failing check is the error; past the checks the plan is accepted exactly when its graph is closed and acyclic, as an ordered plan numbered 0, 1, 2, ... in Kahn order |
| `PlanTheorems.ChecksPassIff` | sidecar/internal/copilot/planner.go:502-559 | All checks pass exactly when there are 1 to 40 subtasks with distinct non-blank names, and every row has a title, an allowed role and dependencies that name other subtasks |
| `PlanTheorems.EverySubtaskHasItsNode` | sidecar/internal/copilot/planner.go:521-593 | With names written without padding the working set holds every subtask under the id minted for it |
| `PlanTheorems.EdgeIff` | sidecar/internal/copilot/planner.go:538-553 | One node depends on another exactly when the planner named it as a dependency |
| `PlanTheorems.AcceptedIffNoNameCycle` | sidecar/internal/copilot/planner.go:594-597 | A plan that passes the checks is accepted exactly when no chain of dependency names closes on itself |
| `PlanTheorems.PaddedNamesCollapse` | sidecar/internal/copilot/planner.go:511-518 | Names are trimmed when registered and not when looked up: the plan keeps one subtask per input exactly when at most one name is padded, and the empty id is used exactly when some name is |
| `PlanTheorems.PaddedPlanLosesASubtask` | sidecar/internal/copilot/planner.go:577-578 | Two independent subtasks whose names start with a space become one node |
| `PlanRows.NodeIsRow` | sidecar/internal/copilot/planner.go:577-592 | The entry of a subtask has the id minted for it, the given task, its title, role and prompt without padding, each in its own column, its write paths once each by first mention, its dependencies as the ids of the subtasks named, in order, and is pending |
| `PlanRows.AcceptedRows` | sidecar/internal/copilot/planner.go:594-600 | An accepted plan without padded names is one such row for each subtask of the input and no other, numbered by its place |
| `PlanRows.PassesIff` | sidecar/internal/copilot/planner.go:502-559 | In the planner's own words: 1 to 40 subtasks, no two under one name, each with a name, a title, a role that is not the reviewer's in any case, and dependencies that are blank or name another subtask |
| `PlanRows.ForbiddenRoleIff` | sidecar/internal/copilot/planner.go:533-536 | The forbidden roles are reviewer, ai_reviewer and ai-reviewer, letter by letter in either case |
| `SubtaskStore.SubtaskFaultIff` | sidecar/internal/task/subtask.go:105-127 | The row check passes exactly when id, task and title are set and no dependency is empty or the subtask itself |
| `SubtaskStore.SubtaskTable.CreatePlan` | sidecar/internal/store/subtask_store.go:227-297 | All subtasks of the plan are inserted under the next round, or none; it succeeds exactly when the parent is named, every row belongs to it and is valid, and all ids are new and distinct |
| `SubtaskStore.SubtaskTable.Update` | sidecar/internal/store/subtask_store.go:136-170 | Overwrites the one row with that id except its task and round; fails exactly for an invalid row or an unknown id |
| `SubtaskStore.MaxRoundIs` | sidecar/internal/store/subtask_store.go:248-256 | The maximum round bounds every round of the task and is reached, and is 0 for a task without rows |
| `SubtaskStore.SubtaskTable.ListLatestRound` | sidecar/internal/store/subtask_store.go:84-111 | Exactly the rows of the highest round of the task, each once, ascending by order_idx, in whatever order they were inserted |
| `SubtaskStore.PlanHandOff` | sidecar/internal/store/subtask_store.go:89-111 | After a plan is stored the loop reads back exactly that plan, in execution order, whatever earlier rounds hold |
| `SubtaskStore.OtherTasksUndisturbed` | sidecar/internal/store/subtask_store.go:89-111 | Storing a plan leaves the latest round of every other task as it was |
| `SubtaskStore.AcceptedPlanIsStoredIff` | sidecar/internal/orchestrator/orchestrator.go:644-650 | A plan the planner accepted is stored exactly when no name in it was padded |
| `PlanToRun.AcceptedPlanRunsToCompletion` | sidecar/internal/orchestrator/orchestrator.go:709-721 | A stored plan whose rows are read back and run by the loop without error completes: every subtask the planner named runs once, after its dependencies; the waves share the subtasks out, are at most as many as there are subtasks, and exactly the sessions of the last one are told that it is final |
| `PlanToRun.PlanAndRun` | sidecar/internal/orchestrator/orchestrator.go:643-721 | Planner, store, read-back and loop in one call: it gets to the run exactly when the checks pass, the named dependencies are closed and acyclic, the task is named and no name is padded; what it runs is every subtask as the planner put it, column by column, in the next round; and if every session succeeds there is no error and the run is complete |
| `SubtaskLoop.ScanDependencies` | sidecar/internal/orchestrator/orchestrator.go:947-957 | Reports whether every dependency is resolved and, if so, whether one failed |
| `SubtaskLoop.BuildReady` | sidecar/internal/orchestrator/orchestrator.go:945-972 | Ready are the remaining subtasks whose dependencies are all done; those with a failed dependency fail and leave, in any visiting order of the map |
| `SubtaskLoop.SortByOrder` | sidecar/internal/orchestrator/orchestrator.go:983-988 | The same subtasks, ascending by order_idx |
| `SubtaskLoop.PackBatch` | sidecar/internal/orchestrator/orchestrator.go:990-1011 | The first ready subtask is always admitted, the batch is pairwise non-overlapping or a single subtask without paths, and whoever is left out has to wait for a named reason |
| `SubtaskLoop.RunWave` | sidecar/internal/orchestrator/orchestrator.go:1031-1047 | In any interleaving with at most the given number of sessions, every member ends as its outcome says in memory and as far as the store took its updates in the table, others are untouched, each session is logged with exactly the members that were running, and the error is one of the members' own |
| `SubtaskLoop.Reconcile` | sidecar/internal/orchestrator/orchestrator.go:1072-1080 | Batch members leave remaining; failed ones join failed, all others done, including those that never got a slot |
| `SubtaskLoop.CancelRemaining` | sidecar/internal/orchestrator/orchestrator.go:1095-1117 | Every remaining subtask that is not done or failed becomes failed, and nothing else changes |
| `SubtaskLoop.RunSubtaskLoop` | sidecar/internal/orchestrator/orchestrator.go:782-1120 | Terminates; each subtask is opened at most once, in the wave it belongs to and with that wave's final flag, with all dependencies done and no overlapping subtask doing; the waves hold every subtask but those left, once; without an error whoever is left pending has a dependency that never ran; with one, nothing is left running in memory and pending are exactly the members that got no slot; every stored row is what the accepted updates made of it |
| `SubtaskLoopTheorems.FullLogIsTopologicalOrder` | sidecar/internal/orchestrator/orchestrator.go:941-1086 | If every subtask ran, the order of the sessions is a dependency order |
| `SubtaskLoopTheorems.DrainsIffAcyclic` | sidecar/internal/orchestrator/orchestrator.go:974-981 | After a run without errors every subtask is done exactly when the dependencies are known and acyclic |
| `SubtaskLoopTheorems.AcceptedPlanCompletes` | sidecar/internal/orchestrator/orchestrator.go:1019-1023 | An accepted plan whose sessions all succeed runs every subtask once, in at most n waves that together hold each subtask once, and tells the sessions of the last wave and no others that it is final |
| `SubtaskLoopTheorems.WaveMembersShareNoFile` | sidecar/internal/orchestrator/orchestrator.go:990-1011 | Two members of a wave never declare a common file name, names taken as texts, for plain paths and wildcards that start a component |
| `SubtaskLoopTheorems.WaveMembersShareNoFileOnDisk` | sidecar/internal/orchestrator/orchestrator.go:990-1011 | On a file system that takes several spellings for one file, two members of a wave share a file only if one of the paths is not written in folded form or has a wildcard inside a component |
| `SubtaskLoopTheorems.RunningSessionsShareNoFile` | sidecar/internal/orchestrator/orchestrator.go:823-839 | When a session is opened, no other subtask that is doing at that moment declares a common file name, names taken as texts |
| `SubtaskLoopTheorems.NothingLeftOpen` | sidecar/internal/orchestrator/orchestrator.go:1072-1117 | In memory, after an error nothing is left pending or doing exactly when every member of the last wave got its slot |
| `SubtaskLoopTheorems.RowReads` | sidecar/internal/orchestrator/orchestrator.go:833-895 | What every row reads after the run, by the outcome of its session and by which of its updates the store took |
| `SubtaskLoopTheorems.NoRowLeftOpenIff` | sidecar/internal/orchestrator/orchestrator.go:833-895 | In the table, after an error no row is left pending or doing exactly when every subtask that was in a wave got its slot and had its last update accepted |
| `SubtaskLoopTheorems.CancelledSessionStaysDoing` | sidecar/internal/orchestrator/orchestrator.go:1095-1117 | A session that was running when its task was cancelled leaves its row doing: its last update comes with a context that is done and the cleanup skips it |
| `WriteSpellings.PathsIntersectIff` | sidecar/internal/orchestrator/orchestrator.go:1132-1183 | For any two declarations as written: they overlap exactly when the parts of one begin those of the other, parts being cut at either separator, without padding, without one "." and one separator in front, and up to the first wildcard |
| `WriteSpellings.LiteralStopsAtMark` | sidecar/internal/orchestrator/orchestrator.go:1172-1183 | Of a token the text before its first star, question mark, bracket or brace counts |
| `WriteSpellings.UsualSpellings` | sidecar/internal/orchestrator/orchestrator.go:1147-1170 | A path behind "./" or a separator, padded, or with backslashes is a spelling of it |
| `WriteSpellings.SpellingsAreJudgedAlike` | sidecar/internal/orchestrator/orchestrator.go:1132-1170 | Every spelling of a plain path overlaps every other one, and overlaps exactly what the path does |
| `WriteSpellings.MissedSpellingIff` | sidecar/internal/orchestrator/orchestrator.go:1132-1170 | Declarations without wildcards that overlap name one place inside the other; the test misses such a pair exactly when its parts do not begin one another, which takes an empty or "." part behind the lead |
| `WriteSpellings.TidySpellingsAreJudgedExactly` | sidecar/internal/orchestrator/orchestrator.go:1132-1170 | Without such parts the overlap is exactly that the segments of one begin those of the other, in any spelling |
| `WriteSpellings.BatchPartsAreApart` | sidecar/internal/orchestrator/orchestrator.go:990-1011 | No two members of a batch declare paths whose parts begin one another |
| `WriteSpellings.SpellingsAreNeverTogether` | sidecar/internal/orchestrator/orchestrator.go:990-1011 | Two subtasks that spell one path in any two ways are never in one batch |
| `WriteSpellings.SpellingsNeverRunTogether` | sidecar/internal/orchestrator/orchestrator.go:823-839 | No session is opened while another subtask that spells one of its paths is doing |
| `WritePaths.MissedOverlapIff` | sidecar/internal/orchestrator/orchestrator.go:1132-1183 | Names taken as texts, the overlap test misses two tokens that can name a common file exactly when a wildcard of one stops inside a path component of the other |
| `WritePaths.DisjointTokensShareNoFile` | sidecar/internal/orchestrator/orchestrator.go:1132-1145 | Plain paths and wildcards that start a component: tokens judged disjoint name no common file, names taken as texts |
| `WritePaths.GlobInsideComponentIsMissed` | sidecar/internal/orchestrator/orchestrator.go:1251-1268 | A stem followed by a wildcard is judged disjoint from any longer name with that stem, which the wildcard may cover |
| `FileIdentity.ShareOnDiskIff` | sidecar/internal/orchestrator/orchestrator.go:1132-1183 | Under any case rule of the file system, two tokens can name one file exactly when their folded forms overlap by the test or a wildcard stops inside a component of the folded forms |
| `FileIdentity.MissedOnDiskIff` | sidecar/internal/orchestrator/orchestrator.go:1132-1183 | So the test misses a pair on disk exactly when it judges the texts disjoint and the folded forms do one of the two |
| `FileIdentity.CaseVariantsAreMissed` | sidecar/internal/worktree/manager.go:821-827 | Plain paths that differ only in case are judged disjoint although they are one file |
| `FileIdentity.PlainShareIff` | sidecar/internal/orchestrator/orchestrator.go:1132-1183 | Two paths without wildcards name one file, up to empty and dot segments, exactly when the segments of one begin those of the other |
| `FileIdentity.TidyPathsAreJudgedExactly` | sidecar/internal/orchestrator/orchestrator.go:1251-1268 | For paths without wildcards and without empty or dot segments the test gives exactly that answer |
| `FileIdentity.DotSegmentIsMissed` | sidecar/internal/orchestrator/orchestrator.go:1132-1183 | A path behind a dot segment is judged disjoint from the same path without it |
| `DiskOverlap.ShareOneFileIff` | sidecar/internal/orchestrator/orchestrator.go:1132-1183 | Case, empty and dot segments and wildcards together: two tokens can name one file exactly when the cones of their folded forms meet, a cone being a directory and the stem of the segment a wildcard leaves open |
| `DiskOverlap.MissedFileIff` | sidecar/internal/orchestrator/orchestrator.go:1132-1183 | So the test misses a pair exactly when it judges the texts disjoint and those cones meet |
| `DiskOverlap.CaseBehindDotIsMissed` | sidecar/internal/orchestrator/orchestrator.go:1132-1183 | src/./App.go and src/app.go are judged disjoint |
| `DiskOverlap.WildcardBehindDotIsMissed` | sidecar/internal/orchestrator/orchestrator.go:1251-1268 | All of src/. and the file src/a are judged disjoint |
| `PatchApply.WalkLine` | sidecar/internal/ihr/evolver.go:171-217 | One body line: what it expects of the text, what it emits, how far it moves, and which of the three faults it is when it does not fit |
| `PatchApply.WalkBody` | sidecar/internal/ihr/evolver.go:167-218 | Walking a body succeeds exactly when its lines are acceptable one after the other, and collects the new side |
| `PatchApply.WalkAcceptsIffFits` | sidecar/internal/ihr/evolver.go:167-218 | The walk accepts a body exactly when its old side is the slice of the text it starts at |
| `PatchApply.ApplyHunks` | sidecar/internal/ihr/evolver.go:151-231 | Applies hunks one after the other at their own start shifted by the net growth so far; a start of 0 means the beginning |
| `PatchApply.CountTouched` | sidecar/internal/ihr/evolver.go:127-141 | Counts the added and deleted lines of all hunks |
| `PatchApply.ApplyToContent` | sidecar/internal/ihr/evolver.go:125-234 | Applying parsed hunks to a text: the error for too many changes exactly over 50 changed lines, another one exactly when a hunk does not fit, otherwise the joined lines |
| `PatchText.BodyLineMeaning` | sidecar/internal/ihr/evolver.go:171-217 | A space keeps a line, a minus sign takes it out, a plus sign puts it in, a backslash is a remark, a blank line keeps a blank line; only those put in or taken out count |
| `PatchText.FiftyChangesAtMost` | sidecar/internal/ihr/evolver.go:125-144 | Within fifty changed lines only the fit decides; beyond them nothing is applied |
| `PatchText.LinesAreRead` | sidecar/internal/ihr/evolver.go:143-150 | The lines a text is patched by are those it was written from, with LF or CR-LF at each end; a carriage return inside a line is kept |
| `PatchText.ReplaceOneLine` | sidecar/internal/ihr/evolver.go:115-234 | The text "@@ -k +k @@", "-x", "+y" puts y in place of line k when that line reads x, changes nothing else, and is refused otherwise |
| `PatchText.OldBecomesNew` | sidecar/internal/ihr/evolver.go:370-388 | "@@ -1 +1 @@" with "-old" and "+new" makes "new" of "old" |
| `PatchTheorems.OrderedPatchReplacesSlices` | sidecar/internal/ihr/evolver.go:151-231 | For hunks in order, application succeeds exactly when every old side equals its slice of the original, and replaces exactly those slices |
| `PatchTheorems.ApplyIsReplacement` | sidecar/internal/ihr/evolver.go:151-231 | The running offset agrees with original coordinates from any point of the file on |
| `PatchTheorems.InvertIsConsistent` | sidecar/internal/ihr/evolver.go:146-166 | With new starts read as the program reads old ones: the inverse of an ordered patch with consistent new starts is again such a patch |
| `PatchTheorems.InverseUndoesLines` | sidecar/internal/ihr/evolver.go:151-231 | In that numbering, applying a patch and then its inverse gives the lines back |
| `PatchTheorems.UndoesTextIff` | sidecar/internal/ihr/evolver.go:146-233 | Whatever the numbering, on texts the inverse gives back the LF-normalised original exactly when it does so on the patched lines, a line is left and no CR-LF pair was formed |
| `PatchTheorems.InverseUndoesTextIff` | sidecar/internal/ihr/evolver.go:146-233 | In the numbering of the program, exactly when the patched text has a line left and no CR-LF pair was formed |
| `PatchInverse.InverseUndoesStandardIff` | sidecar/internal/ihr/evolver.go:151-231 | In the numbering of the unified format, the inverse gives the lines back exactly when every pure insertion after a line adds only copies of the line that then follows, and every pure deletion behind a line removes only copies of the line before |
| `PatchInverse.InverseUndoesFullHunks` | sidecar/internal/ihr/evolver.go:151-231 | So in that numbering a patch whose hunks have lines on both sides is always undone |
| `PatchInverse.InverseUndoesStandardTextIff` | sidecar/internal/ihr/evolver.go:146-233 | The same on texts, with the line left and the line ends as further conditions |
| `PatchInverse.SeparatedIsOrdered` | sidecar/internal/ihr/evolver.go:151-166 | Hunks in the order of the format with a line between them are in order for the program too |
| `PatchInverse.DeletionComesBackEarly` | sidecar/internal/ihr/evolver.go:161-166 | The hunk -2,1 +1,0: its inverse puts the line back before the first one |
| `PatchInverse.CrLfIsLost` | sidecar/internal/ihr/evolver.go:146-233 | A line ending in CR CR LF: the inverse does not give the normalised text back |
| `PatchInverse.EmptiedTextGrows` | sidecar/internal/ihr/evolver.go:146-233 | A text whose only line is deleted comes back with an empty line |
| `PatchParse.AtoiItoa` | sidecar/internal/ihr/evolver.go:371-388 | Every 64-bit number survives printing and reading |
| `PatchParse.CheckHunk` | sidecar/internal/ihr/evolver.go:299-334 | The first fault of a hunk: stray line, then old count, then new count |
| `PatchParse.ParseHunks` | sidecar/internal/ihr/evolver.go:248-337 | Reading a diff: fences stripped, file headers skipped, hunks split at @@, counts checked; a line of a mebibyte or more is an error unless a malformed header comes before it |
| `PatchParse.ApplyPatch` | sidecar/internal/ihr/evolver.go:115-234 | An empty diff, a parse error (a line that is too long included) or a hunk that does not fit is an error; otherwise the patched text |
| `PatchPrint.HeaderRoundTrip` | sidecar/internal/ihr/evolver.go:339-388 | A printed header reads back as the same four numbers, for all 64-bit values, with a count of one written or left out on either side, and any text behind the closing marks |
| `PatchPrint.HeaderIsReadIff` | sidecar/internal/ihr/evolver.go:339-388 | Of two words between the marks the first must be a minus sign and a range, the second a plus sign and a range |
| `PatchPrint.OpenHeaderIsRefused` | sidecar/internal/ihr/evolver.go:345-350 | A header that is not closed is malformed |
| `PatchPrint.FenceIsStripped` | sidecar/internal/ihr/evolver.go:394-408 | What stands between the first line of a code fence and its last three backquotes is read as it stands, whatever space comes before and whatever text without a backquote after |
| `PatchRoundTrip.PatchRoundTrip` | sidecar/internal/ihr/evolver.go:248-337 | Reading a printed, correctly counted patch succeeds exactly when no body line looks like a file header and no line takes a mebibyte, and then returns its hunks with carriage returns at line ends dropped; counts of one left out, section headings, file headers, lines before the first hunk, a missing final newline and a code fence make no difference |
| `PatchRoundTrip.PatchRoundTripExact` | sidecar/internal/ihr/evolver.go:252-288 | It returns those very hunks exactly when, besides, no body line ends in a carriage return |
| `PatchRoundTrip.DeletedRuleIsSkipped` | sidecar/internal/ihr/evolver.go:267-283 | The deletion of the line --x prints as ---x and makes reading fail |
| `PatchRoundTrip.CarriageReturnIsDropped` | sidecar/internal/ihr/evolver.go:252-288 | An added line ending in a carriage return is read back without it |
| `PatchPlacement.PlacementIff` | sidecar/internal/ihr/evolver.go:151-166 | The start of a hunk is the one the unified format prescribes exactly when the hunk is not a pure insertion after a line |
| `PatchPlacement.OrderedPatchIsStandard` | sidecar/internal/ihr/evolver.go:151-231 | An ordered patch without such insertions replaces, by the rule of the format itself, exactly the slices it names |
| `PatchPlacement.InsertionIsStandardIff` | sidecar/internal/ihr/evolver.go:161-166 | A pure insertion after line a gives what the format says exactly when both refuse it, or line a exists and every inserted line equals it |
| `PatchPlacement.InsertionIsMisplaced` | sidecar/internal/ihr/evolver.go:161-166 | The hunk -1,0 +2,1 puts its line before the first line, where the format puts it after |
| `EventStore.EventTable.Append` | sidecar/internal/store/event_store.go:24-40 | One row is added exactly when it is valid and clashes with no row by id or by task and number |
| `EventStore.EventTable.AppendAutoSeq` | sidecar/internal/store/event_store.go:53-90 | The event gets the task's next number; only an invalid event or a reused id fails |
| `EventStore.EventTable.AppendBatch` | sidecar/internal/store/event_store.go:102-124 | All events or none, in chunks of one transaction |
| `EventStore.AppendChunk` | sidecar/internal/store/event_store.go:127-151 | One compound insert succeeds exactly when no two rows share a key |
| `EventStore.NextNumberIsFree` | sidecar/internal/store/event_store.go:156-167 | The next number is above every number of the task and one above its largest |
| `EventStore.ListedIsSorted` | sidecar/internal/store/event_store.go:172-205 | The listing holds exactly the task's rows above the cutoff, ascending |
| `EventStore.EventTable.ListByTask` | sidecar/internal/store/event_store.go:172-205 | The task's events above the cutoff, ascending: all of them, or the lowest ones up to the limit |
| `EventStore.EventTable.DeleteByTask` | sidecar/internal/store/event_store.go:217-224 | Exactly the rows of other tasks remain, in their order |
| `EventLog.EventConsumer.FlushBatch` | sidecar/internal/orchestrator/orchestrator.go:1407-1449 | Writes the buffered batch or, on a clash, nothing; in step with the model of all writers |
| `EventLog.EventConsumer.ReceiveEvent` | sidecar/internal/orchestrator/orchestrator.go:1451-1473 | Numbers the event from the cached counter; deltas are buffered, everything else is flushed at once |
| `EventLog.NumbersAreContiguous` | sidecar/internal/orchestrator/orchestrator.go:1398-1482 | However cached-counter consumers, auto-numbering writers and ask-then-append writers interleave, every task's numbers are 1..n in order of insertion and no two rows share a key |
| `EventLog.FlushSucceedsIff` | sidecar/internal/orchestrator/orchestrator.go:1407-1413 | A batch of sound events with new ids is written exactly when its first number is one above the length of the log of its task; otherwise it leaves no trace and the consumer ends |
| `EventContents.ReceiveQueues` | sidecar/internal/orchestrator/orchestrator.go:1450-1462 | A received event is queued behind those the consumer holds, its id, kind and payload as they are, under the task of the consumer and its next number, and nothing is written yet |
| `EventContents.StepAdds` | sidecar/internal/orchestrator/orchestrator.go:1398-1482 | What a step adds to the log is the whole batch of the consumer in order, or the one event of a single writer, or nothing |
| `EventContents.NothingIsInvented` | sidecar/internal/store/event_store.go:24-124 | However the writers interleave, every row has the id, kind and payload of an event some writer handed in before |
| `FlushRace.LagIff` | sidecar/internal/orchestrator/orchestrator.go:1398-1482 | Over a run, from the step in which a consumer read its counter on, that is so exactly while no other step has added to the log of its task |
| `FlushRace.FlushSucceedsUnlessOthersWrote` | sidecar/internal/orchestrator/orchestrator.go:1398-1413 | So a batch of sound events with new ids is written exactly when nobody else has written to the task since the counter was read |
| `EventLog.ListingIsSuffix` | sidecar/internal/store/event_store.go:169-176 | Replaying from a cutoff gives exactly the rest of the task's log |
| `Archival.ArchivalStaysNumberedIff` | sidecar/internal/reaper/service.go:296-301 | After a task is archived, every possible continuation keeps every log at 1..n exactly when no writer of the task, consumer or ask-then-append, holds a number past 1 that it can still use |
| `Archival.ArchivalCanLeaveGap` | sidecar/internal/reaper/service.go:296-301 | A run from the empty log leads to a state in which archiving breaks the numbering |
| `Broker.EventBroker.Publish` | sidecar/internal/ipc/broker.go:44-66 | Every subscriber gets the event; a full buffer gives up its oldest one |
| `Broker.EventBroker.Subscribe` | sidecar/internal/ipc/broker.go:70-77 | A new id with an empty buffer, others untouched |
| `Broker.EventBroker.Unsubscribe` | sidecar/internal/ipc/broker.go:80-90 | Exactly that subscriber goes |
| `Broker.BufferHoldsLatest` | sidecar/internal/ipc/broker.go:40-43 | Publishing one at a time, a subscriber that never reads holds exactly the latest events |
| `Watch.WatchSendsOnce` | sidecar/internal/ipc/events.go:26-88 | For a replayed task: nothing at or below the watermark is sent, nothing twice, and an event above it that was not sent is on its way, dropped, or was never published |
| `WatchUnreplayed.UnreplayedSentOnce` | sidecar/internal/ipc/events.go:26-88 | For a task without a watermark or with a failed replay: only events above the watermark that were not published before Subscribe returned are sent, none twice, each of them is sent, on its way, dropped or never published, and sent exactly once when all is settled |
| `Watch.QuietWatchIsComplete` | sidecar/internal/ipc/events.go:26-88 | When everything has settled and nothing was dropped or left unpublished, every event above the watermark was sent exactly once |
| `Watch.ReplayMark` | sidecar/internal/ipc/events.go:47-67 | The replay raises the cutoff to the last number the log held, so buffered copies are filtered and later events are not |
| `WatchDrops.NoOverflowNoDrop` | sidecar/internal/ipc/broker.go:51-64 | Nothing is dropped in a run in which no Publish meets a full buffer |
| `WatchDrops.PublishAlone` | sidecar/internal/ipc/broker.go:51-64 | An undisturbed Publish on a full buffer drops the oldest and keeps the newest |
| `WatchDrops.PublishKeepsIff` | sidecar/internal/ipc/broker.go:51-64 | Over any run, a Publish that met a full buffer keeps its event, as the newest, exactly when the insertions between its eviction and its second try, less the removals, stay below the room the eviction left; otherwise the event is dropped, which takes an insertion by another Publish that nothing made up for |
| `WatchDrops.SerialPublishKeeps` | sidecar/internal/ipc/broker.go:40-64 | Publishers that take turns never lose the newest event, wherever deliveries, writes and replays fall |
| `WatchDrops.NewestCanBeDropped` | sidecar/internal/ipc/broker.go:51-64 | Two concurrent Publish calls on a full buffer can drop the newer event while older ones stay |
| `TaskStore.ValidateIff` | sidecar/internal/task/task.go:136-165 | A row is valid exactly when id, repository and goal are set, it has an error code exactly when failed and a finalization exactly when done |
| `TaskStore.TaskTable.CreateTask` | sidecar/internal/store/task_store.go:23-56 | A valid task with a new id is inserted; a queued or planning task counts as having its branch |
| `TaskStore.TaskTable.TransitionTask` | sidecar/internal/store/task_store.go:180-275 | Compare-and-set on the status along allowed edges; error and finalization are cleared unless they belong to the target; the rework counter is raised, reset or kept by target |
| `TaskStore.BuildUpdate` | sidecar/internal/store/task_store.go:223-259 | The columns one transition sets; what they read is TaskWrites.MovedReads |
| `TaskWrites.WaysIn` | sidecar/internal/task/transition.go:33-99 | The edges of the state machine by where they lead |
| `TaskWrites.TransitionSucceedsIff` | sidecar/internal/store/task_store.go:180-275 | A transition succeeds exactly along an edge, from the status the row is in, with a code for a failure and a finalization for a completion |
| `TaskWrites.MovedReads` | sidecar/internal/store/task_store.go:199-259 | After a change of status: failed with the code given and done with the finalization given, neither in any other status; the counter one higher from ai_review to queued, zero on every other way to queued and at the end, kept otherwise; all other columns as before |
| `TaskWrites.TransitionWrites` | sidecar/internal/store/task_store.go:180-275 | A successful transition writes that row, so, and no other |
| `TaskWrites.RefusedChangesNothing` | sidecar/internal/store/task_store.go:263-275 | A refused write changes nothing |
| `TaskWrites.CreateWrites` | sidecar/internal/store/task_store.go:23-56 | A new row reads as given, with the branch flag set while the task still waits |
| `TaskWrites.UpdateWrites` | sidecar/internal/store/task_store.go:125-160 | A copy written back gives the row its texts, error code, finalization and counter; identity, repository, status and branch flag stay the row's |
| `TaskWrites.RecoveryWrites` | sidecar/internal/store/task_store.go:304-356 | Recovery fails what was in progress as interrupted and keeps the rest of the row; other rows stay |
| `TaskStore.TaskTable.UpdateTask` | sidecar/internal/store/task_store.go:125-160 | A valid copy whose status is still the row's overwrites everything but identity, repository, status and branch flag |
| `TaskStore.TaskTable.DeleteTask` | sidecar/internal/store/task_store.go:292-295 | Removes that row and no other |
| `TaskStore.TaskTable.Recover` | sidecar/internal/store/task_store.go:304-356 | Exactly the tasks in progress become failed with code interrupted, and exactly those are reported |
| `TaskStore.RowsStayValid` | sidecar/internal/store/task_store.go:125-275 | However creations, transitions, stale copies, recoveries and deletions interleave, every row stays valid |
| `TaskStore.StatusFollowsEdges` | sidecar/internal/task/transition.go:33-99 | A write moves a status along an allowed edge or not at all, and only a transition from the current status or crash recovery moves it |
| `TaskStore.StatusBalance` | sidecar/internal/store/task_store.go:263-275 | Over any run a status is left as often as it was entered, counting where the task starts and where it is |
| `TaskStore.AtMostOneWins` | sidecar/internal/store/task_store.go:263-275 | Of any number of writes racing to take a task out of a status nobody puts it back into, at most one wins |
| `TaskStore.SuccessLeaves` | sidecar/internal/store/task_store.go:180-275 | A transition reports success exactly when it is legal and took the task out of its source status |
| `TaskStore.MergedStaysMerged` | sidecar/internal/orchestrator/finalize.go:160-202 | No run of the writes the program makes turns a merged task back to keep |
| `TaskStore.MergeUndoneIff` | sidecar/internal/store/task_store.go:125-160 | A single write turns merged back to keep exactly when it is a valid update from a copy taken before the merge |
| `TaskStore.CounterPromiseIff` | sidecar/internal/store/task_store.go:125-356 | Given zero counters in all terminal rows, a write keeps them at zero exactly when it is not crash recovery of a reworked task in progress, nor a creation or update that succeeds with a terminal status and a nonzero counter |
| `TaskStore.RecoveryKeepsCounter` | sidecar/internal/store/task_store.go:304-356 | Crash recovery fails a reworked task without resetting its counter; the same edge taken by a transition resets it |
| `TaskFlows.RunTask` | sidecar/internal/app/service.go:861-909 | Signed in: queued, aborted and failed tasks end up queued, their counter at zero, and the call succeeds exactly when the orchestrator then accepts them; others are refused. Signed out: the task ends as failed with the code for sign-in, its counter at zero, exactly from planning, in progress or AI review |
| `TaskFlows.CancelTask` | sidecar/internal/app/service.go:1005-1036 | Without a live session: in progress and AI review become aborted with their counter kept, planning and queued become cancelled, others stay; no other column changes |
| `TaskFlows.ReviewAllowedIff` | sidecar/internal/app/service.go:1370-1391 | Approval and rejection are for a task under AI review; rework, with feedback that is not blank, for a task under either review |
| `TaskFlows.FinalizableIff` | sidecar/internal/orchestrator/finalize.go:39-202 | What finalizing needs, by the status of the task: worktree, branches and the git steps that must succeed |
| `TaskFlows.SubmitReview` | sidecar/internal/app/service.go:1362-1434 | An approved task is up for the user's review, its counter kept; a rejected one failed with the code for a rejected review; one sent back is queued with the feedback as given, its counter one higher from AI review and zero from human review; nothing else changes, and nothing at all when it is refused |
| `TaskFlows.Finalize` | sidecar/internal/orchestrator/finalize.go:39-139 | Succeeds exactly when status, worktree, branches and git allow it: keep then ends as done and kept, merge as done and merged, discard as cancelled, a merge after an earlier keep as merged without a branch, and nothing else changes; otherwise the row is untouched |
| `TaskFlows.FinalizeDoneMerge` | sidecar/internal/orchestrator/finalize.go:171-202 | A kept task becomes merged and loses its branch flag, exactly when the branch is there and git succeeds |
| `TaskFlows.WorktreeRemoved` | sidecar/internal/app/service.go:669-679 | Removing the worktree cancels the task exactly from queued, planning, human review or aborted |
| `TaskFlows.StepKeepsMerge` | sidecar/internal/orchestrator/finalize.go:160-202 | What any user step may do to the table leaves a merged task merged |
| `TaskFlows.UserStepsKeepMerges` | sidecar/internal/orchestrator/finalize.go:160-202 | So a merged task stays merged over any sequence of user steps |
| `Pipeline.EffectiveMaxRework` | sidecar/internal/orchestrator/orchestrator.go:311-316 | The cap in force is the charter's when it is positive, otherwise two |
| `Pipeline.StepProgress` | sidecar/internal/orchestrator/orchestrator.go:435-551 | Every automatic step keeps the copies up to date, lowers the measure, and a requeue uses up one unit of the rework budget |
| `Pipeline.StepIsStored` | sidecar/internal/store/task_store.go:125-356 | Every automatic step changes the row by at most one write of the store: a transition, a copy of the kind the callers hold, or crash recovery |
| `Pipeline.RunKeepsRowSound` | sidecar/internal/task/transition.go:33-99 | Over a whole automatic run a valid row stays valid, keeps its id and moves along the edges |
| `Pipeline.ReviewAbortsIff` | sidecar/internal/orchestrator/orchestrator.go:1664-1690 | Under AI review a step aborts the task exactly when the reviewer returns an error that is a cancellation or comes with a context that is done |
| `Pipeline.FailedReviewStaysIff` | sidecar/internal/orchestrator/orchestrator.go:1664-1690 | A failed review leaves the task in ai_review exactly when its context is live and the error is no cancellation |
| `Pipeline.DoneReviewOnlyAborts` | sidecar/internal/orchestrator/orchestrator.go:1564-1570 | Once its context is done, a review can only abort the task or leave the row as it is |
| `Verdicts.ReviewMovesIff` | sidecar/internal/orchestrator/orchestrator.go:1697-1814 | Under AI review a task goes to human_review exactly on an approval or an escalation and to queued exactly on a requeue, each on a live context; it never fails |
| `Verdicts.ApprovalOutcome` | sidecar/internal/orchestrator/orchestrator.go:1697-1709 | An approval puts the task before the user, ends the review and changes nothing else on the row |
| `Verdicts.RejectionAtTheCap` | sidecar/internal/orchestrator/orchestrator.go:1760-1780 | A rejection at the cap and the next step of the reviewer end in human_review with the counter kept and a report of the rounds and the last feedback on the row |
| `Verdicts.RejectionBelowTheCap` | sidecar/internal/orchestrator/orchestrator.go:1782-1814 | A rejection below the cap and the next step of the reviewer end in queued with one more round on the counter, the feedback on the row and one request to enqueue |
| `Verdicts.DispatchMovesIff` | sidecar/internal/orchestrator/orchestrator.go:435-551 | Outside the review: which step takes the task to planning, in progress, ai_review or failed, with which code; no other step changes its status |
| `Verdicts.PlacementIsSaved` | sidecar/internal/orchestrator/orchestrator.go:521-587 | The worktree and branch a dispatcher chose are on the row once saved |
| `Verdicts.RunStaysFaithful` | sidecar/internal/orchestrator/orchestrator.go:1578-1587 | Over a whole automatic run the row stays valid and a review remembers it as it stands |
| `Pipeline.PipelineTerminates` | sidecar/internal/orchestrator/orchestrator.go:1747-1812 | Every automatic run, crashes included, is finite, with at most max(0, cap - rework_count) requeues |
| `Pipeline.EnqueuedTaskTerminates` | sidecar/internal/orchestrator/orchestrator.go:362-381 | A task just enqueued makes at most 100 * cap + 32 steps and is sent back at most cap times |
| `Pipeline.SelfEnqueueWorksIff` | sidecar/internal/orchestrator/orchestrator.go:1812-1814 | A self-enqueue starts a dispatcher exactly when the previous one has unregistered |
| `Pipeline.LostForGood` | sidecar/internal/orchestrator/orchestrator.go:1812-1814 | Otherwise every continuation has at most one more step and the row stays queued |
| `Pipeline.SelfEnqueueCanBeLost` | sidecar/internal/orchestrator/orchestrator.go:1812-1814 | It happens: every queued task with a rework round left has an automatic run to a state where it is queued and no step is possible |
| `Dispatch.Clamp` | sidecar/internal/orchestrator/orchestrator.go:326-332 | The limit is forced into 1..12 and left alone inside it |
| `DispatchSteps.StartReads` | sidecar/internal/orchestrator/orchestrator.go:203-258 | The limit is four unless another is given, and nobody is at work |
| `DispatchSteps.NewDispatcherIff` | sidecar/internal/orchestrator/orchestrator.go:362-381 | A dispatcher comes into being exactly by an accepted enqueue |
| `DispatchSteps.RegisteredIff` | sidecar/internal/orchestrator/orchestrator.go:362-381 | A task is registered from its accepted enqueue until its dispatcher unregisters |
| `DispatchSteps.AbortMarkIff` | sidecar/internal/orchestrator/orchestrator.go:388-405 | A registered task is marked for abort exactly if it has been cancelled since it was registered; an enqueue starts without the mark |
| `DispatchSteps.AcquireIff` | sidecar/internal/orchestrator/orchestrator.go:435-447 | A waiting dispatcher gets a slot exactly when one of its semaphore is free, and gives up exactly when it is marked or the orchestrator shuts down |
| `DispatchSteps.SetConcurrencyReads` | sidecar/internal/orchestrator/orchestrator.go:326-341 | A new limit opens an empty semaphore of that many slots; the one in force changes nothing |
| `DispatchSteps.NewReviewIff` | sidecar/internal/orchestrator/orchestrator.go:1510-1522 | A review starts exactly when a dispatcher holding a slot launches it, for its own task |
| `DispatchSteps.ReviewDoneIff` | sidecar/internal/orchestrator/orchestrator.go:388-405 | The context of a review ends exactly by its time limit, the shutdown, or a cancel of its task that reaches it |
| `DispatchSteps.ReachedReviewIff` | sidecar/internal/orchestrator/orchestrator.go:1569-1576 | Cancel reaches the review of a task exactly from its registration to the end of a review of that task |
| `DispatchSteps.EvolverIff` | sidecar/internal/orchestrator/orchestrator.go:1716-1740 | An evolver starts exactly when a review whose context is live rejects |
| `Dispatch.Orchestrator.EnqueueTask` | sidecar/internal/orchestrator/orchestrator.go:362-381 | Refused for an empty id, during shutdown or while the task is registered, and then nothing changes; otherwise one dispatcher is started and the task is registered unmarked |
| `Dispatch.Orchestrator.CancelTask` | sidecar/internal/orchestrator/orchestrator.go:388-405 | A registered task is marked for abort, otherwise its registered review is cancelled; known exactly when it is one or the other |
| `Dispatch.Orchestrator.ChangeConcurrency` | sidecar/internal/orchestrator/orchestrator.go:326-341 | A changed limit starts a new semaphore generation; an unchanged one does nothing |
| `Dispatch.DispatchIsSafe` | sidecar/internal/orchestrator/orchestrator.go:326-447 | Over every interleaving a task has at most one live dispatcher and exactly when registered, every semaphore generation is held by exactly its holders, at most its capacity of 1 to 12, a review that Cancel reaches is alive and its task's own, and the wait group is empty exactly when no dispatcher, no review and no evolver is left |
| `Dispatch.EmptyGroupIsFinal` | sidecar/internal/orchestrator/orchestrator.go:417-431 | Once the wait group is empty after Shutdown, no continuation starts anything again |
| `Dispatch.ShutdownStopsStarts` | sidecar/internal/orchestrator/orchestrator.go:362-381 | After Shutdown no dispatcher and no evolver is started, and the group grows only by the review that a dispatcher still holding a slot launches |
| `Dispatch.ReleaseGoesToItsGeneration` | sidecar/internal/orchestrator/orchestrator.go:350-357 | No step changes the generation of a dispatcher, and a release lowers the count of that generation alone |
| `LineBuffer.SessionMapper.PumpLines` | sidecar/internal/copilot/events.go:251-280 | Adds a delta to its buffer and returns the lines it completes |
| `LineBuffer.SessionMapper.MapEvent` | sidecar/internal/copilot/events.go:209-239 | Deltas are buffered per id, the final message drops its buffer, an error flushes everything first |
| `LineBuffer.SessionMapper.Flush` | sidecar/internal/copilot/events.go:244-249 | Every non-empty buffer is drained once, messages before reasoning, and all are empty afterwards |
| `LineBuffer.PumpSplits` | sidecar/internal/copilot/events.go:251-280 | A buffer holding the open last line of a text keeps doing so, and what it completes are the lines in between |
| `LineBuffer.LinesAreWhatWasWritten` | sidecar/internal/copilot/events.go:251-293 | The lines of a text are those it was written from, whatever carriage returns stand before their ends |
| `LineBuffer.LinesDoNotDependOnChunking` | sidecar/internal/copilot/events.go:241-293 | However a text is cut into deltas and interleaved with other ids, the lines returned plus the drained rest are the lines of the whole text |
| `Interpreter.SplitOp` | sidecar/internal/ihr/interpreter.go:98-110 | The pieces between the operator occurrences, found from the left |
| `Interpreter.EvalAnd` | sidecar/internal/ihr/interpreter.go:81-93 | Left to right, the first error or the first false decides |
| `Interpreter.EvalWhen` | sidecar/internal/ihr/interpreter.go:56-78 | A blank condition is false; otherwise the first conjunction that errs or holds decides |
| `Interpreter.NextStage` | sidecar/internal/ihr/interpreter.go:36-52 | The first transition out of the current stage whose condition holds, unless a condition before it is malformed; otherwise no match |
| `Conditions.PrintedConditionEvaluates` | sidecar/internal/ihr/interpreter.go:56-132 | Evaluating the printed form of any condition, with any white space and unknown atoms, gives its meaning |
| `Conditions.MeaningIsTruth` | sidecar/internal/ihr/interpreter.go:62-93 | Without unknown atoms a condition is true exactly when all atoms of one of its conjunctions are |
| `Conditions.EqualPrecedenceDiffersIff` | sidecar/internal/ihr/interpreter.go:31-35 | For every condition: read with equal precedence it is true exactly when some conjunction holds and all atoms but the first of every later one do; the evaluator departs from that reading exactly when some conjunction holds and none is followed by such ones |
| `Conditions.NotEqualPrecedence` | sidecar/internal/ihr/interpreter.go:31-35 | The shortest case: "a or b and c" with a true and c false |
| `CharterCheck.Reachable` | sidecar/internal/ihr/charter.go:345-365 | Terminates and is true exactly when a path of transitions leads from the start to a terminal |
| `CharterCheck.Validate` | sidecar/internal/ihr/charter.go:160-223 | Exactly the errors of the charter are reported: required stages that are missing, endpoints and fallbacks that are not declared, no route from plan to a terminal when nothing before it failed, a cap that is not positive; so none exactly when it is acceptable |
| `CharterCheck.AcceptedCharterHasRoute` | sidecar/internal/ihr/charter.go:198-206 | An accepted charter has a path from plan to a terminal through declared stages only |
| `SeedCharter.SeedConditions` | sidecar/internal/harnessembed/seed/SKILL.md:31-43 | What the four shipped conditions say, from their texts |
| `SeedCharter.SeedVerdicts` | sidecar/internal/harnessembed/seed/SKILL.md:38-43 | Under the shipped charter a verdict always leads on: rework below two rounds to the code stage, every other verdict to human_review |
| `SeedCharter.SeedIsAcceptable` | sidecar/internal/harnessembed/seed/SKILL.md:19-61 | The shipped charter passes its own validation |
| `BalancedJson.FirstBalancedJson` | sidecar/internal/copilot/planner.go:457-494 | The text from the first brace to where the scanner closes it, or nothing |
| `BalancedJson.ValueIsNeutral` | sidecar/internal/copilot/planner.go:466-492 | Inside an object the scanner passes over any printed value, however nested and escaped, and is where it was |
| `BalancedJson.FirstObjectIsFound` | sidecar/internal/copilot/planner.go:457-494 | After a preamble without an opening brace, any printed object is cut out exactly, whatever follows it |

## Left out

- Agent sessions, prompts, token usage, git commands, gRPC conversion, file watchers and run artifacts: foreign or plumbing; they
  appear as oracles or not at all.
- SQL text, timestamps, error messages beside the error code, pagination, `branch_exists` sweeps of the reaper, and database errors other than key clashes.
- Ties in `ORDER BY`: rows with equal `order_idx` keep insertion order in the model. Plans number their subtasks distinctly.
- Dashboards, settings, secrets, YAML decoding, regular expressions, the context-memory store: easy or opaque.
- User edits of subtasks (reorder, create, delete) while the loop runs, and the warning about paths outside the declared ones.
- Two names of one file other than by case and by empty or dot segments: `..`, short 8.3 names, links and alternate streams.
- Files with different case rules in one tree: the fold is one mapping of characters.
- `strings.ToLower` and white space follow Unicode only as far as the modelled comparisons can see the difference; texts are
  sequences of characters, not bytes.
- ULIDs are numbers whose order is the order of their texts; zero is the empty text.
- Status values are an enumeration, so the check for an unknown status has nothing to reject.
- Charter warnings and the error texts themselves; which error comes first is modelled where a function returns only one.
- Totals across semaphore generations: swapping the semaphore does not count old holders, so only the bound per generation is stated.
- WritePaths.DisjointTokensShareNoFile: states disjointness of texts, and only for wildcards that start a path component, because
  the code misses the others; the exact sets of missed pairs are in WritePaths.MissedOverlapIff and FileIdentity.MissedOnDiskIff.
- SubtaskLoopTheorems.WaveMembersShareNoFile: speaks of names as texts; SubtaskLoopTheorems.WaveMembersShareNoFileOnDisk says what
  remains on disk.
- SubtaskLoopTheorems.RunningSessionsShareNoFile: speaks of names as texts, for the same reason.
- How often: in `Dispatch` a dispatcher that holds a slot may launch any number of reviews, and a review whose context is live
  any number of evolvers, a superset of what the code does. What an evolver proposes is not part of this model.
- PatchInverse.InverseUndoesStandardIff: assumes hunks that the program reads in order; by PatchInverse.SeparatedIsOrdered all
  patches are such whose hunks have a line between them.
- EventLog.NumbersAreContiguous: states the shape of the persisted log and not that every event is persisted, because a batch
  that collides with another writer is discarded by the code.
- TaskFlows.SubmitReview: describes the call without interference, as do the other user steps; interleavings are covered by the
  write-level results of TaskStore.
- Pipeline.PipelineTerminates: excludes user actions, because each user retry resets the rework counter by design. The configuration
  without a reviewer, which passes tasks on after a delay, is not part of it.
- Un-persisted file-change events (number 0), which the live filter drops for watermarked tasks.
