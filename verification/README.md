# Orchestrator and watcher core, modelled in Dafny

The repository runs an "AI employee" on top of a vault of markdown files.
Watchers poll external sources and drop action files into `Needs_Action`.
The orchestrator then does three things:

- it turns each action file into a plan in `Plans`;
- it moves the files a human has put into `Approved` over to `Done`;
- it appends one JSON record per action to a log under `Logs`, and rewrites a
  dashboard of folder counts.

This project models that bookkeeping and proves what it does to the vault.

- `Orchestration` (orchestrator.dfy) holds the vault, the orchestrator's
  steps and batches as functions, and the class `Orchestrator`.
  - The vault is a map from folder name to the files in it. Each file has
    its text and the day it was last modified. The vault also holds the
    action log, as a sequence that only grows, and the last dashboard
    written.
  - Each of `_process_single_file` and `_execute_approved_action` is a step
    function. `process_needs_action` and `process_approved` are folds of
    those steps over the directory listing. `run_once` runs the Approved
    fold, then the Needs_Action fold, then one dashboard refresh.
  - The class's methods run the source's loops and are proved equal to
    those functions.
  - Which file operation raises is an input: a `Fault` per file names the
    first step that raises (read, log append, plan write or rename,
    dashboard write). Besides, the log append fails when `Logs` is
    missing, the plan write when `Plans` is missing and the rename when
    `Done` is missing. The clock is an input too.
- `OrchestrationProofs` (orchestrator_proofs.dfy) proves, file by file,
  what a batch and a cycle do:
  - which files move, which plans are written, and that nothing else
    changes;
  - what the log gains, and in what order;
  - what the counters return, and what the dashboard shows.
- `Watcher` (watcher.dfy) covers the `BaseWatcher` helpers:
  - `sanitize_filename` as a string function;
  - the processed-id state file, a `'\n'.join` written and then read back
    with `splitlines`;
  - one tick of the polling loop, in the class `BaseWatcher`.
- `Lines`, `Paths` and `Seqs` are shared helpers:
  - Python's `splitlines`/`join`, with the full set of line-break
    characters;
  - `glob('*.md')` and `Path.stem`;
  - facts about duplicate-free listings.

The code has no claims, no retries, no `Pending_Approval` handling and no
check against overwriting. The model follows the code:

- `rename` into `Done` replaces a file of the same name (POSIX behaviour).
- A plan write replaces an existing plan.
- Action files in `Needs_Action` are never moved or removed.
- "Awaiting Approval" counts `Approved`, not `Pending_Approval`.
- Every log record says `success`, because it is written before the write or
  rename it announces.

## Model

| member | source | states |
|---|---|---|
| `Orchestration.ProcessStep` | watchers/orchestrator.py:120-146 | Definition, no contract: `_process_single_file` on the vault. A missing file, a read or log fault or a missing Logs folder changes nothing. Otherwise the record is appended, then the plan is written unless the write faults or Plans is missing, then the dashboard is refreshed. Its properties are `ProcessStepCases` and the Needs_Action batch lemmas. |
| `Orchestration.ExecuteStep` | watchers/orchestrator.py:250-275 | Definition, no contract: `_execute_approved_action` on the vault, in the same order with the rename into Done in place of the plan write. Its properties are `ExecuteStepCases` and the Approved batch lemmas. |
| `Orchestration.NeedsActionPass` | watchers/orchestrator.py:92-118 | Definition, no contract: the loop of `process_needs_action` as a fold over the files, counting the steps that raised nothing. |
| `Orchestration.ApprovedPass` | watchers/orchestrator.py:225-248 | Definition, no contract: the loop of `process_approved` as a fold over the files, counting the steps that raised nothing. |
| `Orchestration.Cycle` | watchers/orchestrator.py:428-441 | Definition, no contract: `run_once` as the Approved fold, then the Needs_Action fold, then one dashboard refresh. |
| `Orchestration.DashboardOf` | watchers/orchestrator.py:282-285 | Definition, no contract: the four counts of `update_dashboard`. Its properties are `DashboardCounts`. |
| `Orchestration.RefreshDashboard` | watchers/orchestrator.py:277-285 | Definition, no contract: a successful write records the counts, and a raising write changes nothing. |
| `Orchestration.PlanLines` | watchers/orchestrator.py:190-198 | Definition, no contract: the front matter and title lines of `_create_plan_template`. Its properties are `PlanLinesRoundTrip` and `PlanFrontMatter`. |
| `Orchestration.PlanFile` | watchers/orchestrator.py:139-141 | Definition, no contract: the plan file, with today's day and the joined template lines. |
| `Orchestration.LogEntry` | watchers/orchestrator.py:384-390 | Definition, no contract: the record `_log_action` appends. Its properties are `RecordsOfLogged`. |
| `Paths.IsMd` | watchers/orchestrator.py:101 | Definition, no contract: the names `glob('*.md')` matches. |
| `Paths.Stem` | watchers/orchestrator.py:139 | Definition, no contract: `Path.stem`. Its properties are `MdStem` and `PlanNameStem`. |
| `Paths.PlanName` | watchers/orchestrator.py:139 | Definition, no contract: `PLAN_<stem>.md`. Its properties are `PlanNameCollision`. |
| `Lines.Join` | watchers/base_watcher.py:118 | Definition, no contract: `'\n'.join`. |
| `Lines.SplitLines` | watchers/base_watcher.py:112 | Definition, no contract: `str.splitlines`. Its properties are `SplitLinesHaveNoBreaks` and `SplitJoin`. |
| `Watcher.SanitizeFilename` | watchers/base_watcher.py:124-130 | Definition, no contract: the replacement loop followed by `strip`. Its properties are the `Sanitize*` lemmas. |
| `Watcher.ReplaceEach` | watchers/base_watcher.py:128-129 | Definition, no contract: the loop replacing each listed character in turn. Its properties are `ReplaceEachPositionwise` and `ReplaceEachIdentity`. |
| `Watcher.Strip` | watchers/base_watcher.py:130 | Definition, no contract: `str.strip()` with `isspace` whitespace. Its properties are the `Strip*` lemmas. |
| `Watcher.LoadedIds` | watchers/base_watcher.py:112 | Definition, no contract: the set of the state file's lines. Its properties are `SaveLoadRoundTrip` and `UnstorableIdIsLost`. |
| `Watcher.CreatedPaths` | watchers/base_watcher.py:95-100 | Definition, no contract: the paths of the items whose creation returned, in order. |
| `Watcher.CountRaised` | watchers/base_watcher.py:95-100 | Definition, no contract: the number of items whose creation raised. |
| `Orchestration.Orchestrator.constructor` | watchers/orchestrator.py:65-67 | Needs_Action, Approved, Done and Logs exist afterwards. Every folder that existed keeps its contents (the orchestrator's own log file aside), and the created folders are empty. |
| `Orchestration.Orchestrator.LogAction` | watchers/orchestrator.py:376-396 | When Logs exists, appends exactly one record (the time, the action type, actor `orchestrator`, the target, result `success`) and reports success. When Logs is missing, opening the day's file raises: nothing is appended and it reports failure. |
| `Orchestration.Orchestrator.UpdateDashboard` | watchers/orchestrator.py:277-285 | The dashboard becomes the counts of the current folders for today. When the write raises, nothing changes and failure is reported. |
| `Orchestration.Orchestrator.ProcessSingleFile` | watchers/orchestrator.py:120-146 | The new vault and outcome are those of the step function. A missing file or a failed read or log append changes nothing. Otherwise the record is appended first. Then Plans/PLAN_<stem>.md is written (this fails when Plans is missing), and then the dashboard. |
| `Orchestration.Orchestrator.ExecuteApprovedAction` | watchers/orchestrator.py:250-275 | The same sequence for an approved file: read, append the record, rename to Done under the same name (this fails when Done is missing), then refresh the dashboard. |
| `Orchestration.Orchestrator.ProcessNeedsAction` | watchers/orchestrator.py:92-118 | The loop over the `*.md` listing, with its failure-isolating counter, ends in the state and count of the batch fold. An empty listing returns 0. |
| `Orchestration.Orchestrator.ProcessApproved` | watchers/orchestrator.py:225-248 | The same for the Approved listing. |
| `Orchestration.Orchestrator.RunOnce` | watchers/orchestrator.py:428-441 | The Approved batch runs first, then the Needs_Action batch, then the dashboard refresh, whose failure is the cycle's failure. |
| `Paths.MdOnly` | watchers/orchestrator.py:101 | `glob('*.md')` keeps exactly the listed names ending in `.md`, adds no duplicate, and is never longer than the listing. |
| `Paths.MdStem` | watchers/orchestrator.py:139 | The stem of a markdown name is the name without `.md`, except the bare name `.md`, which is its own stem. |
| `Paths.PlanNameStem` | watchers/orchestrator.py:139 | Files with equal plan names have equal stems. |
| `Paths.PlanNameCollision` | watchers/orchestrator.py:139 | Two different markdown files get the same plan name if and only if they are `.md` and `.md.md`. |
| `Lines.SplitLinesHaveNoBreaks` | watchers/base_watcher.py:112 | No line `splitlines` returns contains a line break. |
| `Lines.SplitJoin` | watchers/base_watcher.py:112-118 | `splitlines` undoes `'\n'.join` when no item has a line break and the last item is not empty. |
| `Lines.EmptyItemIsLost` | watchers/base_watcher.py:112-118 | A single empty item is saved as "" and loads back as no item at all. |
| `OrchestrationProofs.CompletedPlusFailed` | watchers/orchestrator.py:109-116 | Every file of a batch either completes or fails, and the completed ones are exactly the files whose step raised nothing. |
| `OrchestrationProofs.RecordsNeedOnlyLogs` | watchers/orchestrator.py:392-394 | Which records a batch appends depends on the folders only through whether Logs exists. |
| `OrchestrationProofs.RecordsOfLogged` | watchers/orchestrator.py:384-396 | A batch's new records are one per file that got past its read and its log append, which needs the Logs folder to exist (orchestrator.py:392-394). All of them have actor `orchestrator` and result `success`. |
| `OrchestrationProofs.ApprovedPassFrame` | watchers/orchestrator.py:250-270 | An Approved batch creates and removes no folder, and no folder entry changes but those of Approved and Done (the action log aside). |
| `OrchestrationProofs.ApprovedPassSources` | watchers/orchestrator.py:241-246 | After the batch, Approved holds exactly its old entries minus the moved files. Non-markdown entries are included, and every remaining entry is unchanged. |
| `OrchestrationProofs.ApprovedPassDone` | watchers/orchestrator.py:269-270 | Done gains exactly the moved files, under the same name and with the same contents and modification day. Every other Done file is unchanged. |
| `OrchestrationProofs.ApprovedPassLog` | watchers/orchestrator.py:240-247 | The log grows by the batch's `execute_approved` records, in listing order. |
| `OrchestrationProofs.ApprovedPassCount` | watchers/orchestrator.py:240-247 | The count is the number of files whose step raised nothing. |
| `OrchestrationProofs.ApprovedCount` | watchers/orchestrator.py:232-248 | `process_approved` returns at most the number of `*.md` files in Approved, 0 when there are none. The return value equals that number minus the failed files. |
| `OrchestrationProofs.ApprovedIsolation` | watchers/orchestrator.py:241-246 | A markdown file leaves Approved for Done if and only if its own read, log append and rename succeed and Logs and Done exist, whatever happens to the other files. |
| `OrchestrationProofs.FailedMoveStillLogged` | watchers/orchestrator.py:263-270 | A file whose rename failed, through a fault or because Done is missing, stays in Approved, yet the log holds a `success` record for it. |
| `OrchestrationProofs.NeedsActionPassFrame` | watchers/orchestrator.py:110-116 | A Needs_Action batch creates and removes no folder, and no folder entry changes but those of Plans (the action log aside). |
| `OrchestrationProofs.NeedsActionPassPlans` | watchers/orchestrator.py:139-141 | Plans gains exactly the plan names written. Plans no file wrote are unchanged. |
| `OrchestrationProofs.NeedsActionPassLastWriter` | watchers/orchestrator.py:139-141 | A written plan holds the template of the last file in the batch that wrote that name, replacing any older plan. |
| `OrchestrationProofs.NeedsActionPassLog` | watchers/orchestrator.py:109-116 | The log grows by the batch's `process_file` records, in listing order. |
| `OrchestrationProofs.NeedsActionPassCount` | watchers/orchestrator.py:109-116 | The count is the number of files whose step raised nothing. |
| `OrchestrationProofs.NeedsActionKeepsSources` | watchers/orchestrator.py:92-118 | `process_needs_action` leaves Needs_Action and every folder entry but those of Plans as it was (the action log aside). Its count is the number of `*.md` files minus the failed ones. |
| `OrchestrationProofs.FailedWriteStillLogged` | watchers/orchestrator.py:136-141 | A file whose plan write failed, through a fault or because Plans is missing (nothing creates it), still has a `success` record in the log. |
| `OrchestrationProofs.NeedsActionWritesPlans` | watchers/orchestrator.py:139-141 | Unless `.md` and `.md.md` are both listed, every file whose write succeeded has Plans/PLAN_<stem>.md holding its own template. |
| `OrchestrationProofs.PlanLinesNoBreaks` | watchers/orchestrator.py:191-198 | No line of the plan template contains a line break when the file name and the time contain none. |
| `OrchestrationProofs.PlanLinesRoundTrip` | watchers/orchestrator.py:191-198 | A plan's text splits back into its front-matter lines and title line when the file name and the time contain no line break. |
| `OrchestrationProofs.PlanFrontMatter` | watchers/orchestrator.py:191-196 | A generated plan's front matter reads `created: <time>`, `status: pending`, `source_file: <file name>` and `type: action_plan`. |
| `OrchestrationProofs.DashboardCounts` | watchers/orchestrator.py:281-285 | Pending_Approval does not affect any count, a missing Inbox counts 0, Awaiting Approval is at most the size of Approved, and Completed Today counts only Done's markdown files. |
| `OrchestrationProofs.CycleLog` | watchers/orchestrator.py:428-441 | A cycle's log is the Approved records followed by the Needs_Action records. The cycle succeeds if and only if the final dashboard write does, and the dashboard then shows the final folders. |
| `OrchestrationProofs.CycleOrder` | watchers/orchestrator.py:432-436 | No `process_file` record of a cycle comes before one of its `execute_approved` records. |
| `OrchestrationProofs.CycleClearsApproved` | watchers/orchestrator.py:432-439 | When every approved file moves, the final dashboard shows 0 awaiting approval and the original Needs_Action count. |
| `Watcher.Replace` | watchers/base_watcher.py:129 | `str.replace` of one character keeps the length. |
| `Watcher.ReplaceEachPositionwise` | watchers/base_watcher.py:128-129 | The replacement loop keeps the length and turns exactly the listed characters into `_`, position by position. |
| `Watcher.SanitizeBeforeStrip` | watchers/base_watcher.py:127-129 | Before `strip`, the name has its length and every character in place, except the nine listed ones, which become `_`. |
| `Watcher.StripIsTrimmedSlice` | watchers/base_watcher.py:130 | `strip` keeps a contiguous slice and cuts off only whitespace before and after it. |
| `Watcher.StripTrimsEnds` | watchers/base_watcher.py:130 | What `strip` returns has no whitespace at either end. |
| `Watcher.StripKeeps` | watchers/base_watcher.py:130 | `strip` keeps no new character and loses no character that is not whitespace. |
| `Watcher.SanitizedCharIsValid` | watchers/base_watcher.py:127-129 | A rewritten character is never one of the listed ones. |
| `Watcher.SanitizeRemovesInvalid` | watchers/base_watcher.py:124-130 | The result contains none of `<`, `>`, `:`, `"`, `/`, `\`, `|`, full-width `？`, `*`. |
| `Watcher.SanitizeTrimmed` | watchers/base_watcher.py:130 | The result has no leading or trailing whitespace and is never longer than the name. |
| `Watcher.ReplaceEachIdentity` | watchers/base_watcher.py:128-129 | A string with no listed character goes through the loop unchanged. |
| `Watcher.StripIdentity` | watchers/base_watcher.py:130 | A string with no whitespace at either end is its own `strip()`. |
| `Watcher.SanitizeIdempotent` | watchers/base_watcher.py:124-130 | Sanitising twice gives the same result as sanitising once. |
| `Watcher.ReplaceEachQuestionMarks` | watchers/base_watcher.py:127-129 | The replacement pass keeps an ASCII `?` exactly when the name has one, and never keeps a full-width `？`. |
| `Watcher.SanitizeQuestionMarks` | watchers/base_watcher.py:127 | An ASCII `?` is in the result if and only if it is in the name, and the full-width `？` never is. |
| `Watcher.SaveLoadRoundTrip` | watchers/base_watcher.py:108-118 | Saving then loading restores the id set, in any iteration order, when every id is non-empty and contains no line break. |
| `Watcher.UnstorableIdIsLost` | watchers/base_watcher.py:112 | Whatever the state file holds, no loaded id contains a line break, so an id containing one never comes back. |
| `Watcher.LineBreakSplitsId` | watchers/base_watcher.py:112-118 | The single id `"a\nb"` is saved and loads back as the two ids `"a"` and `"b"`. |
| `Watcher.EveryItemAttempted` | watchers/base_watcher.py:95-100 | Every item of a tick is either created or reported as an error; none is skipped. |
| `Watcher.CreatedPathsMembers` | watchers/base_watcher.py:95-100 | A path is among the created files if and only if some item's creation returned it. |
| `Watcher.CreatedPathsAppend` | watchers/base_watcher.py:95-100 | Creating over two runs of items gives the first run's paths followed by the second's. |
| `Watcher.FailureIsIsolated` | watchers/base_watcher.py:95-100 | When one item's creation fails, the files created are those of the items before it followed by those after it. |
| `Watcher.BaseWatcher.constructor` | watchers/base_watcher.py:54 | `processed_ids` starts empty. |
| `Watcher.BaseWatcher.LoadProcessedIds` | watchers/base_watcher.py:108-113 | The set becomes the state file's lines when the file exists and can be read. It is left unchanged when the file is missing, and also when the file exists but cannot be read, in which case the call raises. |
| `Watcher.BaseWatcher.SaveProcessedIds` | watchers/base_watcher.py:115-118 | The state file is replaced by the ids joined with newlines, in the set's iteration order. No other file changes. |
| `Watcher.BaseWatcher.RunIteration` | watchers/base_watcher.py:90-104 | A failing check creates nothing and reports one error. Otherwise every item is attempted: the created paths are added to Needs_Action in order, and each failure adds one error. |

## Left out

- Process management (`start_file_watcher`, `stop_all_watchers`), `_setup_logging`, the argument parser and `main`, and the sleep loops of `run_continuous` and `BaseWatcher.run`: only one tick is modelled.
- The orchestrator's and watchers' logger messages, and `get_timestamp`.
- The dashboard's text other than its four counts, and the plan template's body after the title line.
- `_create_process_prompt`: its result is never used.
- Dates and times are one `Clock` input (a day number and an ISO string) per step or cycle. The source calls `datetime.now()` afresh for each record and each plan.
- File modification times are day numbers. A written plan gets today's day, and a renamed file keeps its own.
- The log is one sequence of records. Splitting it into one `Logs/<date>.jsonl` file per day is not modelled, and neither is JSON encoding. The `Logs` folder of the vault does not hold these action-log files; they are the separate `log`, so the frame lemmas' "unchanged" for `Logs` leaves out the growth of `Logs/<date>.jsonl`.
- Text encodings and `read_text`'s newline translation: texts are strings.
- The directory listing order, and the order in which a Python set is iterated when saved, are inputs.
- The file system is assumed case-sensitive.
- `rename` follows POSIX and replaces an existing `Done/<name>`. On Windows `Path.rename` raises `FileExistsError` instead; that case is a `WriteFails` fault supplied for names already in Done.
- Entries named `*.md` that are directories are not distinguished from files.
- Other processes changing the vault during a cycle (the watchers run concurrently) are not modelled.
- The concrete watchers' `check_for_updates` and `create_action_file` are not part of this model: their outcomes are inputs to `RunIteration`.
- `BaseWatcher.__init__`'s logging setup and folder creation are not modelled.
- `BaseWatcher.SaveProcessedIds`: a failing write of the state file is not modelled.
- `watchers/verify_bronze.py` (existence checks and console output) and `watchers/__init__.py` (re-exports) are not part of this model.
