# JirAI core, modelled in Dafny

JirAI is a Jira test assistant. A Flask backend suggests test scenarios for
a story and lists them in a subtask. It reads the tester's choice from a
Jira comment, runs the chosen scenarios with the `browser-use` agent and
writes the verdicts and labels back to Jira.

This project models the logic inside that glue. Each source file becomes
one module:

- `RunnerLib` (`browser_use_runner_lib.py`): the agent retry loop with at
  most three attempts, and the mapping of the agent's history to step
  results.
- `Runner` (`browser_use_runner.py`): the scenario id, the normalisation of
  text and dictionary steps, and the all-"passed" result list.
  - Step dictionaries are objects, because the source updates them in place.
- `TestSelector` (`jira_test_selector.py`):
  - `parse_test_selection`, with the regular expression written out as a
    scan;
  - the comment scan of `wait_for_test_selection`.
- `Reader` (`jira_reader.py`): `extract_url` and `extract_steps`.
- `Writer` (`jira_writer.py`):
  - `_extract_json_block`, as written and corrected;
  - the list check of `read_scenarios_from_subtask`;
  - the verdicts and label update of `post_results_to_jira`;
  - `scenario_passed` in `format_test_results`.
- `SubtaskManager` (`subtask_manager.py`):
  - label addition and removal on an `Issue` object;
  - the choice of the "done" transition and of the search hit;
  - the fields of a new subtask.
- `ScenarioTracker` (`scenario_tracker.py`): the selection file, as a
  `Tracker` object whose field holds the table.
- `AgentBackend` (`jira_agent_backend.py`):
  - the deduplication, wrapping and numbered description of
    `/suggest-scenarios`;
  - the numbered-line reading of `/run-tests`;
  - the `recent_issues` guard, as a `Backend` object.
- `Strings`: the Python string operations the source relies on (`strip`,
  `lower`, `in`, `split`, `int`, `str`).
- `Wrappers`: `Option` and `Result`.

The outside world is passed in as parameters:

- the agent is a function from the attempt number to the outcome of that
  whole attempt (browser_use_runner_lib.py:33-63): a history with its
  summary, a rate-limit error, or any other exception. The exception may come
  from `agent.run()`, from `final_result()`, or from a `StepResult` that
  rejects a command or reason that is not text;
- the comments are the polls `jira.comments` returns before the deadline;
- `json.loads` is a partial function `parse`;
- `os.path.exists` is a predicate `present`;
- the outcome of launching `browser-use` is a `Launch` value;
- Jira search hits and created keys are plain arguments.

## Model

| member | source | states |
|---|---|---|
| RunnerLib.ToStepResult | browser_use_runner_lib.py:47-58 | The step keeps the command, and its status is passed iff the evaluation passed. A passed step has no error. A failed step carries the `reason` attribute: "No reason provided." when the attribute is absent, None when it is None, and the text otherwise. |
| RunnerLib.FlatAt | browser_use_runner_lib.py:42-46 | The flattened history has one entry per evaluation. Evaluation j of entry i sits right after the evaluations of the earlier entries. |
| RunnerLib.HistoryResultsOrder | browser_use_runner_lib.py:41-59 | One step result per evaluation, in history order. The result for evaluation j of entry i is the mapping of that evaluation with that entry's command. |
| RunnerLib.CollectResults | browser_use_runner_lib.py:41-59 | The nested loop over history and evaluations yields exactly `HistoryResults`, one result per evaluation. |
| RunnerLib.RunAgent | browser_use_runner_lib.py:24-92 | `agent.run()` is called 1 to 3 times, and every call but the last was rate-limited. A finished or raising last call decides the result: its history and summary, or one failed "browser-use agent execution" step with the error text. Three rate limits give the fixed "Rate limit exceeded after retries" failure. The scenario name is always kept. |
| RunnerLib.AttemptResultShape | browser_use_runner_lib.py:61-80 | An error gives exactly one step and no final result. A finished run gives one step per evaluation. |
| Runner.ScenarioId | browser_use_runner.py:10 | Same length as the name; each space becomes "_" and every other character is lowercased. |
| Runner.ScenarioIdClean | browser_use_runner.py:10 | The id holds no space and no upper-case ASCII letter. |
| Runner.Marked | browser_use_runner.py:29-32 | A dictionary step gains screenshot True and filename "{id}_step_{i}_{action}.png", with the action from `s.get('action', 'unknown')`. An action that is present but empty or None is rendered as it is. Every other entry is kept. |
| Runner.MarkedKeepsAction | browser_use_runner.py:29-32 | Marking keeps the action, and marking twice equals the last marking alone. |
| Runner.MarkStep | browser_use_runner.py:28-33 | Marking step i in place keeps the invariant: each dictionary holds its original entries marked at its last position so far. |
| Runner.StructuredNamed | browser_use_runner.py:25-32 | After normalisation every structured step has a screenshot filename. |
| Runner.NormalizeSteps | browser_use_runner.py:16-33 | One structured step per input step, in order. A dictionary step is the same object. A text step is a new object with `CommentFields` numbered from 1. Every dictionary ends with its original entries marked at its last position, even when it is given twice. |
| Runner.PathJoin | browser_use_runner.py:61 | `os.path.join`: the result ends with the file name. An absolute name replaces the directory, and a relative one is placed below it. |
| Runner.PathJoinRelative | browser_use_runner.py:61 | A relative name is joined with exactly one "/". |
| Runner.StepScreenshotPath | browser_use_runner.py:61 | Unless the id starts with "/", a step's screenshot is looked for at "screenshots/<filename>". |
| Runner.Collected | browser_use_runner.py:62-68 | The result keeps the step, is "passed" with no error, and carries the screenshot path exactly when that file exists. |
| Runner.CollectResults | browser_use_runner.py:58-70 | One collected result per structured step, in order, sharing the step object. |
| Runner.RunBrowserUseTest | browser_use_runner.py:9-81 | The dictionaries are marked as in `NormalizeSteps`. If the launch raises, the result is one new failed {"action": "browser-use"} step carrying the error. Otherwise there is one collected result per input step, with dictionary steps shared and text steps new. |
| TestSelector.GroupAfter | jira_test_selector.py:47 | A captured group is non-empty and holds only digits, commas and spaces. |
| TestSelector.ParseItemsValues | jira_test_selector.py:49-54 | `[int(i.strip()) - 1 for i in items]` succeeds iff every item strips to a digit string. Index i is then item i's number minus one, whatever spaces or leading zeros surround it. |
| TestSelector.ParseTestSelection | jira_test_selector.py:44-56 | The result is "all" iff the text contains "run all". Every index is at least -1, with no upper bound. Without a "run" match the result is "all" or []. |
| TestSelector.SelectionValues | jira_test_selector.py:47-56 | Without "run all", for the group of the first "run" match: the selection is [] iff some comma-separated item is not an integer. Otherwise there is one index per item, the item's number minus one, so "run 1, 3" and "run 01,3" both give [0, 2]. |
| TestSelector.ParseItemsRejects | jira_test_selector.py:49-54 | One item that does not strip to digits makes the whole item list fail, as `int()` raising `ValueError` does. |
| TestSelector.MalformedSelection | jira_test_selector.py:47-56 | A "run" match holding an empty or non-numeric item gives the empty selection, for example "run 1,". |
| TestSelector.SearchReply | jira_test_selector.py:47 | In a reply "run 1,3" the search matches at the start and captures everything after "run ". |
| TestSelector.ParseNumerals | jira_test_selector.py:50 | The numerals of a list of numbers parse back as those numbers minus one. |
| TestSelector.ParseSelectionReply | jira_test_selector.py:44-52 | A reply written as the suggestion comment asks ("run a,b,…") reads back as the zero-based indexes, in order. |
| TestSelector.RunZero | jira_test_selector.py:50 | "run 0" gives the index -1: no lower bound is checked. |
| TestSelector.WaitForTestSelection | jira_test_selector.py:19-42 | The polling loop with its seen-set returns the scan of all polls' comments in order. |
| TestSelector.ScanNext | jira_test_selector.py:29-37 | One comment step: old or already-seen comments are skipped; a new "run" reply decides; any other new comment is remembered. |
| TestSelector.ScanFirstReplyWins | jira_test_selector.py:29-37 | The first new comment whose normalised body starts with "run" decides the selection, whatever follows. |
| TestSelector.ScanWithoutReply | jira_test_selector.py:27-42 | With no new reply starting with "run", the wait ends with []. |
| Reader.Lines | jira_reader.py:41 | Splitting on newlines gives at least one line. |
| Reader.ExtractUrl | jira_reader.py:40-44 | A missing description raises `AttributeError` on `split`. Otherwise the result is None iff no line contains "http", and else the stripped first such line. |
| Reader.UrlKeepsScheme | jira_reader.py:42-43 | The stripped URL line still contains "http". |
| Reader.ExtractSteps | jira_reader.py:47-55 | A missing description raises `AttributeError` on `split`. Otherwise the loop with its capture flag computes `StepsFrom(lines, false)`. |
| Reader.NoHeaderNoSteps | jira_reader.py:49-52 | Without a line mentioning "steps", in any case, there are no steps. |
| Reader.StepsStartAfterFirstHeader | jira_reader.py:49-52 | Lines up to and including the first "steps" line are ignored; capture starts after it. |
| Reader.CapturedSteps | jira_reader.py:50-54 | Once capture is on, s is a step iff some line is neither a "steps" line nor blank and strips to s. |
| Reader.StrippedNonHeader | jira_reader.py:51-54 | Stripping a line that does not mention "steps" does not make it mention "steps". |
| Reader.StepsAreClean | jira_reader.py:53-54 | Every step is non-empty, already stripped and free of "steps"; blank lines never appear. |
| Writer.FirstClose | jira_writer.py:12 | The lazy `.*?`: the first position where `]`, optional white space and a closing fence follow, or None when there is none. |
| Writer.FencedAt | jira_writer.py:12 | A fenced match captures text that starts with "[" and ends with "]". |
| Writer.FenceIndex | jira_writer.py:12 | `re.search` finds the leftmost fenced match: none before it, and none at all when None. |
| Writer.BareArrayFirstToLast | jira_writer.py:14 | The bare match `\[.*\]` with DOTALL is the text from the first "[" to the last "]", when that "]" comes after the "[". |
| Writer.BareArrayNone | jira_writer.py:14 | There is no bare match iff no "]" follows any "[". |
| Writer.ExtractJsonBlockAsWritten | jira_writer.py:8-20 | As written: empty or missing text gives None, and so does text without a fenced array. |
| Writer.ExtractJsonBlock | jira_writer.py:8-20 | Corrected: empty or missing text gives None. |
| Writer.FenceFirst | jira_writer.py:12-17 | A fenced array decides both versions alike: its captured text is parsed. |
| Writer.BareFallback | jira_writer.py:13-17 | Without a fence, the corrected version parses the bare array. |
| Writer.BareArrayIgnoredAsWritten | jira_writer.py:13-19 | An unfenced array is never read as written, while the corrected version parses it. |
| Writer.EmptyListIgnoredAsWritten | jira_writer.py:13-19 | The text "[]" gives None as written, and the empty list once corrected. |
| Writer.ReadScenariosFromSubtask | jira_writer.py:60-67 | Calls the extraction as written. With no description or no fenced array the result is []. A fenced array that parses to a JSON list gives exactly that list; any other parse gives []. |
| Writer.UnfencedScenariosLost | jira_writer.py:8-20 | An array outside any fence is lost as written (the result is []), and is read back by `Writer.ReadScenariosCorrected`. |
| Writer.ReadScenariosCorrected | jira_writer.py:60-67 | Over the corrected extraction: a fenced array that parses to a list gives that list. Without a fence, a bare array that parses to a list gives that list, and no bracketed span gives []. A non-empty result always comes from one of the two. |
| Writer.FencedRoundTrip | jira_writer.py:32-35 | Given an introduction and an array without backticks, the fenced block of the description is exactly that array. |
| Writer.SubtaskScenariosRoundTrip | jira_writer.py:32-35 | Scenarios written by `create_subtask_with_scenarios` are read back by `read_scenarios_from_subtask`, given that the dumped array holds no backtick and parses to that list. |
| Writer.FailedPositionsExact | jira_writer.py:114-121 | A 1-based position is listed iff that step did not pass. The list is increasing. |
| Writer.PassedIffNoFailures | jira_writer.py:88-121 | A scenario passes (every status "passed") iff no step is listed as failed. |
| Writer.ReadSteps | jira_writer.py:100-105 | Listing a failed scenario's steps goes through iff every step result's "step" is a dictionary. |
| Writer.Aggregate | jira_writer.py:84-146 | Building the report raises iff some failed scenario holds a step result whose "step" is missing or not a dictionary. Otherwise there is one verdict per scenario, in order, with its pass flag and failed positions, and the overall flag is true iff every scenario passed. |
| Writer.TestedLabels | jira_writer.py:154-158 | "auto-tested" is present after the update. |
| Writer.TestedLabelsClean | jira_writer.py:155-158 | On a list without duplicates, "testing-in-progress" is absent afterwards and no duplicate is added. |
| Writer.PostResultsToJira | jira_writer.py:70-163 | "DUMMY-123" does nothing. Otherwise the call aborts, posting nothing and leaving the issue unchanged, iff some failed scenario holds a step result whose "step" is missing or not a dictionary. A posted report carries the verdicts of `Aggregate`. After it, an issue without a label list is left alone, and any other issue's labels are written back once, as `TestedLabels`. |
| Writer.FormattedScenarioPassed | jira_writer.py:178 | True iff every step's status is "passed". |
| Writer.FormattedAgreesWithReport | jira_writer.py:178 | `format_test_results` and `post_results_to_jira` (the test at jira_writer.py:88) agree on whether a scenario passed. |
| SubtaskManager.Issue.Update | subtask_manager.py:45 | The labels field becomes the new list, and one more update is written. |
| SubtaskManager.WithLabel | subtask_manager.py:43-44 | The label is present afterwards. The list is unchanged if it was there, and otherwise gets the label appended. |
| SubtaskManager.FirstIndex | subtask_manager.py:54 | The position `list.remove` deletes: the first occurrence. |
| SubtaskManager.WithoutLabel | subtask_manager.py:53-54 | The list is unchanged when the label is absent, and otherwise loses its first occurrence. |
| SubtaskManager.AddLabel | subtask_manager.py:39-46 | A missing field reads as []. The issue is written back only when the label was missing, with the label appended; otherwise it is unchanged. |
| SubtaskManager.RemoveLabel | subtask_manager.py:49-56 | The issue is written back only when the label was present, without its first occurrence; otherwise it is unchanged. |
| SubtaskManager.WithLabelIdempotent | subtask_manager.py:43-44 | Adding twice is adding once. |
| SubtaskManager.WithLabelNoDuplicates | subtask_manager.py:43-44 | Adding never creates a duplicate. |
| SubtaskManager.WithoutLabelMultiset | subtask_manager.py:53-54 | Removing a present label takes away exactly one copy and nothing else. |
| SubtaskManager.WithoutLabelKeepsOthers | subtask_manager.py:53-54 | Every other label is present after removal iff it was present before. |
| SubtaskManager.WithoutLabelAbsent | subtask_manager.py:53-54 | On a list without duplicates, a removed label is gone and no duplicate appears. |
| SubtaskManager.TransitionToDone | subtask_manager.py:59-68 | None (False) iff no transition name contains "done" after lowercasing. Otherwise the first such transition's id is applied. |
| ScenarioTracker.Tracker.constructor | scenario_tracker.py:7-11 | The tracker starts with no file, which reads as the empty table. |
| ScenarioTracker.Tracker.SaveSelection | scenario_tracker.py:19-23 | The file becomes the loaded table with the key's record given the selection. |
| ScenarioTracker.Tracker.GetSelection | scenario_tracker.py:26-28 | The key's selection, or None for an unknown key. |
| ScenarioTracker.Tracker.MarkSuggestionsPosted | scenario_tracker.py:31-35 | The file becomes the loaded table with the key's record marked as posted. |
| ScenarioTracker.Tracker.HasSuggestionsBeenPosted | scenario_tracker.py:38-40 | The key's posted flag, false for an unknown key or a record without it. |
| ScenarioTracker.SaveThenGet | scenario_tracker.py:19-28 | A saved selection is read back, and the posted flag is kept. |
| ScenarioTracker.MarkThenAsk | scenario_tracker.py:31-40 | After marking, the posted flag is true and the selection is kept. |
| ScenarioTracker.UpdatesAreLocal | scenario_tracker.py:19-35 | Updating one key leaves every other key's record unchanged and adds only that key. |
| ScenarioTracker.RepeatedUpdates | scenario_tracker.py:19-35 | Saving twice keeps the second selection. Marking twice is marking once. |
| AgentBackend.DedupBy | jira_agent_backend.py:50-57 | The dedup loop for any key function: an error iff some element cannot be keyed; otherwise the elements whose key no earlier element had. |
| AgentBackend.DedupScenarios | jira_agent_backend.py:50-57 | An element without "scenario" gives the `KeyError` message; otherwise the first element per stripped, lowercased name is kept. |
| AgentBackend.KeptAtIndexes | jira_agent_backend.py:50-57 | The kept elements are the input at the kept positions. |
| AgentBackend.KeptIndexesAreFirsts | jira_agent_backend.py:52-56 | A position is kept iff it is the first with its key. Kept positions are in input order. |
| AgentBackend.KeptKeysDistinct | jira_agent_backend.py:52-56 | No two kept elements share a key, and every key of the input survives. |
| AgentBackend.WrapIfActions | jira_agent_backend.py:59-60 | If every element has "action", the empty list included, the list becomes one "Unnamed scenario". Otherwise each element is listed as it is. |
| AgentBackend.Describe | jira_agent_backend.py:62-65 | The loop builds the header followed by "{idx}. {name}\n" lines numbered from 1. |
| AgentBackend.NumberedFromSnoc | jira_agent_backend.py:64-65 | Appending a name appends its numbered line. |
| AgentBackend.MatchAt | jira_agent_backend.py:142 | A match of `\d+\.\s+(.*)` at p ends after p and within the text. |
| AgentBackend.GroupsNotBlank | jira_agent_backend.py:142-146 | In stripped text, no captured group is blank. |
| AgentBackend.FindAllNumbered | jira_agent_backend.py:142 | Numbered lines of listable names are read back as those names, in order. |
| AgentBackend.DescriptionRoundTrip | jira_agent_backend.py:142 | The description `/suggest-scenarios` writes is read back by `/run-tests` as the listed names, in order. |
| AgentBackend.HeaderAloneRoundTrip | jira_agent_backend.py:142 | A description that lists no scenario gives no steps. |
| AgentBackend.ListingRoundTrip | jira_agent_backend.py:142 | A description that lists at least one name reads back exactly those names. |
| AgentBackend.BuildRunScenarios | jira_agent_backend.py:143-147 | The loop over numbered steps builds `RunScenarios`: non-blank steps only, each "Scenario i" with i its position among all steps. |
| AgentBackend.RunScenariosNoGaps | jira_agent_backend.py:143-147 | With no blank step, scenario k is "Scenario k+1" over step k. |
| AgentBackend.RunScenariosOfDescription | jira_agent_backend.py:142-147 | For any description, scenario k runs step k: stripping the text leaves no blank group, so the numbering has no gaps. |
| AgentBackend.LabelsAfterRunClean | jira_agent_backend.py:151-154 | On a story without duplicate labels, a completed run leaves "auto-tested" on and "scenarios-selected", "testing-in-progress" and "scenarios-generated" off, with no duplicate. |
| AgentBackend.Backend.constructor | jira_agent_backend.py:32 | No issue is in flight at start. |
| AgentBackend.Backend.SuggestScenarios | jira_agent_backend.py:34-114 | A missing key gives 400. A key in flight is skipped. Otherwise the key is in flight only during the work, and the set is restored on every path. The result is the dedup error, the existing subtask, or a new subtask whose description lists the deduplicated, wrapped scenarios, with "scenarios-generated" added to the story. |
| AgentBackend.Backend.RunTests | jira_agent_backend.py:117-164 | A missing key gives 400. A key in flight is skipped. Otherwise `RunOutcome` holds, and the in-flight set is restored on every path. |
| AgentBackend.Suggest | jira_agent_backend.py:46-108 | The body of the `try`: the dedup error, or the existing subtask left alone, or a new subtask. The new subtask has the story as parent, type id "10002", labels exactly ["scenarios-generated"], and as description the header followed by the numbered names of the deduplicated, wrapped scenarios. The response gives the scenario count, and the story gains "scenarios-generated". |
| AgentBackend.Run | jira_agent_backend.py:129-158 | No subtask, or a "done" one, is skipped. A missing description fails as `None.strip()` does. Otherwise the scenarios are those of the numbered lines, and the labels become `LabelsAfterRun`. |
| Strings.Contains | jira_reader.py:42 | `sub in s` holds iff `sub` occurs at some index. |
| Strings.Strip | jira_reader.py:43 | The result is a slice of the input with no white space at either end. |
| Strings.StripTrims | jira_reader.py:43 | Everything `strip` cuts off is white space, at both ends. |
| Strings.ContainsAfterStrip | jira_reader.py:42-43 | Stripping keeps every occurrence of a text without white space. |
| Strings.SplitJoin | jira_test_selector.py:50 | `split` undoes `join` when no part holds the separator. |
| Strings.NatToString | jira_agent_backend.py:65 | `str(n)` is a non-empty digit string that `int()` reads back as n, with no leading zero unless it is "0". |

## Left out

- I/O and services:
  - Every Jira, OpenAI and HTTP call, and `print` and logging.
  - `time.sleep` and the wall clock. The wait loop takes the polls made before the deadline as input.
  - `uuid` and the JSON plan file written by `run_browser_use_test`.
  - `os.makedirs` and `os.path.exists`. Existence is the `present` parameter.
  - The event loop (`asyncio`, `nest_asyncio`).
  - The QA assignment and mention comments in both handlers.
- Formatting and parsing:
  - The Markdown text of the reports in `post_results_to_jira` and `format_test_results` is not modelled; only the verdicts it is built from are.
  - `json.loads` in general is the parameter `parse`.
  - Dates are compared as integers; `dateutil` parsing is not modelled.
- Other operations:
  - `create_subtask_with_scenarios` is modelled only through its description text. Its issue-type lookup (jira_writer.py:37-48) is a Jira call.
  - `post_scenario_suggestions` (jira_test_selector.py:6-17) only formats and posts a comment.
  - `extract_test_steps` and `get_user_story` are calls into code that is not part of this model. Their results are the `items` and `context` parameters.
  - `subprocess.run` is called without `check=True`, so `CalledProcessError` cannot actually arise from it. The branch is still modelled, driven by the `Launch` input.
  - The 3-second wait between rate-limited attempts is not modelled. The runner library has no other timing: it classifies no agent logs and has no timeout or backoff schedule.
  - `run_browser_use_test_hybrid` only wraps the runner in `asyncio.run`, and is not modelled separately.
- Disagreements, where the code is followed:
  - The runner's tests expect output parsing that `browser_use_runner.py` does not do.
  - `parse_agent_logs` and `get_test_selection`, which the tests import, do not exist in the source and are not modelled.
- Writer.PostResultsToJira: every step result is taken to have a "status"; a result without one raises `KeyError` at jira_writer.py:88, which is not modelled.
- AgentBackend.MatchAt: reads `\d` as the ASCII digits 0-9. Python's `\d` in a str pattern also matches other Unicode decimal digits, so a line such as "３. Login" (full-width 3) is a step in the source but not in the model.
- SubtaskManager.SubtaskWithLabel: `get_subtask_with_label` is a Jira search (subtask_manager.py:28-36). The model only takes the first hit. The handlers receive that hit, or its absence, as their `existing` and `subtask` arguments. The label argument plays no part, in the source as in the model.
- Runner.PathJoin: models `os.path.join` for two POSIX parts only.
- Strings.Lower: lowercases ASCII letters only. Python's `str.lower` also maps other Unicode letters.
- AgentBackend.DedupScenarios: the scenario name is modelled as a string; a non-string value, on which `.strip()` would raise, is not.
- Writer.TestedLabels: its own contract states only that "auto-tested" is present. The absence of "testing-in-progress" is proved in `Writer.TestedLabelsClean` and holds only on lists without duplicates, because `list.remove` drops one copy.

## Findings

| source | as written | input that shows it | evidently intended | confidence | as-written member | corrected member |
|---|---|---|---|---|---|---|
| jira_writer.py:13-19 | The bare-array fallback `re.search(r"\[.*\]", …)` has no group 1. `match.group(1)` then raises `IndexError` inside the `try`, and the function returns None. | A description holding only `[]`, or any unfenced array such as `[{"scenario": "A"}]`. | The comment says the first JSON array in the text is returned, so the bare match (`group(0)`) should be parsed. | high, not executed | Writer.ExtractJsonBlockAsWritten (shown by Writer.EmptyListIgnoredAsWritten and Writer.BareArrayIgnoredAsWritten) | Writer.ExtractJsonBlock (proved by Writer.BareFallback and Writer.FenceFirst, used by Writer.ReadScenariosCorrected and Writer.UnfencedScenariosLost) |
