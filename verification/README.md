# TestSmith AI pipeline, modelled in Dafny

TestSmith AI turns a natural-language test instruction into a Selenium test
file, runs the file, and records the outcome in a JSON report and an Excel
workbook. This project models the bookkeeping and text-building layer of that
pipeline and proves what it promises:

- **Instruction parser** (`nlu_processor.dfy`). The keyword fallback parser,
  and the choice between the hosted model's reply and that fallback.
- **Test generator** (`test_generator.dfy`).
  - The step loop that emits a comment and a code fragment per step.
  - Test-name normalisation and the file name.
  - The template the steps are spliced into.
  - The file write into the test-case directory.
- **Executor** (`test_executor.dfy`).
  - Filtering the directory listing by the test's prefix.
  - Choosing the greatest name through the descending sort.
  - Classifying the run as PASS, FAIL, TIMEOUT or ERROR, with stderr taking priority over stdout.
  - Extracting the screenshot path after `Screenshot saved to:`.
  - The log file.
- **Report** (`report_generator.dfy`).
  - Appending an entry to the results list of the JSON report.
  - Laying out the worksheet as a map from (row, column) to text.
  - Column widths clamped at 50.
- **Evaluation** (`evaluation_runner.dfy`).
  - The nested loops that count each run in its difficulty's bucket and in "overall".
  - The success criteria on accuracy and on the 80th-percentile latency.
- **Command line** (`pipeline.dfy`).
  - Mode precedence (`--eval`, then `--file`, then the instruction, then help).
  - Filtering the lines of a batch file.
  - `process_instruction` and the report entry it builds.
  - The batch loop followed by one workbook.

`workspace.dfy` holds the state the pipeline changes: a `FileSystem` object whose
fields are the test-case directory, the log directory and the JSON report.
Each of those fields is updated in place by the methods that write it.
`strings.dfy` models the parts of Python's `str` API the code uses:
- `lower`, `upper` and `strip`;
- substring tests;
- `join`;
- code-point ordering.

`results.dfy` holds the `Option` and `Result` types. A Python exception that
ends an operation is an `Err`:
- a `KeyError` for a missing dictionary key carries what `str()` of it prints,
  the quoted key: `'test_name'`, `'steps'`, `'objective'`, `'results'`,
  `'status'`, `'overall'` or the quoted unknown difficulty;
- a batch file that cannot be opened and a JSON file that cannot be decoded
  in the spreadsheet step carry the exception's class name,
  `FileNotFoundError` and `JSONDecodeError`.

Behaviour of the code that the proofs make explicit:

- **Prefix overlap.** The executor's candidate filter is a bare prefix test. The files of a test named `open google maps` also match the test `open google`. If their suffix sorts higher, the executor runs the other test's file (`TestExecutor.PrefixOverlapRunsOtherTest`).
- **Screenshot hidden by stderr.** The screenshot marker is only searched in the chosen output. When the run writes anything to stderr, a marker printed on stdout is never seen (`TestExecutor.StderrHidesScreenshot`).
- **Screenshot on any status.** The search for the marker (test_executor.py:53-60) does not look at the status, so a PASS run that prints the marker is reported with a screenshot too. The generated file prints the marker only from its `except` branch (test_generator.py:75-87), so in practice a path appears after a failure.
- **Unindented continuation lines.** The multi-line verify and wait fragments are joined with a newline and eight spaces, but their own continuation lines are not re-indented. A verify step's assertion line lands at column 0 inside the `try:` block (`TestGenerator.VerifyContinuationAtColumnZero`). A wait fragment opens with `try:`, and its second line starts at column 4.
- **Exceptions are not failures.** An instruction whose pipeline call raises is counted under `errors`, never `failed`. `timeouts` is never incremented: a TIMEOUT status returned by the pipeline counts as failed.
- **A level named "overall".** A dataset level named "overall" is counted twice in the "overall" bucket, because `Record` updates the level's bucket and then "overall".
- **Unknown level name.** A level whose name is not one of the four buckets raises a `KeyError` that ends the evaluation (`EvaluationRunner.RecordStopsTally`).

## Model

| member | source | states |
|---|---|---|
| TestGenerator.GenerateStepsCode | test_generator.py:113-163 | the loop's result is the step entries joined by a newline and eight spaces (`StepsCode`) |
| TestGenerator.StepEntries | test_generator.py:115-161 | the loop emits exactly two entries per step |
| TestGenerator.StepEntriesLayout | test_generator.py:116-161 | entry 2i is the comment `# Step i+1: <action>` and entry 2i+1 is step i's fragment, in input order |
| TestGenerator.StepInCode | test_generator.py:160-163 | each step's comment and fragment appear in the code; the first opens it, every later one follows a separator |
| TestGenerator.StepsInOrder | test_generator.py:116-163 | a step's chunk comes before the chunk of every later step |
| TestGenerator.StepsCodeEmptyIffNoSteps | test_generator.py:163 | the steps code is empty exactly when there are no steps |
| TestGenerator.VerifyFragmentLines | test_generator.py:134-141 | after `.strip()` a verify fragment is the lookup line and the assertion line, nothing more |
| TestGenerator.WaitFragmentLines | test_generator.py:143-155 | after `.strip()` a wait fragment is its seven lines, nothing more |
| TestGenerator.VerifyLinesMention | test_generator.py:138-141 | the verify fragment holds the locator arguments and the assertion on the expected text |
| TestGenerator.WaitLinesMention | test_generator.py:147-155 | the wait fragment holds the wait call, the locator arguments and the timeout message |
| TestGenerator.VerifyContinuationAtColumnZero | test_generator.py:138-163 | in the steps code a verify step's assertion line follows a bare line break, so it is not re-indented |
| TestGenerator.LocatorStrategyDefault | test_generator.py:123-145 | click, input, verify and wait name `By.<BY>, '<locator>'` with `by` upper-cased and `ID` when the key is missing |
| TestGenerator.UnknownActionNotice | test_generator.py:117-157 | any other action, including a missing one (`''`), gives the `Unknown action` print, so generation never fails on the action |
| TestGenerator.WaitTimeoutUsedTwice | test_generator.py:144-154 | the wait timeout defaults to 10 and the same value appears in the `WebDriverWait` call and in the timeout message |
| TestGenerator.NormalizedNameIsCanonical | test_generator.py:12 | normalisation keeps the length, leaves no space and no upper-case letter, and is idempotent |
| TestGenerator.BuildArtifact | test_generator.py:8-13 | generation fails exactly when `test_name` or `steps` is missing, with the `'test_name'` KeyError first |
| TestGenerator.GenerateTestCode | test_generator.py:8-110 | returns the built text and the joined path, and writes exactly that file into the test-case directory |
| TestGenerator.TestSourceLayout | test_generator.py:18-100 | the filled template defines the test function, carries the unsupported-browser raise, and holds the steps code verbatim right after the `try:` opening |
| TestGenerator.ArtifactEmbedsNameAndSteps | test_generator.py:33-103 | the file is `test_<name>_<timestamp>.py`, defines `test_<name>()` and holds the steps code at the insertion point |
| TestGenerator.ArtifactFileNamed | test_generator.py:12-103 | for a parse with a name and steps, generation succeeds and the file is `test_<n>_<timestamp>.py`, where `n` has the name's length, no space and no upper-case letter |
| TestGenerator.ArtifactDefersBrowserCheck | test_generator.py:35-64 | generation succeeds whatever the browser setting; the unsupported-browser error is text in the artifact |
| TestGenerator.ArtifactFileNamesOrdered | test_generator.py:103 | for timestamps of one length, file names of one test order as their timestamps |
| TestExecutor.ExecuteTest | test_executor.py:11-69 | returns `Execute` of the listing and the outcome; writes the log only for a completed run, and changes nothing else |
| TestExecutor.Latest | test_executor.py:25-26 | the chosen name is a candidate and at least every other candidate |
| TestExecutor.LatestUnique | test_executor.py:25-26 | the greatest candidate is unique |
| TestExecutor.SortDescendingCorrect | test_executor.py:25 | the reverse sort is descending and a permutation of the names |
| TestExecutor.SortedHeadIsLatest | test_executor.py:25-26 | the head of the reverse-sorted list is the greatest candidate |
| TestExecutor.NotFoundIffNoCandidate | test_executor.py:17-22 | no file is named exactly when no listing entry has the prefix, and then the result is the not-found error |
| TestExecutor.FoundStatus | test_executor.py:17-65 | when some file has the prefix the status is decided by the outcome alone; when none has it the status is ERROR |
| TestExecutor.StatusFollowsReturnCode | test_executor.py:50-65 | PASS iff the file ran with return code 0, FAIL iff it ran with another code, TIMEOUT iff it timed out |
| TestExecutor.NoMarkerNoScreenshot | test_executor.py:54-57 | output without the marker gives an empty screenshot path |
| TestExecutor.ScreenshotRoundTrip | test_executor.py:53-57 | the path a generated test prints after the marker is exactly the path extracted from the output |
| TestExecutor.StderrHidesScreenshot | test_executor.py:51-57 | non-empty stderr is the output, and a marker printed on stdout is not found |
| TestExecutor.FailureScreenshotReported | test_executor.py:51-57 | with empty stderr, the printed screenshot path is the one returned |
| TestExecutor.GeneratedFileIsCandidate | test_executor.py:17-18 | the generator's file name is a candidate, and the chosen file is not smaller than it |
| TestExecutor.NewestTimestampRuns | test_executor.py:17-26 | among one test's files with timestamps of one length, the newest timestamp runs |
| TestExecutor.PrefixOverlapRunsOtherTest | test_executor.py:17-26 | a file of a longer test name that shares the prefix can be the one that runs |
| NluProcessor.Fallback | nlu_processor.py:22-67 | every fallback result has a name, an objective, the timestamp, and one navigate step to an `https://www.` URL |
| NluProcessor.FallbackPriority | nlu_processor.py:29-67 | google, then wikipedia, then python decide the name and URL, in that priority, each name iff its condition; the default quotes the original prompt; `open_google` and `open_website` both navigate to the Google URL |
| NluProcessor.PythonOrgSubsumed | nlu_processor.py:49 | the `python.org` test never changes the outcome of `python` |
| NluProcessor.FallbackIgnoresCase | nlu_processor.py:29 | prompts equal up to case give the same name and steps |
| NluProcessor.FallbackIgnoresUpperCase | nlu_processor.py:29 | upper-casing the prompt changes neither name nor steps |
| NluProcessor.ParseInstruction | nlu_processor.py:69-113 | no client or a failed call gives the fallback; a reply keeps its keys; the timestamp is always set |
| ReportGenerator.AppendResult | report_generator.py:20-31 | the results are the prior list plus the entry; a missing or undecodable file starts from `[]`; no `results` key raises |
| ReportGenerator.AddToReport | report_generator.py:11-37 | the saved report is the appended list; the logging line raises when the entry lacks `test_name` or `status` |
| ReportGenerator.AppendTwice | report_generator.py:21-35 | two appends leave the prior results followed by both entries in order |
| ReportGenerator.RowsToReport | report_generator.py:43-56 | passed results are used as given, otherwise the file's list; an empty list, a missing file or a file without `results` means no workbook; an undecodable file raises exactly when no results were passed |
| ReportGenerator.BuildSheet | report_generator.py:63-76 | row 1 holds the seven headers, entry k fills row k+2 from the fixed keys with `''` for a missing key, and nothing else is set |
| ReportGenerator.FillRow | report_generator.py:69-76 | one entry's row is filled and every other cell is kept |
| ReportGenerator.ValuesAt | report_generator.py:69-76 | the k-th value down a column is entry k's value for that key |
| ReportGenerator.LongestIsMaximum | report_generator.py:79-87 | the running maximum bounds every text length and equals one of them |
| ReportGenerator.WidthClamped | report_generator.py:88-89 | a width is between 2 and 50, two more than the longest text unless clamped, and clamped iff some text reaches 48 |
| ReportGenerator.ColumnWidth | report_generator.py:79-89 | the width loop over the laid-out column computes `Width` of the column's texts, header included |
| ReportGenerator.GenerateExcelReport | report_generator.py:39-97 | no rows gives no workbook; otherwise the titled sheet is laid out, every column sized, and the file named with the timestamp |
| EvaluationRunner.Count | evaluation_runner.py:37-59 | a run adds one to `total`; a returned PASS adds one to `passed`, another returned status to `failed`, an exception to `errors`, and the other two stay; its latency is appended; `timeouts` stays |
| EvaluationRunner.RunEvaluation | evaluation_runner.py:8-61 | the nested loops compute `Tally` of the dataset |
| EvaluationRunner.RecordStopsTally | evaluation_runner.py:22-61 | a KeyError on one run is the result of the whole evaluation |
| EvaluationRunner.RecordAllErrSticks | evaluation_runner.py:25-59 | once a level's loop has raised, its later runs change nothing |
| EvaluationRunner.TallyErrSticks | evaluation_runner.py:22-61 | once a level has raised, later levels change nothing |
| EvaluationRunner.CountAllCounts | evaluation_runner.py:29-59 | a bucket's counters grow by the number of runs of each kind and its latencies by theirs, in order |
| EvaluationRunner.CountAllAppend | evaluation_runner.py:25-59 | counting two stretches of runs is counting the first, then the second |
| EvaluationRunner.CountsAppend | evaluation_runner.py:25-59 | the per-kind counts and the latencies of two stretches of runs add up |
| EvaluationRunner.RecordAllCounts | evaluation_runner.py:25-59 | a level's loop counts its runs in its own bucket and in "overall" and changes nothing else |
| EvaluationRunner.RecordAllOk | evaluation_runner.py:25-59 | a level's loop raises exactly when it has runs and its difficulty has no bucket; otherwise the bucket names stay |
| EvaluationRunner.TallyOkIffKnown | evaluation_runner.py:22-61 | the evaluation completes exactly when every level with runs is one of the four buckets, and then the buckets are the initial ones |
| EvaluationRunner.TallyByLevel | evaluation_runner.py:14-61 | with levels easy, medium and hard, each bucket counts exactly its level's runs and "overall" counts all of them |
| EvaluationRunner.TallyConsistent | evaluation_runner.py:14-61 | every bucket keeps total = passed + failed + errors, no timeouts, one latency per run |
| EvaluationRunner.RecordAllConsistent | evaluation_runner.py:25-59 | a level's loop keeps every bucket consistent and the bucket names unchanged |
| EvaluationRunner.OverallIsSumOfLevels | evaluation_runner.py:22-61 | each counter of "overall" is the sum of the three levels' counters |
| EvaluationRunner.LevelsPartitionRuns | evaluation_runner.py:22-61 | the three levels' runs split all runs: their numbers and their kinds add up |
| EvaluationRunner.AccuracyMetInIntegers | evaluation_runner.py:83-91 | the accuracy criterion holds iff something ran and at least nine in ten runs passed |
| EvaluationRunner.SortAscendingCorrect | evaluation_runner.py:85 | `sorted` gives an ascending permutation of the latencies |
| EvaluationRunner.P80Index | evaluation_runner.py:85 | the percentile index is inside a non-empty list |
| EvaluationRunner.WithinSort | evaluation_runner.py:85 | sorting does not change how many latencies are within a limit |
| EvaluationRunner.LatencyMetByCount | evaluation_runner.py:84-92 | the latency criterion holds iff there are latencies and more than the percentile index of them are at most 3 s |
| Pipeline.SelectMode | main.py:28-51 | `--eval` wins, then a non-empty `--file`, then a non-empty instruction, otherwise help |
| Pipeline.BatchInstructionsStripped | main.py:35 | every batch instruction is non-empty and already stripped |
| Pipeline.BatchInstructionsIdempotent | main.py:35 | filtering the instructions again changes nothing |
| Pipeline.BatchInstructionsAppend | main.py:35 | the filter works line by line and keeps the file's order |
| Pipeline.BatchInstructionsOfLine | main.py:35 | a line with text is kept stripped, a blank line is dropped |
| Pipeline.ReportEntry | main.py:67-75 | the entry holds the name, the objective as description, the status, the screenshot and the generated file; `error` is the output iff the status is FAIL and `''` otherwise; the timestamp is the parse's or `''` |
| Pipeline.EntryFillsEveryColumn | main.py:67-75 | a pipeline entry has every key the worksheet reads |
| Pipeline.GeneratedFiles | main.py:60-61 | an incomplete parse leaves the test-case directory; otherwise exactly `test_<n>_<timestamp>.py` is added, every other file is kept, and the executor finds a candidate |
| Pipeline.EntryOfFields | main.py:55-75 | for a complete parse the entry names the test, quotes the objective, carries the parse time, and its status is the outcome's, because the file just generated is always found |
| Pipeline.ProcessInstruction | main.py:55-83 | the directories become `Generated` and `Logged` of the parse; success iff the parse has name, steps and objective and the report has a results list; a success returns `EntryOf` and appends it to the report; a failure leaves the report and names the first missing key |
| Pipeline.GenerateStage | main.py:60-61 | generation fails exactly on a parse without name or steps, with `'test_name'` first, and otherwise leaves a file the executor finds |
| Pipeline.ExecuteAndReport | main.py:63-83 | the log is written for a completed run; the entry is built from the execution of the newest candidate and appended; a missing objective or results list raises and leaves the report |
| Pipeline.ReportAfter | report_generator.py:20-31 | appending entries keeps a results list present or absent, and the list grows by exactly the entries |
| Pipeline.ReportStep | main.py:55-83 | one more instruction appends its entry to the report exactly when its parse is complete and the report has a results list |
| Pipeline.StoppedReport | main.py:37-41 | the instruction a batch raised at adds nothing to the report |
| Pipeline.ProcessAll | main.py:37-41 | the instructions `taken` are a prefix of the list and the directories and report are what they leave in turn; success iff every instruction parses completely and the report has a results list (or there are no instructions), and then all are taken and the entries are `EntriesOf` them, one each; a failure stops at the last instruction taken, the first that lacks a key or finds no results list, and the report lacks its entry |
| Pipeline.RunBatch | main.py:33-46 | the batch loop as `ProcessAll` over the filtered lines, then a workbook laid out from exactly those entries, or none when there are none; no workbook after a failure |
| Pipeline.CollectRuns | evaluation_runner.py:22-61 | the suites run in order, each to its end unless its difficulty has no bucket, which stops after its first instruction; the k-th run is `RunOf` the k-th instruction taken; the directories and report are those the instructions taken leave |
| Pipeline.RunSuite | evaluation_runner.py:25-30 | a suite's instructions in order, all of them, or only the first when the difficulty has no bucket; each run is `RunOf` its instruction, and the state grows by those instructions |
| Pipeline.EvaluateOne | evaluation_runner.py:27-59 | one timed `process_instruction`: a return counts its entry's status, an exception counts as raised, with the instruction's latency; the state grows by that one instruction |
| Pipeline.CollectedTallyOk | evaluation_runner.py:22-61 | the tally of the collected levels completes exactly when every suite has a known difficulty or no instructions |
| Pipeline.EvaluationMode | main.py:28-31 | the levels are `Collected` from the dataset and `taken` is their instructions; each run is what its call came to; the result is the tally, which succeeds iff every suite has a known difficulty or no instructions; the directories and report are what the calls left |
| Pipeline.BatchMode | main.py:33-46 | an unopenable file is a `FileNotFoundError` before anything runs; otherwise `RunBatch`'s success condition, entries and workbook, or the failing prefix, with the state those instructions left |
| Pipeline.SingleMode | main.py:53 | one `process_instruction`: the parse's file and log; success iff the parse is complete and the report has a results list; a success returns `EntryOf` the instruction and appends it; a failure leaves the report and names the first missing key |
| Pipeline.RunCommandLine | main.py:18-53 | whichever mode runs and however it ends, the directories and report are what `process_instruction` left on the instructions `taken`; `--eval`, `--file`, an instruction and help each state their own result and `taken`, as the three mode methods and an empty `taken` for help |
| Workspace.FileSystem.ListArtifacts | test_executor.py:17 | the listing names every file of the directory exactly once |
| Workspace.PathJoin | test_generator.py:104 | the joined path ends with the file name |
| Strings.StripShape | main.py:35 | `strip` removes whitespace at both ends and only there |
| Strings.StripIdempotent | main.py:35 | stripping twice is stripping once |
| Strings.LexLeqTotal | test_executor.py:25 | any two names are ordered |
| Strings.LexLeqAntisymmetric | test_executor.py:25 | names ordered both ways are equal |
| Strings.LexLeqTransitive | test_executor.py:25 | the name order is transitive |

## Left out

- The hosted language model is an input (`LlmReply`): no client, a failed call, or the dictionary it returned. The request, its prompt and JSON decoding of the reply are not modelled.
- The child process is an input (`Outcome`): completed with a return code and both streams, timed out, or raised. Timing, the 300-second limit and process lifetime are not modelled.
- The clock is an input. Every timestamp is a parameter, and the model does not constrain its format.
- File writes always succeed; errors from `open`, `write`, `makedirs` or `wb.save` are not modelled. The only file failure modelled is a batch file that cannot be opened, which ends the run.
- The JSON report keeps only its `results` list. Other top-level keys, a document that is not an object, and the file's formatting are not modelled. Entry values are strings.
- Step dictionaries are maps from keys to text, and the parse's name is text. A value of another type is not modelled: `by` and `test_name` go through `.upper()` and `.lower()` (test_generator.py:12,124,129,135,144), which raise `AttributeError` on a non-string. The default timeout `10` is written as the text `10`.
- Case mapping and whitespace are ASCII only, where Python consults the Unicode database.
- What the generated Selenium file does when it runs is not modelled, only its text.
- Logging, printing, argparse and `ensure_directories` are not modelled. The per-level accuracy, average and percentile figures that are only printed are left out too.
- `execute_test` ignores its `test_code` argument; the model omits it.
- TestExecutor.ExecuteTest: `list.sort(reverse=True)` in place is modelled as a functional insertion sort over the listed names.
- EvaluationRunner.RunEvaluation: `process_instruction` is an input. Each instruction's outcome is a `Run` holding the returned status or the fact that it raised, and the latency. Latencies are exact reals, and `int(len * 0.8)` is written `(len * 4) / 5`. The dataset's dictionary order is a sequence of levels.
- EvaluationRunner.OverallIsSumOfLevels: states the integer counters only. It does not state that the "overall" latencies are a permutation of the three levels' latencies. `TallyByLevel` gives both lists in run order.
- The template the generated file is built from is a parameter `t: Template` of the pipeline members. `RunCommandLine` fixes it to the one `generate_test_code` uses.
- The evaluation dataset is a parameter (`dataset`), a sequence of suites in the dictionary's order; the latency of the k-th timed call is `latency(k)`.
- Pipeline.RunCommandLine: in evaluation mode the latency is an input, not the clock difference around the call.
