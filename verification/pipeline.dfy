/** The command-line pipeline: parse an instruction, generate its test file,
    run it, and append the outcome to the report; one instruction, a file of
    them, or the evaluation dataset. */
module Pipeline {
  import opened Results
  import opened Strings
  import opened Workspace
  import opened TestGenerator
  import opened TestExecutor
  import opened NluProcessor
  import opened ReportGenerator
  import opened EvaluationRunner

  // ---------------------------------------------------------------------------
  // Mode selection

  /** The parsed command line: the positional instruction, `--file` and `--eval`. */
  datatype Args = Args(instruction: Option<string>, file: Option<string>, eval: bool)

  datatype Mode = Evaluate | Batch(path: string) | Single(instruction: string) | Help

  /** `--eval` wins over everything, then a non-empty `--file`, then a
      non-empty instruction; with none of them, help is shown. */
  function SelectMode(args: Args): (m: Mode)
    ensures m == Evaluate <==> args.eval
    ensures m.Batch? <==> !args.eval && Truthy(args.file)
    ensures m.Batch? ==> m.path == args.file.value
    ensures m.Single? <==> !args.eval && !Truthy(args.file) && Truthy(args.instruction)
    ensures m.Single? ==> m.instruction == args.instruction.value
    ensures m == Help <==> !args.eval && !Truthy(args.file) && !Truthy(args.instruction)
  {
    if args.eval then Evaluate
    else if Truthy(args.file) then Batch(args.file.value)
    else if Truthy(args.instruction) then Single(args.instruction.value)
    else Help
  }

  // ---------------------------------------------------------------------------
  // Batch instructions

  /** The instructions of a batch file: each line stripped, blank lines
      dropped, in file order. */
  function BatchInstructions(lines: seq<string>): (r: seq<string>)
    ensures |r| <= |lines|
  {
    if lines == [] then []
    else (if Strip(lines[0]) != "" then [Strip(lines[0])] else []) + BatchInstructions(lines[1..])
  }

  /** Every instruction is non-empty and already stripped. */
  lemma {:induction false} BatchInstructionsStripped(lines: seq<string>)
    ensures forall i :: 0 <= i < |BatchInstructions(lines)| ==>
              BatchInstructions(lines)[i] != "" && Strip(BatchInstructions(lines)[i]) == BatchInstructions(lines)[i]
    decreases |lines|
  {
    if lines != [] {
      BatchInstructionsStripped(lines[1..]);
      StripIdempotent(lines[0]);
    }
  }

  /** Filtering the instructions again changes nothing. */
  lemma {:induction false} BatchInstructionsIdempotent(lines: seq<string>)
    ensures BatchInstructions(BatchInstructions(lines)) == BatchInstructions(lines)
    decreases |lines|
  {
    if lines != [] {
      var rest := BatchInstructions(lines[1..]);
      BatchInstructionsIdempotent(lines[1..]);
      if Strip(lines[0]) != "" {
        StripIdempotent(lines[0]);
        var r := BatchInstructions(lines);
        assert r == [Strip(lines[0])] + rest;
        assert r[1..] == rest;
      } else {
        assert BatchInstructions(lines) == rest;
      }
    }
  }

  /** The filter works line by line: the instructions of two stretches of
      lines are those of the first followed by those of the second. */
  lemma {:induction false} BatchInstructionsAppend(a: seq<string>, b: seq<string>)
    ensures BatchInstructions(a + b) == BatchInstructions(a) + BatchInstructions(b)
    decreases |a|
  {
    if a == [] {
      assert a + b == b;
    } else {
      assert (a + b)[0] == a[0] && (a + b)[1..] == a[1..] + b;
      BatchInstructionsAppend(a[1..], b);
    }
  }

  /** A line with text is kept, stripped; a blank line is dropped. */
  lemma BatchInstructionsOfLine(line: string)
    ensures Strip(line) != "" ==> BatchInstructions([line]) == [Strip(line)]
    ensures Strip(line) == "" ==> BatchInstructions([line]) == []
  {
    assert [line][1..] == [];
  }

  // ---------------------------------------------------------------------------
  // One instruction

  /** The report entry of one run: the parsed name and objective, the
      executor's status, file and screenshot, and its output as the error
      only when the test failed. */
  function ReportEntry(testName: string, objective: string, timestamp: Option<string>, r: ExecResult): (e: Entry)
    ensures "test_name" in e && e["test_name"] == testName
    ensures "description" in e && e["description"] == objective
    ensures "status" in e && e["status"] == StatusName(r.status)
    ensures "screenshot_link" in e && e["screenshot_link"] == r.screenshot
    ensures "generated_code_link" in e && e["generated_code_link"] == r.testFile
    ensures "error" in e && "timestamp" in e
    ensures r.status == Fail ==> e["error"] == r.output
    ensures r.status != Fail ==> e["error"] == ""
    ensures timestamp.None? ==> e["timestamp"] == ""
    ensures timestamp.Some? ==> e["timestamp"] == timestamp.value
  {
    map[
      "test_name" := testName,
      "description" := objective,
      "status" := StatusName(r.status),
      "error" := if r.status == Fail then r.output else "",
      "screenshot_link" := r.screenshot,
      "generated_code_link" := r.testFile,
      "timestamp" := if timestamp.Some? then timestamp.value else ""]
  }

  /** A pipeline entry has every key the spreadsheet reads, so no column of
      its row falls back to ''. */
  lemma EntryFillsEveryColumn(testName: string, objective: string, timestamp: Option<string>, r: ExecResult)
    ensures forall j :: 0 <= j < |ReportGenerator.Keys| ==> ReportGenerator.Keys[j] in ReportEntry(testName, objective, timestamp, r)
  {
  }

  /** What the outside world supplies to one run: the hosted model's answer,
      the clock at parsing, at generation and at logging, and what running the
      test file came to. */
  datatype World = World(reply: LlmReply, parsedAt: string, generatedAt: string, outcome: Outcome, loggedAt: string)

  /** The parse of an instruction, given the hosted model's answer. */
  function ParseOf(instruction: string, w: World): Parsed {
    ParseInstruction(instruction, w.reply, w.parsedAt)
  }

  /** The parse has the three keys process_instruction reads. */
  predicate Complete(p: Parsed) {
    p.testName.Some? && p.steps.Some? && p.objective.Some?
  }

  /** The k-th instruction of a run parses to every key process_instruction
      reads. */
  ghost predicate CompleteAt(instructions: seq<string>, worlds: nat -> World, k: int) {
    0 <= k < |instructions| && Complete(ParseOf(instructions[k], worlds(k)))
  }

  /** The test-case directory after generation: the generated file added,
      or written over a file of the same name, when the parse has a name and
      steps; unchanged otherwise. */
  function Generated(t: Template, artifacts: map<string, string>, p: Parsed, timestamp: string): map<string, string> {
    match BuildArtifact(t, p, timestamp)
    case Ok(a) => artifacts[a.fileName := a.source]
    case Err(_) => artifacts
  }

  /** The log directory after execution: the run's log added when a test
      file was generated and ran to completion. */
  function Logged(logs: map<string, string>, p: Parsed, w: World): map<string, string> {
    if p.testName.Some? && p.steps.Some? && w.outcome.Completed? then
      logs[LogFileName(p.testName.value, w.loggedAt) := LogText(w.outcome.stdout, w.outcome.stderr)]
    else logs
  }

  /** The entry process_instruction returns for an instruction with a
      complete parse, when the test-case directory was `artifacts` before
      generation. */
  ghost function EntryOf(t: Template, testDir: string, artifacts: map<string, string>, instruction: string, w: World): Entry {
    var p := ParseOf(instruction, w);
    var name := if p.testName.Some? then p.testName.value else "";
    ReportEntry(name, if p.objective.Some? then p.objective.value else "", p.timestamp,
                Execute(testDir, Generated(t, artifacts, p, w.generatedAt).Keys, name, w.outcome))
  }

  /** Generation keeps every other file as it was and adds
      `test_<normalized name>_<timestamp>.py`, which the executor then finds
      under the test's name. */
  lemma GeneratedFiles(t: Template, artifacts: map<string, string>, p: Parsed, timestamp: string)
    ensures p.testName.None? || p.steps.None? ==> Generated(t, artifacts, p, timestamp) == artifacts
    ensures p.testName.Some? && p.steps.Some? ==>
              var g := Generated(t, artifacts, p, timestamp);
              var file := "test_" + NormalizeName(p.testName.value) + "_" + timestamp + ".py";
              g.Keys == artifacts.Keys + {file}
              && (forall f :: f in artifacts && f != file ==> g[f] == artifacts[f])
              && Candidates(g.Keys, p.testName.value) != {}
  {
    if p.testName.Some? && p.steps.Some? {
      ArtifactEmbedsNameAndSteps(t, p, timestamp);
      ArtifactFileNamed(t, p, timestamp);
      GeneratedFileIsCandidate(Generated(t, artifacts, p, timestamp).Keys, p.testName.value, timestamp);
    }
  }

  /** For a complete parse the entry names the test, quotes the objective,
      carries the parse time, and its status is decided by the outcome alone:
      the file just generated is always found. */
  lemma EntryOfFields(t: Template, testDir: string, artifacts: map<string, string>, instruction: string, w: World)
    requires Complete(ParseOf(instruction, w))
    ensures var e := EntryOf(t, testDir, artifacts, instruction, w); var p := ParseOf(instruction, w);
      e["test_name"] == p.testName.value && e["description"] == p.objective.value
      && e["timestamp"] == w.parsedAt && e["status"] == StatusName(OutcomeStatus(w.outcome))
  {
    var p := ParseOf(instruction, w);
    GeneratedFiles(t, artifacts, p, w.generatedAt);
    FoundStatus(testDir, Generated(t, artifacts, p, w.generatedAt).Keys, p.testName.value, w.outcome);
  }

  /** process_instruction: parse, generate, then execute and report. A
      KeyError from a missing key or from the report file ends the run. */
  method ProcessInstruction(fs: FileSystem, t: Template, testDir: string, instruction: string, w: World)
    returns (r: Result<Entry>)
    modifies fs`artifacts, fs`logs, fs`report
    ensures fs.artifacts == Generated(t, old(fs.artifacts), ParseOf(instruction, w), w.generatedAt)
    ensures fs.logs == Logged(old(fs.logs), ParseOf(instruction, w), w)
    ensures r.Ok? <==> Complete(ParseOf(instruction, w)) && PriorResults(old(fs.report)).Some?
    ensures r.Ok? ==> r.value == EntryOf(t, testDir, old(fs.artifacts), instruction, w)
                      && fs.report == Decoded(Some(PriorResults(old(fs.report)).value + [r.value]))
    ensures r.Err? ==> fs.report == old(fs.report)
    ensures var p := ParseOf(instruction, w);
      r.Err? ==> r.error == (if p.testName.None? then "'test_name'" else if p.steps.None? then "'steps'"
                             else if p.objective.None? then "'objective'" else "'results'")
  {
    var parsed := ParseInstruction(instruction, w.reply, w.parsedAt);
    assert parsed == ParseOf(instruction, w);
    var generated := GenerateStage(fs, t, testDir, parsed, w.generatedAt);
    if generated.Err? {
      return Err(generated.error);
    }
    r := ExecuteAndReport(fs, testDir, parsed, w);
    assert r.Ok? ==> r.value == EntryOf(t, testDir, old(fs.artifacts), instruction, w);
  }

  /** The generation step of process_instruction: it fails exactly when the
      parse lacks a name or steps, and otherwise writes the generated file,
      which the executor will find under the test's name. */
  method GenerateStage(fs: FileSystem, t: Template, testDir: string, parsed: Parsed, timestamp: string)
    returns (r: Result<(string, string)>)
    modifies fs`artifacts
    ensures r.Err? <==> parsed.testName.None? || parsed.steps.None?
    ensures parsed.testName.None? ==> r == Err("'test_name'")
    ensures parsed.testName.Some? && parsed.steps.None? ==> r == Err("'steps'")
    ensures fs.artifacts == Generated(t, old(fs.artifacts), parsed, timestamp)
    ensures r.Ok? ==> Candidates(fs.artifacts.Keys, parsed.testName.value) != {}
  {
    r := GenerateTestCode(fs, t, testDir, parsed, timestamp);
    if r.Ok? {
      ArtifactFileNamed(t, parsed, timestamp);
      GeneratedFileIsCandidate(fs.artifacts.Keys, parsed.testName.value, timestamp);
    }
  }

  /** The second half of process_instruction: run the newest matching file
      (writing its log), build the entry and append it to the report. */
  method ExecuteAndReport(fs: FileSystem, testDir: string, parsed: Parsed, w: World)
    returns (r: Result<Entry>)
    requires parsed.testName.Some? && parsed.steps.Some?
    requires Candidates(fs.artifacts.Keys, parsed.testName.value) != {}
    modifies fs`logs, fs`report
    ensures fs.logs == Logged(old(fs.logs), parsed, w)
    ensures r.Ok? <==> parsed.objective.Some? && PriorResults(old(fs.report)).Some?
    ensures r.Ok? ==>
              r.value == ReportEntry(parsed.testName.value, parsed.objective.value, parsed.timestamp,
                                     Execute(testDir, fs.artifacts.Keys, parsed.testName.value, w.outcome))
              && fs.report == Decoded(Some(PriorResults(old(fs.report)).value + [r.value]))
    ensures parsed.objective.None? ==> r == Err("'objective'")
    ensures parsed.objective.Some? && PriorResults(old(fs.report)).None? ==> r == Err("'results'")
    ensures r.Err? ==> fs.report == old(fs.report)
  {
    var result := ExecuteTest(fs, testDir, parsed.testName.value, w.outcome, w.loggedAt);
    if parsed.objective.None? {
      return Err("'objective'");
    }
    var entry := ReportEntry(parsed.testName.value, parsed.objective.value, parsed.timestamp, result);
    var added := AddToReport(fs, entry);
    if added.Err? {
      return Err(added.error);
    }
    return Ok(entry);
  }

  // ---------------------------------------------------------------------------
  // A run of instructions

  /** The test-case directory after processing the instructions in order,
      the i-th with `worlds(i)`. */
  ghost function ArtifactsAfterAll(t: Template, artifacts: map<string, string>, instructions: seq<string>, worlds: nat -> World)
    : map<string, string>
    decreases |instructions|
  {
    if instructions == [] then artifacts
    else
      var n := |instructions| - 1;
      Generated(t, ArtifactsAfterAll(t, artifacts, instructions[..n], worlds), ParseOf(instructions[n], worlds(n)),
                worlds(n).generatedAt)
  }

  /** The log directory after processing the instructions in order. */
  ghost function LogsAfterAll(logs: map<string, string>, instructions: seq<string>, worlds: nat -> World)
    : map<string, string>
    decreases |instructions|
  {
    if instructions == [] then logs
    else
      var n := |instructions| - 1;
      Logged(LogsAfterAll(logs, instructions[..n], worlds), ParseOf(instructions[n], worlds(n)), worlds(n))
  }

  /** The entries of the instructions whose parse is complete, in order,
      each run in the directory the earlier ones left. */
  ghost function EntriesOf(t: Template, testDir: string, artifacts: map<string, string>, instructions: seq<string>,
                           worlds: nat -> World): seq<Entry>
    decreases |instructions|
  {
    if instructions == [] then []
    else
      var n := |instructions| - 1;
      EntriesOf(t, testDir, artifacts, instructions[..n], worlds)
      + if Complete(ParseOf(instructions[n], worlds(n))) then
          [EntryOf(t, testDir, ArtifactsAfterAll(t, artifacts, instructions[..n], worlds), instructions[n], worlds(n))]
        else []
  }

  /** The results file once `entries` were appended one by one: unchanged
      when there were none or the file has no results list. */
  function ReportAfter(report: ReportFile, entries: seq<Entry>): (f: ReportFile)
    ensures PriorResults(f).Some? <==> PriorResults(report).Some?
    ensures PriorResults(report).Some? ==> PriorResults(f).value == PriorResults(report).value + entries
  {
    if entries == [] || PriorResults(report).None? then report
    else Decoded(Some(PriorResults(report).value + entries))
  }

  /** Appending one more entry to the file a run left is the file the longer
      run leaves. */
  lemma ReportAfterStep(report: ReportFile, entries: seq<Entry>, e: Entry)
    requires PriorResults(report).Some?
    ensures Decoded(Some(PriorResults(ReportAfter(report, entries)).value + [e])) == ReportAfter(report, entries + [e])
  {
    assert PriorResults(report).value + entries + [e] == PriorResults(report).value + (entries + [e]);
  }

  /** One more instruction: the report of the longer run is the report of
      the shorter one with that instruction's entry appended when it was
      built and there is a results list to append it to. */
  lemma ReportStep(t: Template, testDir: string, artifacts: map<string, string>, report: ReportFile,
                   done: seq<string>, x: string, worlds: nat -> World)
    ensures var n := |done|; var p := ParseOf(x, worlds(n)); var before := ReportAfter(report, EntriesOf(t, testDir, artifacts, done, worlds));
      ReportAfter(report, EntriesOf(t, testDir, artifacts, done + [x], worlds))
      == if Complete(p) && PriorResults(report).Some?
         then Decoded(Some(PriorResults(before).value + [EntryOf(t, testDir, ArtifactsAfterAll(t, artifacts, done, worlds), x, worlds(n))]))
         else before
  {
    assert (done + [x])[..|done|] == done;
    var entries := EntriesOf(t, testDir, artifacts, done, worlds);
    var e := EntryOf(t, testDir, ArtifactsAfterAll(t, artifacts, done, worlds), x, worlds(|done|));
    if Complete(ParseOf(x, worlds(|done|))) {
      assert EntriesOf(t, testDir, artifacts, done + [x], worlds) == entries + [e];
      if PriorResults(report).Some? {
        ReportAfterStep(report, entries, e);
      }
    } else {
      assert EntriesOf(t, testDir, artifacts, done + [x], worlds) == entries;
    }
  }

  /** One more instruction: the state and the entries of the longer run are
      those of the shorter run followed by that instruction's pass. */
  lemma AfterAllStep(t: Template, testDir: string, artifacts: map<string, string>, logs: map<string, string>,
                     instructions: seq<string>, x: string, worlds: nat -> World)
    ensures var n := |instructions|; var p := ParseOf(x, worlds(n));
      ArtifactsAfterAll(t, artifacts, instructions + [x], worlds)
        == Generated(t, ArtifactsAfterAll(t, artifacts, instructions, worlds), p, worlds(n).generatedAt)
      && LogsAfterAll(logs, instructions + [x], worlds) == Logged(LogsAfterAll(logs, instructions, worlds), p, worlds(n))
      && EntriesOf(t, testDir, artifacts, instructions + [x], worlds)
         == EntriesOf(t, testDir, artifacts, instructions, worlds)
            + if Complete(p) then [EntryOf(t, testDir, ArtifactsAfterAll(t, artifacts, instructions, worlds), x, worlds(n))]
              else []
  {
    assert (instructions + [x])[..|instructions|] == instructions;
  }

  /** The same step, for a prefix of a list of instructions. */
  lemma AfterPrefixStep(t: Template, testDir: string, artifacts: map<string, string>, logs: map<string, string>,
                        instructions: seq<string>, i: nat, worlds: nat -> World)
    requires i < |instructions|
    ensures var p := ParseOf(instructions[i], worlds(i));
      ArtifactsAfterAll(t, artifacts, instructions[..i + 1], worlds)
        == Generated(t, ArtifactsAfterAll(t, artifacts, instructions[..i], worlds), p, worlds(i).generatedAt)
      && LogsAfterAll(logs, instructions[..i + 1], worlds) == Logged(LogsAfterAll(logs, instructions[..i], worlds), p, worlds(i))
      && EntriesOf(t, testDir, artifacts, instructions[..i + 1], worlds)
         == EntriesOf(t, testDir, artifacts, instructions[..i], worlds)
            + if Complete(p) then [EntryOf(t, testDir, ArtifactsAfterAll(t, artifacts, instructions[..i], worlds), instructions[i], worlds(i))]
              else []
  {
    assert instructions[..i + 1] == instructions[..i] + [instructions[i]];
    AfterAllStep(t, testDir, artifacts, logs, instructions[..i], instructions[i], worlds);
  }

  // ---------------------------------------------------------------------------
  // Batch mode

  /** A run of instructions raised at the k-th: every one before it parsed
      completely, and it did not, or the report has no results list. */
  ghost predicate Stopped(instructions: seq<string>, worlds: nat -> World, hasResults: bool, k: int) {
    0 <= k < |instructions| && (forall j :: 0 <= j < k ==> CompleteAt(instructions, worlds, j))
    && (!CompleteAt(instructions, worlds, k) || !hasResults)
  }

  /** The instruction a run raised at adds nothing to the report: either it
      built no entry, or there was no results list to append it to. */
  lemma StoppedReport(t: Template, testDir: string, artifacts: map<string, string>, logs: map<string, string>,
                      report: ReportFile, instructions: seq<string>, k: nat, worlds: nat -> World)
    requires Stopped(instructions, worlds, PriorResults(report).Some?, k)
    ensures ReportAfter(report, EntriesOf(t, testDir, artifacts, instructions[..k], worlds))
            == ReportAfter(report, EntriesOf(t, testDir, artifacts, instructions[..k + 1], worlds))
  {
    AfterPrefixStep(t, testDir, artifacts, logs, instructions, k, worlds);
    if !CompleteAt(instructions, worlds, k) {
      assert EntriesOf(t, testDir, artifacts, instructions[..k + 1], worlds)
             == EntriesOf(t, testDir, artifacts, instructions[..k], worlds);
    }
  }

  /** The batch loop: process_instruction on each instruction in turn, its
      entry appended to the results; the first exception ends the loop and
      leaves the files as the instructions up to it left them. */
  method ProcessAll(fs: FileSystem, t: Template, testDir: string, instructions: seq<string>, worlds: nat -> World)
    returns (r: Result<seq<Entry>>, ghost taken: seq<string>)
    modifies fs`artifacts, fs`logs, fs`report
    ensures |taken| <= |instructions| && taken == instructions[..|taken|]
    ensures fs.artifacts == ArtifactsAfterAll(t, old(fs.artifacts), taken, worlds)
    ensures fs.logs == LogsAfterAll(old(fs.logs), taken, worlds)
    ensures fs.report == ReportAfter(old(fs.report), EntriesOf(t, testDir, old(fs.artifacts), taken, worlds))
    ensures r.Ok? <==> (instructions == [] || PriorResults(old(fs.report)).Some?)
                       && forall i :: 0 <= i < |instructions| ==> CompleteAt(instructions, worlds, i)
    ensures r.Ok? ==> taken == instructions && |r.value| == |instructions|
                      && r.value == EntriesOf(t, testDir, old(fs.artifacts), instructions, worlds)
    ensures r.Err? ==> taken != [] && Stopped(instructions, worlds, PriorResults(old(fs.report)).Some?, |taken| - 1)
                       && fs.report == ReportAfter(old(fs.report), EntriesOf(t, testDir, old(fs.artifacts), taken[..|taken| - 1], worlds))
  {
    var results: seq<Entry> := [];
    var i := 0;
    while i < |instructions|
      invariant 0 <= i <= |instructions| && |results| == i
      invariant forall k :: 0 <= k < i ==> CompleteAt(instructions, worlds, k)
      invariant i > 0 ==> PriorResults(old(fs.report)).Some?
      invariant results == EntriesOf(t, testDir, old(fs.artifacts), instructions[..i], worlds)
      invariant fs.artifacts == ArtifactsAfterAll(t, old(fs.artifacts), instructions[..i], worlds)
      invariant fs.logs == LogsAfterAll(old(fs.logs), instructions[..i], worlds)
      invariant fs.report == ReportAfter(old(fs.report), results)
    {
      AfterPrefixStep(t, testDir, old(fs.artifacts), old(fs.logs), instructions, i, worlds);
      var entry := ProcessInstruction(fs, t, testDir, instructions[i], worlds(i));
      if entry.Err? {
        assert !CompleteAt(instructions, worlds, i) || PriorResults(old(fs.report)).None?;
        assert Stopped(instructions, worlds, PriorResults(old(fs.report)).Some?, i);
        StoppedReport(t, testDir, old(fs.artifacts), old(fs.logs), old(fs.report), instructions, i, worlds);
        assert instructions[..i + 1][..i] == instructions[..i];
        return Err(entry.error), instructions[..i + 1];
      }
      assert CompleteAt(instructions, worlds, i);
      forall k | 0 <= k < i + 1 ensures CompleteAt(instructions, worlds, k) {
        if k < i {
          assert CompleteAt(instructions, worlds, k);
        }
      }
      ReportAfterStep(old(fs.report), results, entry.value);
      results := results + [entry.value];
      i := i + 1;
    }
    assert instructions[..i] == instructions;
    return Ok(results), instructions;
  }

  /** Batch mode: every instruction of the file in order, the entries
      collected, then one spreadsheet of exactly those entries. The first
      exception ends the whole batch; `taken` is the instructions
      process_instruction was called on. */
  method RunBatch(fs: FileSystem, t: Template, testDir: string, reportsDir: string, lines: seq<string>,
                  worlds: nat -> World, now: string)
    returns (r: Result<(seq<Entry>, Option<Workbook>)>, ghost taken: seq<string>)
    modifies fs`artifacts, fs`logs, fs`report
    ensures var instructions := BatchInstructions(lines);
      |taken| <= |instructions| && taken == instructions[..|taken|]
    ensures fs.artifacts == ArtifactsAfterAll(t, old(fs.artifacts), taken, worlds)
    ensures fs.logs == LogsAfterAll(old(fs.logs), taken, worlds)
    ensures fs.report == ReportAfter(old(fs.report), EntriesOf(t, testDir, old(fs.artifacts), taken, worlds))
    ensures var instructions := BatchInstructions(lines);
      r.Ok? <==> (instructions == [] || PriorResults(old(fs.report)).Some?)
                 && forall i :: 0 <= i < |instructions| ==> CompleteAt(instructions, worlds, i)
    ensures r.Ok? ==> taken == BatchInstructions(lines) && |r.value.0| == |taken|
                      && r.value.0 == EntriesOf(t, testDir, old(fs.artifacts), taken, worlds)
    ensures r.Ok? ==> (r.value.1.None? <==> r.value.0 == [])
    ensures r.Ok? && r.value.1.Some? ==> LaidOut(r.value.1.value.cells, r.value.0)
    ensures r.Err? ==> taken != [] && Stopped(BatchInstructions(lines), worlds, PriorResults(old(fs.report)).Some?, |taken| - 1)
                       && fs.report == ReportAfter(old(fs.report), EntriesOf(t, testDir, old(fs.artifacts), taken[..|taken| - 1], worlds))
  {
    var results;
    results, taken := ProcessAll(fs, t, testDir, BatchInstructions(lines), worlds);
    if results.Err? {
      return Err(results.error), taken;
    }
    var workbook := GenerateExcelReport(fs, reportsDir, Some(results.value), now);
    return Ok((results.value, workbook.value)), taken;
  }

  // ---------------------------------------------------------------------------
  // Evaluation mode and the command line

  /** One difficulty of the evaluation dataset and its instructions. */
  datatype Suite = Suite(difficulty: string, instructions: seq<string>)

  /** What one call of process_instruction comes to for the evaluation: an
      exception when the parse lacks a key or the results file lacks its list,
      otherwise the entry's status, which the outcome alone decides. */
  function RunOf(instruction: string, w: World, latency: real, hasResults: bool): Run {
    if Complete(ParseOf(instruction, w)) && hasResults then Returned(StatusName(OutcomeStatus(w.outcome)), latency)
    else Run.Raised(latency)
  }

  /** The k-th run is what the k-th instruction came to, the instructions
      having taken the worlds and latencies from `offset` on. */
  ghost predicate RanAt(runs: seq<Run>, instructions: seq<string>, offset: nat, worlds: nat -> World,
                        latency: nat -> real, hasResults: bool, k: int) {
    0 <= k < |runs| && k < |instructions|
    && runs[k] == RunOf(instructions[k], worlds(offset + k), latency(offset + k), hasResults)
  }

  /** The instructions the levels recorded runs for: the first |runs|
      instructions of each suite, suite after suite. */
  function Taken(suites: seq<Suite>, levels: seq<Level>): seq<string>
    decreases |levels|
  {
    if levels == [] then []
    else
      var n := |levels| - 1;
      Taken(suites, levels[..n]) + TakenFrom(suites, n, |levels[n].runs|)
  }

  /** The first `count` instructions of the n-th suite, if it has them. */
  function TakenFrom(suites: seq<Suite>, n: nat, count: nat): seq<string> {
    if n < |suites| && count <= |suites[n].instructions| then suites[n].instructions[..count] else []
  }

  /** The level was run to its end: every instruction of a known
      difficulty, or of a suite with no instructions. */
  predicate RanFully(suite: Suite, level: Level) {
    level.difficulty == suite.difficulty && |level.runs| == |suite.instructions|
    && (suite.difficulty in Initial || suite.instructions == [])
  }

  /** The levels of an evaluation of the suites: one per suite, in order,
      each run to its end, except that a difficulty without a bucket stops
      the evaluation after its first instruction. */
  predicate Collected(suites: seq<Suite>, levels: seq<Level>) {
    |levels| <= |suites|
    && (forall i :: 0 <= i < |levels| - 1 ==> RanFully(suites[i], levels[i]))
    && (|levels| < |suites| ==> levels != [] && !RanFully(suites[|levels| - 1], levels[|levels| - 1]))
    && (levels != [] && !RanFully(suites[|levels| - 1], levels[|levels| - 1]) ==>
          var last := levels[|levels| - 1];
          last.difficulty == suites[|levels| - 1].difficulty && last.difficulty !in Initial && |last.runs| == 1
          && suites[|levels| - 1].instructions != [])
  }

  /** The evaluation's calls of process_instruction: the suites in order, each
      instruction with the next world and latency. A difficulty without a
      bucket raises right after its first instruction was processed, so
      nothing after it runs. */
  method CollectRuns(fs: FileSystem, t: Template, testDir: string, suites: seq<Suite>, worlds: nat -> World, latency: nat -> real)
    returns (levels: seq<Level>, ghost done: seq<string>)
    modifies fs`artifacts, fs`logs, fs`report
    ensures Collected(suites, levels) && done == Taken(suites, levels)
    ensures |AllRuns(levels)| == |done|
    ensures forall k :: 0 <= k < |done| ==>
              RanAt(AllRuns(levels), done, 0, worlds, latency, PriorResults(old(fs.report)).Some?, k)
    ensures fs.artifacts == ArtifactsAfterAll(t, old(fs.artifacts), done, worlds)
    ensures fs.logs == LogsAfterAll(old(fs.logs), done, worlds)
    ensures fs.report == ReportAfter(old(fs.report), EntriesOf(t, testDir, old(fs.artifacts), done, worlds))
  {
    ghost var hasResults := PriorResults(fs.report).Some?;
    levels := [];
    done := [];
    var count := 0;
    var stopped := false;
    var i := 0;
    while i < |suites| && !stopped
      invariant 0 <= i <= |suites| && |levels| == i && count == |done|
      invariant done == Taken(suites, levels)
      invariant forall j :: 0 <= j < i - 1 ==> RanFully(suites[j], levels[j])
      invariant i > 0 && !stopped ==> RanFully(suites[i - 1], levels[i - 1])
      invariant stopped ==> i > 0 && levels[i - 1].difficulty == suites[i - 1].difficulty
                            && levels[i - 1].difficulty !in Initial && |levels[i - 1].runs| == 1
                            && suites[i - 1].instructions != [] && !RanFully(suites[i - 1], levels[i - 1])
      invariant |AllRuns(levels)| == |done|
      invariant forall k :: 0 <= k < |done| ==> RanAt(AllRuns(levels), done, 0, worlds, latency, hasResults, k)
      invariant fs.artifacts == ArtifactsAfterAll(t, old(fs.artifacts), done, worlds)
      invariant fs.logs == LogsAfterAll(old(fs.logs), done, worlds)
      invariant fs.report == ReportAfter(old(fs.report), EntriesOf(t, testDir, old(fs.artifacts), done, worlds))
    {
      var suite := suites[i];
      var runs := RunSuite(fs, t, testDir, suite, old(fs.artifacts), old(fs.logs), old(fs.report), done, count, worlds, latency);
      var level := Level(suite.difficulty, runs);
      TakenStep(suites, levels, level);
      AllRunsStep(levels, level, done, suite.instructions, worlds, latency, hasResults);
      forall j | 0 <= j < i ensures RanFully(suites[j], (levels + [level])[j]) {
        assert (levels + [level])[j] == levels[j];
      }
      levels := levels + [level];
      done := done + suite.instructions[..|runs|];
      count := count + |runs|;
      stopped := suite.difficulty !in Initial && suite.instructions != [];
      i := i + 1;
    }
  }

  /** One suite of the evaluation: its instructions in order, each with the
      next world and latency after the `before` instructions already
      processed. A difficulty without a bucket raises right after its first
      instruction was processed. */
  method RunSuite(fs: FileSystem, t: Template, testDir: string, suite: Suite,
                  ghost artifacts: map<string, string>, ghost logs: map<string, string>, ghost report: ReportFile,
                  ghost before: seq<string>, offset: nat, worlds: nat -> World, latency: nat -> real)
    returns (runs: seq<Run>)
    modifies fs`artifacts, fs`logs, fs`report
    requires offset == |before|
    requires fs.artifacts == ArtifactsAfterAll(t, artifacts, before, worlds)
    requires fs.logs == LogsAfterAll(logs, before, worlds)
    requires fs.report == ReportAfter(report, EntriesOf(t, testDir, artifacts, before, worlds))
    ensures |runs| == if suite.difficulty !in Initial && suite.instructions != [] then 1 else |suite.instructions|
    ensures forall k :: 0 <= k < |runs| ==>
              RanAt(runs, suite.instructions, offset, worlds, latency, PriorResults(report).Some?, k)
    ensures var done := before + suite.instructions[..|runs|];
      fs.artifacts == ArtifactsAfterAll(t, artifacts, done, worlds)
      && fs.logs == LogsAfterAll(logs, done, worlds)
      && fs.report == ReportAfter(report, EntriesOf(t, testDir, artifacts, done, worlds))
  {
    runs := [];
    ghost var done := before;
    var j := 0;
    while j < |suite.instructions|
      invariant 0 <= j <= |suite.instructions| && |runs| == j
      invariant suite.difficulty !in Initial ==> j == 0
      invariant done == before + suite.instructions[..j]
      invariant forall k :: 0 <= k < j ==> RanAt(runs, suite.instructions, offset, worlds, latency, PriorResults(report).Some?, k)
      invariant fs.artifacts == ArtifactsAfterAll(t, artifacts, done, worlds)
      invariant fs.logs == LogsAfterAll(logs, done, worlds)
      invariant fs.report == ReportAfter(report, EntriesOf(t, testDir, artifacts, done, worlds))
    {
      TakeOneMore(before, suite.instructions, j);
      var run := EvaluateOne(fs, t, testDir, artifacts, logs, report, done, suite.instructions, runs, offset, worlds, latency);
      runs := runs + [run];
      done := done + [suite.instructions[j]];
      j := j + 1;
      if suite.difficulty !in Initial {
        break;
      }
    }
  }

  /** Taking one more instruction of a suite extends what was taken by it. */
  lemma TakeOneMore(before: seq<string>, instructions: seq<string>, j: nat)
    requires j < |instructions|
    ensures before + instructions[..j] + [instructions[j]] == before + instructions[..j + 1]
  {
    assert instructions[..j + 1] == instructions[..j] + [instructions[j]];
  }

  /** One more run that is what the next instruction came to keeps every
      run what its instruction came to. */
  lemma RanAtStep(runs: seq<Run>, run: Run, instructions: seq<string>, j: nat, offset: nat, worlds: nat -> World,
                  latency: nat -> real, hasResults: bool)
    requires |runs| == j < |instructions|
    requires forall k :: 0 <= k < j ==> RanAt(runs, instructions, offset, worlds, latency, hasResults, k)
    requires run == RunOf(instructions[j], worlds(offset + j), latency(offset + j), hasResults)
    ensures forall k :: 0 <= k <= j ==> RanAt(runs + [run], instructions, offset, worlds, latency, hasResults, k)
  {
    forall k | 0 <= k <= j
      ensures RanAt(runs + [run], instructions, offset, worlds, latency, hasResults, k)
    {
      if k < j {
        assert RanAt(runs, instructions, offset, worlds, latency, hasResults, k);
      }
    }
  }

  /** What the evaluation's levels come to: the tally completes exactly
      when every suite of the dataset has a known difficulty or no
      instructions. */
  lemma CollectedTallyOk(suites: seq<Suite>, levels: seq<Level>)
    requires Collected(suites, levels)
    ensures Tally(levels).Ok? <==>
              forall i :: 0 <= i < |suites| ==> suites[i].difficulty in Initial || suites[i].instructions == []
  {
    TallyOkIffKnown(levels);
    var n := |levels|;
    if forall i :: 0 <= i < |suites| ==> suites[i].difficulty in Initial || suites[i].instructions == [] {
      if n > 0 && !RanFully(suites[n - 1], levels[n - 1]) {
        assert false;
      }
      assert forall i :: 0 <= i < n ==> RanFully(suites[i], levels[i]);
    } else {
      var j :| 0 <= j < |suites| && suites[j].difficulty !in Initial && suites[j].instructions != [];
      if j < n - 1 {
        assert false;
      }
      assert n > 0 && !RanFully(suites[n - 1], levels[n - 1]);
      assert levels[n - 1].difficulty !in Initial && levels[n - 1].runs != [];
    }
  }

  /** A level whose runs are what the first instructions of its suite came
      to extends the runs of the levels before it. */
  lemma AllRunsStep(levels: seq<Level>, level: Level, done: seq<string>, instructions: seq<string>,
                    worlds: nat -> World, latency: nat -> real, hasResults: bool)
    requires |AllRuns(levels)| == |done| && |level.runs| <= |instructions|
    requires forall k :: 0 <= k < |done| ==> RanAt(AllRuns(levels), done, 0, worlds, latency, hasResults, k)
    requires forall k :: 0 <= k < |level.runs| ==> RanAt(level.runs, instructions, |done|, worlds, latency, hasResults, k)
    ensures |AllRuns(levels + [level])| == |done + instructions[..|level.runs|]|
    ensures forall k :: 0 <= k < |done| + |level.runs| ==>
              RanAt(AllRuns(levels + [level]), done + instructions[..|level.runs|], 0, worlds, latency, hasResults, k)
  {
    assert (levels + [level])[..|levels|] == levels;
    var n := |done|;
    forall k | 0 <= k < n + |level.runs|
      ensures RanAt(AllRuns(levels + [level]), done + instructions[..|level.runs|], 0, worlds, latency, hasResults, k)
    {
      if k >= n {
        assert RanAt(level.runs, instructions, n, worlds, latency, hasResults, k - n);
        assert AllRuns(levels + [level])[k] == level.runs[k - n];
      } else {
        assert RanAt(AllRuns(levels), done, 0, worlds, latency, hasResults, k);
        assert AllRuns(levels + [level])[k] == AllRuns(levels)[k];
      }
    }
  }

  /** The levels and the instructions taken grow together, one level at a
      time. */
  lemma TakenStep(suites: seq<Suite>, levels: seq<Level>, level: Level)
    ensures Taken(suites, levels + [level]) == Taken(suites, levels) + TakenFrom(suites, |levels|, |level.runs|)
    ensures AllRuns(levels + [level]) == AllRuns(levels) + level.runs
  {
    assert (levels + [level])[..|levels|] == levels;
  }

  /** One timed call of process_instruction inside the evaluation: the next
      instruction of a suite, after the `runs` of the ones before it, with
      the world and latency of its place `offset + |runs|` in the whole
      evaluation. The run it counts as joins the runs, and the files are
      those of the instructions `done` before it and of this one. */
  method EvaluateOne(fs: FileSystem, t: Template, testDir: string,
                     ghost artifacts: map<string, string>, ghost logs: map<string, string>, ghost report: ReportFile,
                     ghost done: seq<string>, instructions: seq<string>, runs: seq<Run>, offset: nat,
                     worlds: nat -> World, latency: nat -> real)
    returns (run: Run)
    modifies fs`artifacts, fs`logs, fs`report
    requires |runs| < |instructions| && offset + |runs| == |done|
    requires forall k :: 0 <= k < |runs| ==> RanAt(runs, instructions, offset, worlds, latency, PriorResults(report).Some?, k)
    requires fs.artifacts == ArtifactsAfterAll(t, artifacts, done, worlds)
    requires fs.logs == LogsAfterAll(logs, done, worlds)
    requires fs.report == ReportAfter(report, EntriesOf(t, testDir, artifacts, done, worlds))
    ensures forall k :: 0 <= k <= |runs| ==> RanAt(runs + [run], instructions, offset, worlds, latency, PriorResults(report).Some?, k)
    ensures fs.artifacts == ArtifactsAfterAll(t, artifacts, done + [instructions[|runs|]], worlds)
    ensures fs.logs == LogsAfterAll(logs, done + [instructions[|runs|]], worlds)
    ensures fs.report == ReportAfter(report, EntriesOf(t, testDir, artifacts, done + [instructions[|runs|]], worlds))
  {
    var j := |runs|;
    var instruction := instructions[j];
    var index := offset + j;
    AfterAllStep(t, testDir, artifacts, logs, done, instruction, worlds);
    ReportStep(t, testDir, artifacts, report, done, instruction, worlds);
    var entry := ProcessInstruction(fs, t, testDir, instruction, worlds(index));
    if entry.Err? {
      run := Run.Raised(latency(index));
    } else {
      EntryOfFields(t, testDir, ArtifactsAfterAll(t, artifacts, done, worlds), instruction, worlds(index));
      run := Returned(entry.value["status"], latency(index));
    }
    RanAtStep(runs, run, instructions, j, offset, worlds, latency, PriorResults(report).Some?);
  }

  /** What one invocation of the command line did. */
  datatype Ran =
    | RanEvaluation(levels: seq<Level>, buckets: map<string, Counters>)
    | RanBatch(entries: seq<Entry>, workbook: Option<Workbook>)
    | RanSingle(entry: Entry)
    | ShowedHelp

  /** The `--eval` branch of main: run_evaluation over the dataset. Every
      instruction taken is passed to process_instruction; the first level
      whose difficulty has no bucket raises, which ends the evaluation. */
  method EvaluationMode(fs: FileSystem, t: Template, testDir: string, dataset: seq<Suite>,
                        worlds: nat -> World, latency: nat -> real)
    returns (r: Result<Ran>, ghost levels: seq<Level>, ghost taken: seq<string>)
    modifies fs`artifacts, fs`logs, fs`report
    ensures fs.artifacts == ArtifactsAfterAll(t, old(fs.artifacts), taken, worlds)
    ensures fs.logs == LogsAfterAll(old(fs.logs), taken, worlds)
    ensures fs.report == ReportAfter(old(fs.report), EntriesOf(t, testDir, old(fs.artifacts), taken, worlds))
    ensures Collected(dataset, levels) && taken == Taken(dataset, levels) && |AllRuns(levels)| == |taken|
    ensures forall k :: 0 <= k < |taken| ==>
              RanAt(AllRuns(levels), taken, 0, worlds, latency, PriorResults(old(fs.report)).Some?, k)
    ensures r == (if Tally(levels).Ok? then Ok(RanEvaluation(levels, Tally(levels).value)) else Err(Tally(levels).error))
    ensures r.Ok? <==> forall i :: 0 <= i < |dataset| ==> dataset[i].difficulty in Initial || dataset[i].instructions == []
  {
    var collected;
    collected, taken := CollectRuns(fs, t, testDir, dataset, worlds, latency);
    levels := collected;
    var buckets := RunEvaluation(collected);
    CollectedTallyOk(dataset, collected);
    if buckets.Err? {
      return Err(buckets.error), levels, taken;
    }
    return Ok(RanEvaluation(collected, buckets.value)), levels, taken;
  }

  /** The `--file` branch of main: the file's lines, or a FileNotFoundError
      when it cannot be opened, before anything runs. */
  method BatchMode(fs: FileSystem, t: Template, testDir: string, reportsDir: string,
                   batchFile: Option<seq<string>>, worlds: nat -> World, now: string)
    returns (r: Result<Ran>, ghost taken: seq<string>)
    modifies fs`artifacts, fs`logs, fs`report
    ensures fs.artifacts == ArtifactsAfterAll(t, old(fs.artifacts), taken, worlds)
    ensures fs.logs == LogsAfterAll(old(fs.logs), taken, worlds)
    ensures fs.report == ReportAfter(old(fs.report), EntriesOf(t, testDir, old(fs.artifacts), taken, worlds))
    ensures batchFile.None? ==> r == Err("FileNotFoundError") && taken == []
    ensures batchFile.Some? ==>
              var instructions := BatchInstructions(batchFile.value);
              (r.Ok? <==> (instructions == [] || PriorResults(old(fs.report)).Some?)
                          && forall i :: 0 <= i < |instructions| ==> CompleteAt(instructions, worlds, i))
              && (r.Ok? ==> taken == instructions && r.value.RanBatch?
                            && r.value.entries == EntriesOf(t, testDir, old(fs.artifacts), instructions, worlds)
                            && (r.value.workbook.None? <==> r.value.entries == [])
                            && (r.value.workbook.Some? ==> LaidOut(r.value.workbook.value.cells, r.value.entries)))
              && (r.Err? ==> 0 < |taken| <= |instructions| && taken == instructions[..|taken|]
                             && Stopped(instructions, worlds, PriorResults(old(fs.report)).Some?, |taken| - 1))
  {
    if batchFile.None? {
      return Err("FileNotFoundError"), [];
    }
    var batch;
    batch, taken := RunBatch(fs, t, testDir, reportsDir, batchFile.value, worlds, now);
    if batch.Err? {
      return Err(batch.error), taken;
    }
    return Ok(RanBatch(batch.value.0, batch.value.1)), taken;
  }

  /** The single-instruction branch of main: one call of
      process_instruction, with the first world. */
  method SingleMode(fs: FileSystem, t: Template, testDir: string, instruction: string, worlds: nat -> World)
    returns (r: Result<Ran>, ghost taken: seq<string>)
    modifies fs`artifacts, fs`logs, fs`report
    ensures fs.artifacts == ArtifactsAfterAll(t, old(fs.artifacts), taken, worlds)
    ensures fs.logs == LogsAfterAll(old(fs.logs), taken, worlds)
    ensures fs.report == ReportAfter(old(fs.report), EntriesOf(t, testDir, old(fs.artifacts), taken, worlds))
    ensures var p := ParseOf(instruction, worlds(0));
      taken == [instruction]
      && fs.artifacts == Generated(t, old(fs.artifacts), p, worlds(0).generatedAt)
      && fs.logs == Logged(old(fs.logs), p, worlds(0))
      && (r.Ok? <==> Complete(p) && PriorResults(old(fs.report)).Some?)
      && (r.Ok? ==> r == Ok(RanSingle(EntryOf(t, testDir, old(fs.artifacts), instruction, worlds(0))))
                    && fs.report == Decoded(Some(PriorResults(old(fs.report)).value + [r.value.entry])))
      && (r.Err? ==> fs.report == old(fs.report)
                     && r.error == (if p.testName.None? then "'test_name'" else if p.steps.None? then "'steps'"
                                    else if p.objective.None? then "'objective'" else "'results'"))
  {
    OneInstruction(t, testDir, old(fs.artifacts), old(fs.logs), old(fs.report), instruction, worlds);
    taken := [instruction];
    var entry := ProcessInstruction(fs, t, testDir, instruction, worlds(0));
    if entry.Err? {
      return Err(entry.error), taken;
    }
    return Ok(RanSingle(entry.value)), taken;
  }

  /** A run of one instruction leaves what that instruction's pass leaves:
      the generated file, the log, and the entry appended when it was built
      and the report has a results list. */
  lemma OneInstruction(t: Template, testDir: string, artifacts: map<string, string>, logs: map<string, string>,
                       report: ReportFile, x: string, worlds: nat -> World)
    ensures var p := ParseOf(x, worlds(0));
      ArtifactsAfterAll(t, artifacts, [x], worlds) == Generated(t, artifacts, p, worlds(0).generatedAt)
      && LogsAfterAll(logs, [x], worlds) == Logged(logs, p, worlds(0))
      && ReportAfter(report, EntriesOf(t, testDir, artifacts, [x], worlds))
         == if Complete(p) && PriorResults(report).Some?
            then Decoded(Some(PriorResults(report).value + [EntryOf(t, testDir, artifacts, x, worlds(0))]))
            else report
  {
    assert [x][..0] == [];
    if Complete(ParseOf(x, worlds(0))) {
      assert EntriesOf(t, testDir, artifacts, [x], worlds) == [EntryOf(t, testDir, artifacts, x, worlds(0))];
    } else {
      assert EntriesOf(t, testDir, artifacts, [x], worlds) == [];
    }
  }

  /** The entry point: dispatch on the command line, in main's order.
      `batchFile` holds the lines of the `--file` argument, or None when it
      cannot be opened; `dataset` is the evaluation dataset and `latency(k)`
      the seconds the k-th evaluated instruction took. `taken` is the
      instructions process_instruction was called on, in order, and
      `levels` the evaluation's levels: whichever mode ran and however it
      ended, the directories and the report are what those calls left. */
  method RunCommandLine(fs: FileSystem, testDir: string, reportsDir: string, args: Args,
                        batchFile: Option<seq<string>>, worlds: nat -> World,
                        dataset: seq<Suite>, latency: nat -> real, now: string)
    returns (r: Result<Ran>, ghost levels: seq<Level>, ghost taken: seq<string>)
    modifies fs`artifacts, fs`logs, fs`report
    ensures fs.artifacts == ArtifactsAfterAll(GeneratedFile, old(fs.artifacts), taken, worlds)
    ensures fs.logs == LogsAfterAll(old(fs.logs), taken, worlds)
    ensures fs.report == ReportAfter(old(fs.report), EntriesOf(GeneratedFile, testDir, old(fs.artifacts), taken, worlds))
    ensures SelectMode(args) == Evaluate ==>
              Collected(dataset, levels) && taken == Taken(dataset, levels) && |AllRuns(levels)| == |taken|
              && (forall k :: 0 <= k < |taken| ==>
                    RanAt(AllRuns(levels), taken, 0, worlds, latency, PriorResults(old(fs.report)).Some?, k))
              && r == (if Tally(levels).Ok? then Ok(RanEvaluation(levels, Tally(levels).value)) else Err(Tally(levels).error))
              && (r.Ok? <==> forall i :: 0 <= i < |dataset| ==> dataset[i].difficulty in Initial || dataset[i].instructions == [])
    ensures SelectMode(args).Batch? ==>
              if batchFile.None? then r == Err("FileNotFoundError") && taken == []
              else
                var instructions := BatchInstructions(batchFile.value);
                (r.Ok? <==> (instructions == [] || PriorResults(old(fs.report)).Some?)
                            && forall i :: 0 <= i < |instructions| ==> CompleteAt(instructions, worlds, i))
                && (r.Ok? ==> taken == instructions && r.value.RanBatch?
                              && r.value.entries == EntriesOf(GeneratedFile, testDir, old(fs.artifacts), instructions, worlds)
                              && (r.value.workbook.None? <==> r.value.entries == [])
                              && (r.value.workbook.Some? ==> LaidOut(r.value.workbook.value.cells, r.value.entries)))
                && (r.Err? ==> 0 < |taken| <= |instructions| && taken == instructions[..|taken|]
                               && Stopped(instructions, worlds, PriorResults(old(fs.report)).Some?, |taken| - 1))
    ensures SelectMode(args).Single? ==>
              var instruction := SelectMode(args).instruction; var p := ParseOf(instruction, worlds(0));
              taken == [instruction]
              && fs.artifacts == Generated(GeneratedFile, old(fs.artifacts), p, worlds(0).generatedAt)
              && fs.logs == Logged(old(fs.logs), p, worlds(0))
              && (r.Ok? <==> Complete(p) && PriorResults(old(fs.report)).Some?)
              && (r.Ok? ==> r == Ok(RanSingle(EntryOf(GeneratedFile, testDir, old(fs.artifacts), instruction, worlds(0))))
                            && fs.report == Decoded(Some(PriorResults(old(fs.report)).value + [r.value.entry])))
              && (r.Err? ==> fs.report == old(fs.report)
                             && r.error == (if p.testName.None? then "'test_name'" else if p.steps.None? then "'steps'"
                                            else if p.objective.None? then "'objective'" else "'results'"))
    ensures SelectMode(args) == Help ==> r == Ok(ShowedHelp) && taken == []
  {
    levels := [];
    match SelectMode(args)
    case Evaluate =>
      r, levels, taken := EvaluationMode(fs, GeneratedFile, testDir, dataset, worlds, latency);
    case Batch(_) =>
      r, taken := BatchMode(fs, GeneratedFile, testDir, reportsDir, batchFile, worlds, now);
    case Single(instruction) =>
      r, taken := SingleMode(fs, GeneratedFile, testDir, instruction, worlds);
    case Help =>
      r, taken := Ok(ShowedHelp), [];
  }
}
