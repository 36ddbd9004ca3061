/** The test executor: finds the newest generated file of a test, runs it,
    logs what it printed and classifies the run. */
module TestExecutor {
  import opened Results
  import opened Strings
  import opened Workspace
  import opened TestGenerator

  /** What running the generated file with a five-minute timeout produced. */
  datatype Outcome =
    | Completed(returnCode: int, stdout: string, stderr: string)
    | TimedOut                  // subprocess.TimeoutExpired
    | Raised(message: string)   // any other exception, as str(e)

  datatype Status = Pass | Fail | Timeout | Error

  function StatusName(s: Status): string {
    match s
    case Pass => "PASS"
    case Fail => "FAIL"
    case Timeout => "TIMEOUT"
    case Error => "ERROR"
  }

  /** The four values execute_test returns. */
  datatype ExecResult = ExecResult(status: Status, output: string, testFile: string, screenshot: string)

  const NotFoundMessage: string := "Test file not found"
  const TimeoutMessage: string := "Test execution timed out after 5 minutes"

  // ---------------------------------------------------------------------------
  // Choosing the file to run

  /** The names in the test-case directory that start with `test_<normalized name>`. */
  function Candidates(files: set<string>, testName: string): set<string> {
    set f | f in files && ArtifactPrefix(NormalizeName(testName)) <= f
  }

  /** m is a greatest element of c in Python's string order. */
  ghost predicate IsLatest(c: set<string>, m: string) {
    m in c && forall x :: x in c ==> LexLeq(x, m)
  }

  lemma LatestExists(c: set<string>)
    requires c != {}
    ensures exists m :: IsLatest(c, m)
  {
    var x :| x in c;
    if c == {x} {
      LexLeqReflexive(x);
      assert IsLatest(c, x);
    } else {
      LatestExists(c - {x});
      var r :| IsLatest(c - {x}, r);
      LexLeqTotal(x, r);
      if LexLeq(x, r) {
        assert IsLatest(c, r);
      } else {
        LexLeqReflexive(x);
        forall y | y in c
          ensures LexLeq(y, x)
        {
          if y != x {
            LexLeqTransitive(y, r, x);
          }
        }
        assert IsLatest(c, x);
      }
    }
  }

  /** A set of names has one greatest name. */
  lemma LatestUnique(c: set<string>, m1: string, m2: string)
    requires IsLatest(c, m1) && IsLatest(c, m2)
    ensures m1 == m2
  {
    LexLeqAntisymmetric(m1, m2);
  }

  /** The greatest name of a non-empty set. */
  ghost function Latest(c: set<string>): (m: string)
    requires c != {}
    ensures m in c && forall x :: x in c ==> LexLeq(x, m)
  {
    LatestExists(c);
    var m :| IsLatest(c, m);
    m
  }

  /** Puts x in front of the first element that is not above it. */
  function Insert(x: string, ys: seq<string>): seq<string> {
    if ys == [] || LexLeq(ys[0], x) then [x] + ys else [ys[0]] + Insert(x, ys[1..])
  }

  /** list.sort(reverse=True) on names: greatest first. */
  function SortDescending(xs: seq<string>): seq<string> {
    if xs == [] then [] else Insert(xs[0], SortDescending(xs[1..]))
  }

  /** Each name is at most the one before it. */
  predicate Descending(s: seq<string>) {
    forall i :: 0 < i < |s| ==> LexLeq(s[i], s[i - 1])
  }

  lemma {:induction false} InsertHead(x: string, ys: seq<string>)
    ensures Insert(x, ys) != [] && (Insert(x, ys)[0] == x || (ys != [] && Insert(x, ys)[0] == ys[0]))
  {
  }

  lemma {:induction false} InsertKeepsOrder(x: string, ys: seq<string>)
    requires Descending(ys)
    ensures Descending(Insert(x, ys))
    decreases |ys|
  {
    if ys != [] && !LexLeq(ys[0], x) {
      var tail := ys[1..];
      InsertKeepsOrder(x, tail);
      InsertHead(x, tail);
      LexLeqTotal(x, ys[0]);
      var r := Insert(x, ys);
      assert r == [ys[0]] + Insert(x, tail);
      assert LexLeq(r[1], r[0]);
    }
  }

  lemma {:induction false} InsertPermutes(x: string, ys: seq<string>)
    ensures multiset(Insert(x, ys)) == multiset(ys) + multiset{x}
    decreases |ys|
  {
    if ys != [] && !LexLeq(ys[0], x) {
      InsertPermutes(x, ys[1..]);
      assert ys == [ys[0]] + ys[1..];
    }
  }

  /** Sorting yields the same names, each at most the one before it. */
  lemma {:induction false} SortDescendingCorrect(xs: seq<string>)
    ensures Descending(SortDescending(xs))
    ensures multiset(SortDescending(xs)) == multiset(xs)
  {
    if xs != [] {
      SortDescendingCorrect(xs[1..]);
      InsertKeepsOrder(xs[0], SortDescending(xs[1..]));
      InsertPermutes(xs[0], SortDescending(xs[1..]));
      assert xs == [xs[0]] + xs[1..];
    }
  }

  /** In a descending list the first name is at least every other. */
  lemma {:induction false} DescendingHeadGreatest(s: seq<string>, k: nat)
    requires Descending(s) && k < |s|
    ensures LexLeq(s[k], s[0])
  {
    if k == 0 {
      LexLeqReflexive(s[0]);
    } else {
      DescendingHeadGreatest(s, k - 1);
      LexLeqTransitive(s[k], s[k - 1], s[0]);
    }
  }

  /** The first name after sorting is the greatest name of the list, whatever
      order the list came in. */
  lemma SortedHeadIsLatest(xs: seq<string>)
    requires xs != []
    ensures SortDescending(xs) != [] && IsLatest((set x | x in xs), SortDescending(xs)[0])
  {
    var s := SortDescending(xs);
    SortDescendingCorrect(xs);
    assert |s| == |xs| by {
      assert |multiset(s)| == |multiset(xs)|;
    }
    forall x | x in xs
      ensures LexLeq(x, s[0])
    {
      assert x in multiset(s);
      var k :| 0 <= k < |s| && s[k] == x;
      DescendingHeadGreatest(s, k);
    }
    assert s[0] in multiset(xs);
  }

  // ---------------------------------------------------------------------------
  // Reading the screenshot path out of the output

  /** The literal part of the pattern `Screenshot saved to:\s*(.+)`. */
  const Marker: string := "Screenshot saved to:"

  /** The length of the whitespace run that opens s: what a greedy `\s*` takes. */
  function SpaceRun(s: string): nat {
    if s != [] && IsSpace(s[0]) then 1 + SpaceRun(s[1..]) else 0
  }

  lemma {:induction false} SpaceRunBound(s: string)
    ensures SpaceRun(s) <= |s|
  {
    if s != [] && IsSpace(s[0]) {
      SpaceRunBound(s[1..]);
    }
  }

  /** The first line feed at or after j, or the end: where a greedy `.+` stops. */
  function LineEnd(s: string, j: nat): nat
    requires j <= |s|
    decreases |s| - j
  {
    if j == |s| || s[j] == '\n' then j else LineEnd(s, j + 1)
  }

  lemma {:induction false} LineEndBound(s: string, j: nat)
    requires j <= |s|
    ensures j <= LineEnd(s, j) <= |s|
    decreases |s| - j
  {
    if j < |s| && s[j] != '\n' {
      LineEndBound(s, j + 1);
    }
  }

  /** Where `(.+)` starts once `\s*` has given back what it must: the last
      position at or before w that holds a character other than a line feed. */
  function GroupStart(s: string, w: nat): (r: Option<nat>)
    requires w <= |s|
    ensures r.Some? ==> r.value <= w && r.value < |s| && s[r.value] != '\n'
  {
    if w < |s| && s[w] != '\n' then Some(w)
    else if w == 0 then None
    else GroupStart(s, w - 1)
  }

  /** The text `\s*(.+)` captures when matched at the start of s, if it matches there. */
  function GroupAt(s: string): Option<string> {
    SpaceRunBound(s);
    match GroupStart(s, SpaceRun(s))
    case None => None
    case Some(j) =>
      LineEndBound(s, j);
      Some(s[j..LineEnd(s, j)])
  }

  /** re.search: the capture of the leftmost position where the whole pattern matches. */
  function Search(s: string): Option<string>
    decreases |s|
  {
    if Marker <= s && GroupAt(s[|Marker|..]).Some? then GroupAt(s[|Marker|..])
    else if s == [] then None
    else Search(s[1..])
  }

  /** The screenshot path execute_test reports: the stripped capture, or "". */
  function ScreenshotPath(output: string): string {
    match Search(output)
    case None => ""
    case Some(g) => Strip(g)
  }

  /** The line a generated test prints after saving its failure screenshot. */
  function ScreenshotLine(path: string): string {
    Marker + " " + path + "\n"
  }

  /** Output without the marker reports no screenshot. */
  lemma {:induction false} NoMarkerNoScreenshot(output: string)
    requires !Contains(output, Marker)
    ensures ScreenshotPath(output) == ""
  {
    NoMarkerNoMatch(output);
  }

  lemma {:induction false} NoMarkerNoMatch(s: string)
    requires !Contains(s, Marker)
    ensures Search(s) == None
    decreases |s|
  {
    if s != [] {
      NoMarkerNoMatch(s[1..]);
    }
  }

  /** No occurrence of the marker starts inside pre. */
  ghost predicate NoMarkerStartsIn(pre: string, x: string) {
    forall i :: 0 <= i < |pre| ==> !(Marker <= (pre + x)[i..])
  }

  lemma {:induction false} SearchSkips(pre: string, x: string)
    requires NoMarkerStartsIn(pre, x)
    ensures Search(pre + x) == Search(x)
    decreases |pre|
  {
    if pre != [] {
      var s := pre + x;
      assert !(Marker <= s[0..]);
      assert s[0..] == s;
      var rest := pre[1..];
      assert s[1..] == rest + x;
      forall i | 0 <= i < |rest|
        ensures !(Marker <= (rest + x)[i..])
      {
        assert (rest + x)[i..] == s[i + 1..];
      }
      SearchSkips(rest, x);
    } else {
      assert pre + x == x;
    }
  }

  lemma MarkerInitialOnce()
    ensures Marker[0] == 'S' && forall k :: 0 < k < |Marker| ==> Marker[k] != 'S'
  {
  }

  /** The marker's first character occurs in it only once, so an occurrence
      that starts before a marker cannot run into it. */
  lemma MarkerStartsAlone(pre: string, x: string)
    requires !Contains(pre, Marker) && Marker <= x
    ensures NoMarkerStartsIn(pre, x)
  {
    var s := pre + x;
    MarkerInitialOnce();
    forall i | 0 <= i < |pre|
      ensures !(Marker <= s[i..])
    {
      if i + |Marker| <= |pre| {
        if Marker <= s[i..] {
          assert pre[i..i + |Marker|] == s[i..i + |Marker|];
          ContainsAt(pre, Marker, i);
        }
      } else {
        var k := |pre| - i;
        assert s[i..][k] == x[0] == 'S';
      }
    }
  }

  lemma {:induction false} LineEndAt(s: string, j: nat, k: nat)
    requires j <= k < |s| && s[k] == '\n'
    requires forall m :: j <= m < k ==> s[m] != '\n'
    ensures LineEnd(s, j) == k
    decreases k - j
  {
    if j < k {
      LineEndAt(s, j + 1, k);
    }
  }

  /** Right after the marker, the printed line yields the path as the capture. */
  lemma GroupAtPrintedPath(path: string, rest: string)
    requires path != [] && !IsSpace(path[0])
    requires forall m :: 0 <= m < |path| ==> path[m] != '\n'
    ensures GroupAt(" " + path + "\n" + rest) == Some(path)
  {
    var after := " " + path + "\n" + rest;
    assert after[1..] == path + "\n" + rest;
    assert SpaceRun(after[1..]) == 0;
    assert SpaceRun(after) == 1;
    assert after[|path| + 1] == '\n';
    LineEndAt(after, 1, |path| + 1);
    assert after[1..|path| + 1] == path;
  }

  /** What the executor reads back from the output is the path the generated
      test printed, whatever came before the first marker or after the line. */
  lemma ScreenshotRoundTrip(pre: string, path: string, rest: string)
    requires !Contains(pre, Marker)
    requires path != [] && !IsSpace(path[0]) && !IsSpace(path[|path| - 1])
    requires forall m :: 0 <= m < |path| ==> path[m] != '\n'
    ensures ScreenshotPath(pre + ScreenshotLine(path) + rest) == path
  {
    ScreenshotLineSplits(pre, path, rest);
    SearchFindsPrinted(pre, path, rest);
    StripFramed([], path, []);
    assert [] + path + [] == path;
  }

  lemma ScreenshotLineSplits(pre: string, path: string, rest: string)
    ensures pre + ScreenshotLine(path) + rest == pre + (Marker + (" " + path + "\n" + rest))
  {
    assert ScreenshotLine(path) + rest == Marker + (" " + path + "\n" + rest);
  }

  /** The search skips the marker-free text before the printed line and
      captures the printed path. */
  lemma SearchFindsPrinted(pre: string, path: string, rest: string)
    requires !Contains(pre, Marker)
    requires path != [] && !IsSpace(path[0])
    requires forall m :: 0 <= m < |path| ==> path[m] != '\n'
    ensures Search(pre + (Marker + (" " + path + "\n" + rest))) == Some(path)
  {
    var after := " " + path + "\n" + rest;
    MarkerStartsAlone(pre, Marker + after);
    SearchSkips(pre, Marker + after);
    GroupAtPrintedPath(path, rest);
    SearchAtMarker(after);
  }

  /** Output that opens with the marker is matched right there when the
      capture group matches what follows it. */
  lemma SearchAtMarker(after: string)
    requires GroupAt(after).Some?
    ensures Search(Marker + after) == GroupAt(after)
  {
    assert (Marker + after)[|Marker|..] == after;
  }

  // ---------------------------------------------------------------------------
  // Running the file

  /** What execute_test returns for a test name, given the test-case directory's
      file names and what running the chosen file produced. */
  ghost function Execute(dir: string, files: set<string>, testName: string, outcome: Outcome): ExecResult {
    var c := Candidates(files, testName);
    if c == {} then ExecResult(Error, NotFoundMessage, "", "")
    else
      var testFile := PathJoin(dir, Latest(c));
      match outcome
      case Completed(code, out, err) =>
        var output := if err != "" then err else out;
        ExecResult(if code == 0 then Pass else Fail, output, testFile, ScreenshotPath(output))
      case TimedOut => ExecResult(Timeout, TimeoutMessage, testFile, "")
      case Raised(message) => ExecResult(Error, "Error executing test: " + message, testFile, "")
  }

  /** The log file name: the test name as given, not normalized. */
  function LogFileName(testName: string, now: string): string {
    "test_" + testName + "_" + now + ".log"
  }

  function LogText(stdout: string, stderr: string): string {
    "STDOUT:\n" + stdout + "\nSTDERR:\n" + stderr
  }

  /** execute_test: picks the greatest matching file name, runs it (the run's
      outcome is given), and writes a log when the run completes. `now` is the
      `%Y%m%d_%H%M%S` timestamp of the call. */
  method ExecuteTest(fs: FileSystem, dir: string, testName: string, outcome: Outcome, now: string)
    returns (r: ExecResult)
    modifies fs`logs
    ensures r == Execute(dir, fs.artifacts.Keys, testName, outcome)
    ensures Candidates(fs.artifacts.Keys, testName) != {} && outcome.Completed? ==>
              fs.logs == old(fs.logs)[LogFileName(testName, now) := LogText(outcome.stdout, outcome.stderr)]
    ensures Candidates(fs.artifacts.Keys, testName) == {} || !outcome.Completed? ==>
              fs.logs == old(fs.logs)
  {
    var names := fs.ListArtifacts();
    var prefix := ArtifactPrefix(NormalizeName(testName));
    var testFiles: seq<string> := [];
    var i := 0;
    while i < |names|
      invariant 0 <= i <= |names|
      invariant forall f :: f in testFiles <==> f in names[..i] && prefix <= f
    {
      if prefix <= names[i] {
        testFiles := testFiles + [names[i]];
      }
      i := i + 1;
    }
    assert names[..i] == names;
    ghost var c := Candidates(fs.artifacts.Keys, testName);
    assert c == set f | f in testFiles;
    if testFiles == [] {
      assert c == {};
      return ExecResult(Error, NotFoundMessage, "", "");
    }
    assert testFiles[0] in c;
    var sorted := SortDescending(testFiles);
    SortedHeadIsLatest(testFiles);
    LatestUnique(c, sorted[0], Latest(c));
    var testFile := PathJoin(dir, sorted[0]);
    match outcome {
      case Completed(code, out, err) =>
        fs.logs := fs.logs[LogFileName(testName, now) := LogText(out, err)];
        var status := if code == 0 then Pass else Fail;
        var output := if err != "" then err else out;
        r := ExecResult(status, output, testFile, ScreenshotPath(output));
      case TimedOut =>
        r := ExecResult(Timeout, TimeoutMessage, testFile, "");
      case Raised(message) =>
        r := ExecResult(Error, "Error executing test: " + message, testFile, "");
    }
  }

  // ---------------------------------------------------------------------------
  // Properties of a run

  /** The result names no file exactly when no file name starts with
      `test_<normalized name>`, and then it is the not-found error. */
  lemma NotFoundIffNoCandidate(dir: string, files: set<string>, testName: string, outcome: Outcome)
    ensures Execute(dir, files, testName, outcome).testFile == "" <==> Candidates(files, testName) == {}
    ensures Candidates(files, testName) == {} ==>
              Execute(dir, files, testName, outcome) == ExecResult(Error, NotFoundMessage, "", "")
  {
    var c := Candidates(files, testName);
    if c != {} {
      var m := Latest(c);
      assert ArtifactPrefix(NormalizeName(testName)) <= m;
      assert m[0] == 't';
    }
  }

  /** PASS exactly when a file was found, it ran to completion and returned 0;
      FAIL exactly when it ran to completion with another return code. */
  lemma StatusFollowsReturnCode(dir: string, files: set<string>, testName: string, outcome: Outcome)
    ensures var r := Execute(dir, files, testName, outcome);
      var ran := Candidates(files, testName) != {} && outcome.Completed?;
      (r.status == Pass <==> ran && outcome.returnCode == 0)
      && (r.status == Fail <==> ran && outcome.returnCode != 0)
      && (r.status == Timeout <==> Candidates(files, testName) != {} && outcome.TimedOut?)
  {
  }

  /** The status of a run whose file was found: PASS or FAIL by the return
      code of a completed run, TIMEOUT when it expired, ERROR when starting it
      raised. */
  function OutcomeStatus(outcome: Outcome): Status {
    match outcome
    case Completed(code, _, _) => if code == 0 then Pass else Fail
    case TimedOut => Timeout
    case Raised(_) => Error
  }

  /** Once a file is found, the status depends on the outcome alone, not on
      which file was chosen; with no file it is the not-found ERROR. */
  lemma FoundStatus(dir: string, files: set<string>, testName: string, outcome: Outcome)
    ensures Candidates(files, testName) != {} ==>
              Execute(dir, files, testName, outcome).status == OutcomeStatus(outcome)
    ensures Candidates(files, testName) == {} ==> Execute(dir, files, testName, outcome).status == Error
  {
  }

  /** When the run wrote anything to stderr, the output is stderr alone, so a
      screenshot line printed on stdout is not found. */
  lemma StderrHidesScreenshot(dir: string, files: set<string>, testName: string,
                              code: int, out: string, err: string)
    requires Candidates(files, testName) != {}
    requires err != "" && !Contains(err, Marker)
    ensures Execute(dir, files, testName, Completed(code, out, err)).output == err
    ensures Execute(dir, files, testName, Completed(code, out, err)).screenshot == ""
  {
    NoMarkerNoScreenshot(err);
  }

  /** With nothing on stderr, the screenshot path a failed generated test
      printed on stdout is the one reported. */
  lemma FailureScreenshotReported(dir: string, files: set<string>, testName: string,
                                  code: int, pre: string, path: string, rest: string)
    requires Candidates(files, testName) != {}
    requires !Contains(pre, Marker)
    requires path != [] && !IsSpace(path[0]) && !IsSpace(path[|path| - 1])
    requires forall m :: 0 <= m < |path| ==> path[m] != '\n'
    ensures Execute(dir, files, testName, Completed(code, pre + ScreenshotLine(path) + rest, "")).screenshot == path
  {
    ScreenshotRoundTrip(pre, path, rest);
  }

  /** A file the generator wrote for this test name is a candidate, so the
      file is found and the one run is no smaller than it. */
  lemma GeneratedFileIsCandidate(files: set<string>, testName: string, timestamp: string)
    requires ArtifactFileName(NormalizeName(testName), timestamp) in files
    ensures Candidates(files, testName) != {}
    ensures LexLeq(ArtifactFileName(NormalizeName(testName), timestamp), Latest(Candidates(files, testName)))
  {
    var n := NormalizeName(testName);
    var f := ArtifactFileName(n, timestamp);
    assert f == ArtifactPrefix(n) + ("_" + timestamp + ".py");
    assert f in Candidates(files, testName);
  }

  /** When the directory holds only this test's files, with timestamps of one
      length, the file of the greatest timestamp is run. */
  lemma NewestTimestampRuns(testName: string, stamps: set<string>, len: nat)
    requires stamps != {} && forall t :: t in stamps ==> |t| == len
    ensures var n := NormalizeName(testName);
      var files := set t | t in stamps :: ArtifactFileName(n, t);
      Candidates(files, testName) != {}
      && Latest(Candidates(files, testName)) == ArtifactFileName(n, Latest(stamps))
  {
    var n := NormalizeName(testName);
    var files := set t | t in stamps :: ArtifactFileName(n, t);
    var c := Candidates(files, testName);
    forall t | t in stamps
      ensures ArtifactFileName(n, t) in c
    {
      assert ArtifactFileName(n, t) == ArtifactPrefix(n) + ("_" + t + ".py");
    }
    var top := Latest(stamps);
    var m := ArtifactFileName(n, top);
    forall f | f in c
      ensures LexLeq(f, m)
    {
      var t :| t in stamps && f == ArtifactFileName(n, t);
      ArtifactFileNamesOrdered(n, t, top);
    }
    assert IsLatest(c, m);
    LatestUnique(c, m, Latest(c));
  }

  /** The prefix test does not stop at the end of the name: a file of the
      test `<name> <other>` also starts with `test_<name>`. When `other`
      begins with a character above the first of this test's own timestamp
      (any letter against a digit), that other test's file is the one run,
      whatever the two timestamps. */
  lemma PrefixOverlapRunsOtherTest(testName: string, other: string, own: string, theirs: string)
    requires own != [] && other != [] && own[0] < other[0]
    ensures var n := NormalizeName(testName);
      var files := {ArtifactFileName(n, own), ArtifactFileName(n + "_" + other, theirs)};
      Candidates(files, testName) != {}
      && Latest(Candidates(files, testName)) == ArtifactFileName(n + "_" + other, theirs)
  {
    var n := NormalizeName(testName);
    var mine := ArtifactFileName(n, own);
    var winner := ArtifactFileName(n + "_" + other, theirs);
    var files := {mine, winner};
    var p := ArtifactPrefix(n) + "_";
    assert mine == p + (own + ".py");
    assert winner == p + (other + "_" + theirs + ".py");
    var c := Candidates(files, testName);
    assert mine in c && winner in c;
    LexLeqCommonPrefix(p, own + ".py", other + "_" + theirs + ".py");
    LexLeqReflexive(winner);
    assert IsLatest(c, winner);
    LatestUnique(c, winner, Latest(c));
  }
}
