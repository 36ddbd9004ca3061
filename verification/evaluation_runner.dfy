/** The evaluation run: every instruction of the dataset goes through the
    pipeline, and counters are kept per difficulty and overall. */
module EvaluationRunner {
  import opened Results

  /** One bucket of counters; `latencies` holds the seconds each run took. */
  datatype Counters = Counters(
    total: nat, passed: nat, failed: nat, timeouts: nat, errors: nat, latencies: seq<real>)

  const Zero := Counters(0, 0, 0, 0, 0, [])

  const Levels: set<string> := {"easy", "medium", "hard"}

  /** The buckets before the first run: the three difficulties and "overall". */
  const Initial: map<string, Counters> :=
    map["easy" := Zero, "medium" := Zero, "hard" := Zero, "overall" := Zero]

  /** What one call of the pipeline on an instruction came to: the status of
      the entry it returned, or an exception; with the seconds it took. */
  datatype Run = Returned(status: string, latency: real) | Raised(latency: real)

  /** One difficulty of the dataset, with the outcome of each of its
      instructions in order (the instruction texts matter only to the
      pipeline, whose outcomes these are). */
  datatype Level = Level(difficulty: string, runs: seq<Run>)

  /** How one run changes one bucket: a returned PASS counts as passed, any
      other returned status as failed, an exception as an error. */
  function Count(c: Counters, run: Run): (d: Counters)
    ensures d.total == c.total + 1 && d.timeouts == c.timeouts
    ensures d.latencies == c.latencies + [run.latency]
    ensures d.passed + d.failed + d.errors == c.passed + c.failed + c.errors + 1
    ensures d.passed == c.passed + (if run.Returned? && run.status == "PASS" then 1 else 0)
    ensures d.failed == c.failed + (if run.Returned? && run.status != "PASS" then 1 else 0)
    ensures d.errors == c.errors + (if run.Raised? then 1 else 0)
  {
    match run
    case Returned(status, latency) =>
      if status == "PASS" then c.(total := c.total + 1, passed := c.passed + 1, latencies := c.latencies + [latency])
      else c.(total := c.total + 1, failed := c.failed + 1, latencies := c.latencies + [latency])
    case Raised(latency) =>
      c.(total := c.total + 1, errors := c.errors + 1, latencies := c.latencies + [latency])
  }

  /** One run recorded in its difficulty's bucket and then in "overall"; a
      difficulty with no bucket is a KeyError that ends the evaluation. */
  function Record(b: map<string, Counters>, difficulty: string, run: Run): Result<map<string, Counters>> {
    if difficulty !in b then Err("'" + difficulty + "'")
    else if "overall" !in b then Err("'overall'")
    else
      var b1 := b[difficulty := Count(b[difficulty], run)];
      Ok(b1["overall" := Count(b1["overall"], run)])
  }

  /** The inner loop: the runs of one difficulty, recorded in order. */
  function RecordAll(b: map<string, Counters>, difficulty: string, runs: seq<Run>): Result<map<string, Counters>> {
    if runs == [] then Ok(b)
    else match RecordAll(b, difficulty, runs[..|runs| - 1])
      case Err(e) => Err(e)
      case Ok(b1) => Record(b1, difficulty, runs[|runs| - 1])
  }

  /** The outer loop: the difficulties in dataset order, from the initial buckets. */
  function Tally(dataset: seq<Level>): Result<map<string, Counters>> {
    if dataset == [] then Ok(Initial)
    else match Tally(dataset[..|dataset| - 1])
      case Err(e) => Err(e)
      case Ok(b) => RecordAll(b, dataset[|dataset| - 1].difficulty, dataset[|dataset| - 1].runs)
  }

  /** run_evaluation's nested loops over the dataset and its instructions. */
  method RunEvaluation(dataset: seq<Level>) returns (r: Result<map<string, Counters>>)
    ensures r == Tally(dataset)
  {
    var results := Initial;
    var i := 0;
    while i < |dataset|
      invariant 0 <= i <= |dataset|
      invariant Tally(dataset[..i]) == Ok(results)
    {
      var difficulty := dataset[i].difficulty;
      var runs := dataset[i].runs;
      ghost var start := results;
      var j := 0;
      while j < |runs|
        invariant 0 <= j <= |runs|
        invariant RecordAll(start, difficulty, runs[..j]) == Ok(results)
      {
        assert runs[..j + 1][..j] == runs[..j];
        var run := runs[j];
        if difficulty !in results {
          assert RecordAll(start, difficulty, runs[..j + 1]) == Record(results, difficulty, run);
          r := Err("'" + difficulty + "'");
          RecordStopsTally(dataset, i, j);
          return;
        }
        if "overall" !in results {
          assert RecordAll(start, difficulty, runs[..j + 1]) == Record(results, difficulty, run);
          r := Err("'overall'");
          RecordStopsTally(dataset, i, j);
          return;
        }
        ghost var before := results;
        // the difficulty's bucket first, then "overall" (the same bucket
        // twice when the dataset itself has a level named "overall")
        results := results[difficulty := Count(results[difficulty], run)];
        results := results["overall" := Count(results["overall"], run)];
        assert RecordAll(start, difficulty, runs[..j + 1]) == Record(before, difficulty, run);
        j := j + 1;
      }
      assert runs[..j] == runs;
      assert dataset[..i + 1][..i] == dataset[..i];
      i := i + 1;
    }
    assert dataset[..i] == dataset;
    r := Ok(results);
  }

  /** An error while recording the j-th run of level i is the evaluation's
      result. */
  lemma RecordStopsTally(dataset: seq<Level>, i: nat, j: nat)
    requires i < |dataset| && j < |dataset[i].runs|
    requires Tally(dataset[..i]).Ok?
    requires RecordAll(Tally(dataset[..i]).value, dataset[i].difficulty, dataset[i].runs[..j + 1]).Err?
    ensures Tally(dataset) == RecordAll(Tally(dataset[..i]).value, dataset[i].difficulty, dataset[i].runs[..j + 1])
  {
    var d := dataset[i].difficulty;
    var runs := dataset[i].runs;
    RecordAllErrSticks(Tally(dataset[..i]).value, d, runs, j + 1);
    assert dataset[..i + 1][..i] == dataset[..i];
    TallyErrSticks(dataset, i + 1);
  }

  /** Once recording fails, the later runs of the level change nothing. */
  lemma {:induction false} RecordAllErrSticks(b: map<string, Counters>, difficulty: string, runs: seq<Run>, k: nat)
    requires k <= |runs| && RecordAll(b, difficulty, runs[..k]).Err?
    ensures RecordAll(b, difficulty, runs) == RecordAll(b, difficulty, runs[..k])
    decreases |runs|
  {
    if k < |runs| {
      var init := runs[..|runs| - 1];
      assert init[..k] == runs[..k];
      RecordAllErrSticks(b, difficulty, init, k);
    } else {
      assert runs[..k] == runs;
    }
  }

  /** Once the tally fails, the later levels change nothing. */
  lemma {:induction false} TallyErrSticks(dataset: seq<Level>, k: nat)
    requires k <= |dataset| && Tally(dataset[..k]).Err?
    ensures Tally(dataset) == Tally(dataset[..k])
    decreases |dataset|
  {
    if k < |dataset| {
      var init := dataset[..|dataset| - 1];
      assert init[..k] == dataset[..k];
      TallyErrSticks(init, k);
    } else {
      assert dataset[..k] == dataset;
    }
  }

  // ---------------------------------------------------------------------------
  // What the counters come to

  /** A bucket's counters agree with each other: every run is exactly one of
      passed, failed and errors, none is ever a timeout, and each has its
      latency. */
  predicate Consistent(c: Counters) {
    c.total == c.passed + c.failed + c.errors && c.timeouts == 0 && |c.latencies| == c.total
  }

  /** A bucket after a sequence of runs. */
  function CountAll(c: Counters, runs: seq<Run>): Counters {
    if runs == [] then c else Count(CountAll(c, runs[..|runs| - 1]), runs[|runs| - 1])
  }

  function Passes(runs: seq<Run>): nat {
    if runs == [] then 0
    else Passes(runs[..|runs| - 1]) + (if runs[|runs| - 1] == Returned("PASS", runs[|runs| - 1].latency) then 1 else 0)
  }

  function Failures(runs: seq<Run>): nat {
    if runs == [] then 0
    else
      var last := runs[|runs| - 1];
      Failures(runs[..|runs| - 1]) + (if last.Returned? && last.status != "PASS" then 1 else 0)
  }

  function Exceptions(runs: seq<Run>): nat {
    if runs == [] then 0 else Exceptions(runs[..|runs| - 1]) + (if runs[|runs| - 1].Raised? then 1 else 0)
  }

  function Latencies(runs: seq<Run>): seq<real> {
    if runs == [] then [] else Latencies(runs[..|runs| - 1]) + [runs[|runs| - 1].latency]
  }

  /** Each counter of a bucket grows by the number of runs of its kind; the
      latencies grow by the runs' latencies in order. */
  lemma {:induction false} CountAllCounts(c: Counters, runs: seq<Run>)
    ensures var d := CountAll(c, runs);
      d.total == c.total + |runs| && d.passed == c.passed + Passes(runs)
      && d.failed == c.failed + Failures(runs) && d.errors == c.errors + Exceptions(runs)
      && d.timeouts == c.timeouts && d.latencies == c.latencies + Latencies(runs)
    decreases |runs|
  {
    if runs != [] {
      CountAllCounts(c, runs[..|runs| - 1]);
      assert c.latencies + Latencies(runs[..|runs| - 1]) + [runs[|runs| - 1].latency]
          == c.latencies + Latencies(runs);
    }
  }

  /** Counting the runs of two stretches one after the other. */
  lemma {:induction false} CountAllAppend(c: Counters, a: seq<Run>, b: seq<Run>)
    ensures CountAll(c, a + b) == CountAll(CountAll(c, a), b)
    decreases |b|
  {
    if b == [] {
      assert a + b == a;
    } else {
      assert (a + b)[..|a + b| - 1] == a + b[..|b| - 1];
      CountAllAppend(c, a, b[..|b| - 1]);
    }
  }

  /** The inner loop over one known difficulty other than "overall" counts its
      runs into that bucket and into "overall", and touches nothing else. */
  lemma {:induction false} RecordAllCounts(b: map<string, Counters>, difficulty: string, runs: seq<Run>)
    requires difficulty in b && "overall" in b && difficulty != "overall"
    ensures RecordAll(b, difficulty, runs)
            == Ok(b[difficulty := CountAll(b[difficulty], runs)]["overall" := CountAll(b["overall"], runs)])
    decreases |runs|
  {
    if runs != [] {
      var init := runs[..|runs| - 1];
      var last := runs[|runs| - 1];
      RecordAllCounts(b, difficulty, init);
      var b1 := b[difficulty := CountAll(b[difficulty], init)]["overall" := CountAll(b["overall"], init)];
      assert b1[difficulty] == CountAll(b[difficulty], init);
      assert b1["overall"] == CountAll(b["overall"], init);
      assert RecordAll(b, difficulty, runs) == Record(b1, difficulty, last);
      assert CountAll(b[difficulty], runs) == Count(CountAll(b[difficulty], init), last);
      assert CountAll(b["overall"], runs) == Count(CountAll(b["overall"], init), last);
      assert Record(b1, difficulty, last).value
          == b[difficulty := CountAll(b[difficulty], runs)]["overall" := CountAll(b["overall"], runs)];
    } else {
      assert b[difficulty := b[difficulty]]["overall" := b["overall"]] == b;
    }
  }

  /** The runs of the levels named `difficulty`, in dataset order. */
  function RunsOf(dataset: seq<Level>, difficulty: string): seq<Run> {
    if dataset == [] then []
    else
      var last := dataset[|dataset| - 1];
      RunsOf(dataset[..|dataset| - 1], difficulty) + (if last.difficulty == difficulty then last.runs else [])
  }

  /** Every run of the dataset, in order. */
  function AllRuns(dataset: seq<Level>): seq<Run> {
    if dataset == [] then [] else AllRuns(dataset[..|dataset| - 1]) + dataset[|dataset| - 1].runs
  }

  /** When every level is easy, medium or hard, the evaluation completes, each
      difficulty's bucket counts exactly that difficulty's runs and "overall"
      counts all of them. */
  lemma {:induction false} TallyByLevel(dataset: seq<Level>)
    requires forall i :: 0 <= i < |dataset| ==> dataset[i].difficulty in Levels
    ensures Tally(dataset).Ok? && Tally(dataset).value.Keys == Initial.Keys
    ensures forall d :: d in Levels ==> Tally(dataset).value[d] == CountAll(Zero, RunsOf(dataset, d))
    ensures Tally(dataset).value["overall"] == CountAll(Zero, AllRuns(dataset))
    decreases |dataset|
  {
    if dataset != [] {
      var init := dataset[..|dataset| - 1];
      var last := dataset[|dataset| - 1];
      assert forall i :: 0 <= i < |init| ==> init[i] == dataset[i];
      TallyByLevel(init);
      var b := Tally(init).value;
      RecordAllCounts(b, last.difficulty, last.runs);
      var r := b[last.difficulty := CountAll(b[last.difficulty], last.runs)]["overall" := CountAll(b["overall"], last.runs)];
      assert Tally(dataset) == Ok(r);
      CountAllAppend(Zero, AllRuns(init), last.runs);
      assert r.Keys == b.Keys;
      forall d | d in Levels
        ensures r[d] == CountAll(Zero, RunsOf(dataset, d))
      {
        LevelStep(dataset, b, d);
      }
      assert r["overall"] == CountAll(b["overall"], last.runs);
      assert AllRuns(dataset) == AllRuns(init) + last.runs;
    } else {
      assert forall d :: d in Levels ==> Initial[d] == Zero;
    }
  }

  /** One difficulty's bucket after the last level's runs are recorded. */
  lemma LevelStep(dataset: seq<Level>, b: map<string, Counters>, d: string)
    requires dataset != [] && d != "overall" && d in b && "overall" in b
    requires dataset[|dataset| - 1].difficulty in b && dataset[|dataset| - 1].difficulty != "overall"
    requires b[d] == CountAll(Zero, RunsOf(dataset[..|dataset| - 1], d))
    ensures var last := dataset[|dataset| - 1];
      b[last.difficulty := CountAll(b[last.difficulty], last.runs)]["overall" := CountAll(b["overall"], last.runs)][d]
      == CountAll(Zero, RunsOf(dataset, d))
  {
    var last := dataset[|dataset| - 1];
    RunsOfStep(dataset, d);
    if d == last.difficulty {
      CountAllAppend(Zero, RunsOf(dataset[..|dataset| - 1], d), last.runs);
    }
  }

  /** The last level adds its runs to its own difficulty and to no other. */
  lemma RunsOfStep(dataset: seq<Level>, d: string)
    requires dataset != []
    ensures var init := dataset[..|dataset| - 1]; var last := dataset[|dataset| - 1];
      RunsOf(dataset, d) == if d == last.difficulty then RunsOf(init, d) + last.runs else RunsOf(init, d)
  {
    var init := dataset[..|dataset| - 1];
    assert RunsOf(init, d) + [] == RunsOf(init, d);
  }

  /** With an "overall" bucket present, recording a level's runs fails
      exactly when there are runs and their difficulty has no bucket. */
  lemma {:induction false} RecordAllOk(b: map<string, Counters>, difficulty: string, runs: seq<Run>)
    requires "overall" in b
    ensures RecordAll(b, difficulty, runs).Ok? <==> difficulty in b || runs == []
    ensures RecordAll(b, difficulty, runs).Ok? ==> RecordAll(b, difficulty, runs).value.Keys == b.Keys
    decreases |runs|
  {
    if runs != [] {
      RecordAllOk(b, difficulty, runs[..|runs| - 1]);
    }
  }

  /** The evaluation completes exactly when every difficulty that has runs
      is easy, medium, hard or "overall"; the first other one raises. */
  lemma {:induction false} TallyOkIffKnown(dataset: seq<Level>)
    ensures Tally(dataset).Ok? <==>
              forall i :: 0 <= i < |dataset| ==> dataset[i].difficulty in Initial || dataset[i].runs == []
    ensures Tally(dataset).Ok? ==> Tally(dataset).value.Keys == Initial.Keys
    decreases |dataset|
  {
    if dataset != [] {
      var init := dataset[..|dataset| - 1];
      var last := dataset[|dataset| - 1];
      TallyOkIffKnown(init);
      assert forall i :: 0 <= i < |init| ==> init[i] == dataset[i];
      if Tally(init).Ok? {
        RecordAllOk(Tally(init).value, last.difficulty, last.runs);
      }
    }
  }

  /** Every bucket the evaluation returns is consistent, whatever the dataset. */
  lemma {:induction false} TallyConsistent(dataset: seq<Level>)
    ensures Tally(dataset).Ok? ==>
              Tally(dataset).value.Keys == Initial.Keys
              && forall k :: k in Tally(dataset).value ==> Consistent(Tally(dataset).value[k])
    decreases |dataset|
  {
    if dataset != [] {
      TallyConsistent(dataset[..|dataset| - 1]);
      match Tally(dataset[..|dataset| - 1])
      case Err(_) =>
      case Ok(b) =>
        RecordAllConsistent(b, dataset[|dataset| - 1].difficulty, dataset[|dataset| - 1].runs);
    }
  }

  lemma {:induction false} RecordAllConsistent(b: map<string, Counters>, difficulty: string, runs: seq<Run>)
    requires forall k :: k in b ==> Consistent(b[k])
    ensures RecordAll(b, difficulty, runs).Ok? ==>
              RecordAll(b, difficulty, runs).value.Keys == b.Keys
              && forall k :: k in RecordAll(b, difficulty, runs).value ==> Consistent(RecordAll(b, difficulty, runs).value[k])
    decreases |runs|
  {
    if runs != [] {
      RecordAllConsistent(b, difficulty, runs[..|runs| - 1]);
    }
  }

  /** Additivity of the counts over a concatenation. */
  lemma {:induction false} CountsAppend(a: seq<Run>, b: seq<Run>)
    ensures Passes(a + b) == Passes(a) + Passes(b) && Failures(a + b) == Failures(a) + Failures(b)
    ensures Exceptions(a + b) == Exceptions(a) + Exceptions(b) && Latencies(a + b) == Latencies(a) + Latencies(b)
    decreases |b|
  {
    if b == [] {
      assert a + b == a;
    } else {
      assert (a + b)[..|a + b| - 1] == a + b[..|b| - 1];
      CountsAppend(a, b[..|b| - 1]);
    }
  }

  /** When every level is easy, medium or hard, each "overall" counter is the
      sum of the three difficulties' counters. */
  lemma OverallIsSumOfLevels(dataset: seq<Level>)
    requires forall i :: 0 <= i < |dataset| ==> dataset[i].difficulty in Levels
    ensures Tally(dataset).Ok? && Tally(dataset).value.Keys == Initial.Keys
    ensures var r := Tally(dataset).value;
      r["overall"].total == r["easy"].total + r["medium"].total + r["hard"].total
      && r["overall"].passed == r["easy"].passed + r["medium"].passed + r["hard"].passed
      && r["overall"].failed == r["easy"].failed + r["medium"].failed + r["hard"].failed
      && r["overall"].errors == r["easy"].errors + r["medium"].errors + r["hard"].errors
  {
    TallyByLevel(dataset);
    CountAllCounts(Zero, AllRuns(dataset));
    CountAllCounts(Zero, RunsOf(dataset, "easy"));
    CountAllCounts(Zero, RunsOf(dataset, "medium"));
    CountAllCounts(Zero, RunsOf(dataset, "hard"));
    LevelsPartitionRuns(dataset);
  }

  /** The runs of the three difficulties, counted apart, are all the runs. */
  lemma {:induction false} LevelsPartitionRuns(dataset: seq<Level>)
    requires forall i :: 0 <= i < |dataset| ==> dataset[i].difficulty in Levels
    ensures var all := AllRuns(dataset);
      var e := RunsOf(dataset, "easy"); var m := RunsOf(dataset, "medium"); var h := RunsOf(dataset, "hard");
      |all| == |e| + |m| + |h|
      && Passes(all) == Passes(e) + Passes(m) + Passes(h)
      && Failures(all) == Failures(e) + Failures(m) + Failures(h)
      && Exceptions(all) == Exceptions(e) + Exceptions(m) + Exceptions(h)
    decreases |dataset|
  {
    if dataset != [] {
      var init := dataset[..|dataset| - 1];
      var last := dataset[|dataset| - 1];
      assert forall i :: 0 <= i < |init| ==> init[i] == dataset[i];
      LevelsPartitionRuns(init);
      var a0 := AllRuns(init);
      var e0, m0, h0 := RunsOf(init, "easy"), RunsOf(init, "medium"), RunsOf(init, "hard");
      assert AllRuns(dataset) == a0 + last.runs;
      CountsAppend(a0, last.runs);
      RunsOfStep(dataset, "easy");
      RunsOfStep(dataset, "medium");
      RunsOfStep(dataset, "hard");
      if last.difficulty == "easy" {
        CountsAppend(e0, last.runs);
        assert RunsOf(dataset, "easy") == e0 + last.runs;
        assert RunsOf(dataset, "medium") == m0 && RunsOf(dataset, "hard") == h0;
      } else if last.difficulty == "medium" {
        CountsAppend(m0, last.runs);
        assert RunsOf(dataset, "medium") == m0 + last.runs;
        assert RunsOf(dataset, "easy") == e0 && RunsOf(dataset, "hard") == h0;
      } else {
        CountsAppend(h0, last.runs);
        assert RunsOf(dataset, "hard") == h0 + last.runs;
        assert RunsOf(dataset, "easy") == e0 && RunsOf(dataset, "medium") == m0;
      }
    }
  }

  // ---------------------------------------------------------------------------
  // The success criteria, checked on the "overall" bucket

  /** The accuracy in percent; 0 when nothing ran. */
  function Accuracy(c: Counters): real {
    if c.total > 0 then (c.passed as real / c.total as real) * 100.0 else 0.0
  }

  predicate AccuracyMet(c: Counters) {
    Accuracy(c) >= 90.0
  }

  /** The accuracy criterion in whole numbers: something ran, and at least
      nine in ten runs passed. */
  lemma AccuracyMetInIntegers(c: Counters)
    ensures AccuracyMet(c) <==> c.total > 0 && 10 * c.passed >= 9 * c.total
  {
    if c.total > 0 {
      var p := c.passed as real;
      var t := c.total as real;
      var q := p / t;
      assert q * t == p;
      assert q * 100.0 >= 90.0 <==> q * t * 100.0 >= 90.0 * t;
      assert (10 * c.passed) as real == 10.0 * p && (9 * c.total) as real == 9.0 * t;
    }
  }

  /** sorted() on the latencies: insertion into an ascending list. */
  function InsertAscending(x: real, s: seq<real>): (r: seq<real>)
    ensures |r| == |s| + 1
  {
    if s == [] || x <= s[0] then [x] + s else [s[0]] + InsertAscending(x, s[1..])
  }

  function SortAscending(s: seq<real>): (r: seq<real>)
    ensures |r| == |s|
  {
    if s == [] then [] else InsertAscending(s[0], SortAscending(s[1..]))
  }

  /** Each value is at least the one before it. */
  predicate Ascending(s: seq<real>) {
    forall i :: 0 < i < |s| ==> s[i - 1] <= s[i]
  }

  lemma {:induction false} InsertAscendingHead(x: real, s: seq<real>)
    ensures InsertAscending(x, s)[0] == x || (s != [] && InsertAscending(x, s)[0] == s[0])
  {
  }

  lemma {:induction false} InsertAscendingKeepsOrder(x: real, s: seq<real>)
    requires Ascending(s)
    ensures Ascending(InsertAscending(x, s))
    decreases |s|
  {
    if s != [] && x > s[0] {
      InsertAscendingKeepsOrder(x, s[1..]);
      InsertAscendingHead(x, s[1..]);
      var r := InsertAscending(x, s);
      assert r == [s[0]] + InsertAscending(x, s[1..]);
      assert r[0] <= r[1];
    }
  }

  lemma {:induction false} InsertAscendingPermutes(x: real, s: seq<real>)
    ensures multiset(InsertAscending(x, s)) == multiset(s) + multiset{x}
    decreases |s|
  {
    if s != [] && x > s[0] {
      InsertAscendingPermutes(x, s[1..]);
      assert s == [s[0]] + s[1..];
    }
  }

  /** The sorted latencies are ascending and a permutation of the input. */
  lemma {:induction false} SortAscendingCorrect(s: seq<real>)
    ensures Ascending(SortAscending(s)) && multiset(SortAscending(s)) == multiset(s)
    decreases |s|
  {
    if s != [] {
      SortAscendingCorrect(s[1..]);
      InsertAscendingKeepsOrder(s[0], SortAscending(s[1..]));
      InsertAscendingPermutes(s[0], SortAscending(s[1..]));
      assert s == [s[0]] + s[1..];
    }
  }

  /** int(n * 0.8): the position of the 80th percentile among n sorted values. */
  function P80Index(n: nat): (k: nat)
    ensures n > 0 ==> k < n
  {
    (n * 4) / 5
  }

  /** The latency criterion: some run happened, and the value at the 80th
      percentile position is at most 3 seconds. */
  predicate LatencyMet(latencies: seq<real>) {
    |latencies| > 0 && SortAscending(latencies)[P80Index(|latencies|)] <= 3.0
  }

  /** How many of the values are at most `limit`. */
  function Within(s: seq<real>, limit: real): (n: nat)
    ensures n <= |s|
  {
    if s == [] then 0 else (if s[0] <= limit then 1 else 0) + Within(s[1..], limit)
  }

  lemma {:induction false} WithinInsert(x: real, s: seq<real>, limit: real)
    ensures Within(InsertAscending(x, s), limit) == (if x <= limit then 1 else 0) + Within(s, limit)
    decreases |s|
  {
    if s != [] && x > s[0] {
      WithinInsert(x, s[1..], limit);
    }
  }

  /** Sorting does not change how many values are within the limit. */
  lemma {:induction false} WithinSort(s: seq<real>, limit: real)
    ensures Within(SortAscending(s), limit) == Within(s, limit)
    decreases |s|
  {
    if s != [] {
      WithinSort(s[1..], limit);
      WithinInsert(s[0], SortAscending(s[1..]), limit);
    }
  }

  /** In an ascending list, the value at position k is within the limit
      exactly when more than k values are. */
  lemma {:induction false} AscendingWithin(s: seq<real>, limit: real, k: nat)
    requires Ascending(s) && k < |s|
    ensures s[k] <= limit <==> Within(s, limit) > k
    decreases |s|
  {
    if s[0] > limit {
      AboveHeadNoneWithin(s, limit);
      AboveHead(s, k);
    } else if k > 0 {
      AscendingWithin(s[1..], limit, k - 1);
    }
  }

  /** In an ascending list every value is at least the first. */
  lemma {:induction false} AboveHead(s: seq<real>, k: nat)
    requires Ascending(s) && k < |s|
    ensures s[0] <= s[k]
    decreases k
  {
    if k > 0 {
      AboveHead(s, k - 1);
    }
  }

  /** An ascending list whose first value exceeds the limit has none within it. */
  lemma {:induction false} AboveHeadNoneWithin(s: seq<real>, limit: real)
    requires Ascending(s) && s != [] && s[0] > limit
    ensures Within(s, limit) == 0
    decreases |s|
  {
    if |s| > 1 {
      AboveHeadNoneWithin(s[1..], limit);
    }
  }

  /** The latency criterion without sorting: more than int(0.8 n) of the n
      runs took at most 3 seconds; never met when nothing ran. */
  lemma LatencyMetByCount(latencies: seq<real>)
    ensures LatencyMet(latencies) <==> |latencies| > 0 && Within(latencies, 3.0) > P80Index(|latencies|)
  {
    if |latencies| > 0 {
      SortAscendingCorrect(latencies);
      AscendingWithin(SortAscending(latencies), 3.0, P80Index(|latencies|));
      WithinSort(latencies, 3.0);
    }
  }
}
