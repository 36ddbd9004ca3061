/** The filesystem state the pipeline reads and writes: the directory of
    generated test files, the directory of execution logs, and the JSON
    results file. */
module Workspace {
  import opened Results

  /** A report entry as a dictionary of text values. */
  type Entry = map<string, string>

  /** dict.get(key, default) on a dictionary of text values. */
  function Get(d: map<string, string>, key: string, default: string): string {
    if key in d then d[key] else default
  }

  /** What `json.load` makes of the results file. */
  datatype ReportFile =
    | Missing                                // the file does not exist
    | Undecodable                            // json.load raises JSONDecodeError
    | Decoded(results: Option<seq<Entry>>)   // None: the document has no "results" list

  class FileSystem {
    /** The test-case directory: file name to file text. */
    var artifacts: map<string, string>
    /** The log directory: file name to file text. */
    var logs: map<string, string>
    var report: ReportFile

    constructor (artifacts: map<string, string>, logs: map<string, string>, report: ReportFile)
      ensures this.artifacts == artifacts && this.logs == logs && this.report == report
    {
      this.artifacts := artifacts;
      this.logs := logs;
      this.report := report;
    }

    /** os.listdir of the test-case directory: every file name exactly once,
        in no particular order. */
    method ListArtifacts() returns (names: seq<string>)
      ensures forall n :: n in names <==> n in artifacts
      ensures |names| == |artifacts|
    {
      var left := artifacts.Keys;
      names := [];
      while left != {}
        invariant left <= artifacts.Keys
        invariant forall n :: n in names <==> n in artifacts.Keys - left
        invariant |names| + |left| == |artifacts.Keys|
        decreases |left|
      {
        var n :| n in left;
        names := names + [n];
        left := left - {n};
      }
    }
  }

  /** os.path.join(dir, name) for a relative file name. */
  function PathJoin(dir: string, name: string): (p: string)
    ensures |p| >= |name| && p[|p| - |name|..] == name
  {
    if dir == [] || dir[|dir| - 1] == '/' then dir + name else dir + "/" + name
  }
}
