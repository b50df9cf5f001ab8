/** The batch orchestrator: extraction, then rename, filter and convert for
    each memory-sized sub-batch, then packaging and the JSON report, with a
    checkpoint record before and after every phase, an error record when
    a phase raises, and removal of the scratch directories at the end.
    The phases are given as functions over the filesystem (each returns
    the filesystem it leaves, also when it raises); the random draw of the
    batch number, the clock and the memory readings are parameters. */
module BatchProcessing {
  import opened Common
  import opened Text
  import opened Paths
  import opened Files
  import Memory

  /** The configuration keys the orchestrator and its setters use. */
  datatype BatchConfig = BatchConfig(
    tempDirectory: Option<string>,
    outputDirectory: Option<string>,
    checkpointDirectory: Option<string>,
    reportDirectory: Option<string>,
    deleteAfterPackaging: Option<bool>,
    parallelProcessing: Option<bool>,
    maxWorkers: Option<int>,
    useCheckpointing: Option<bool>,
    checkpointInterval: Option<int>,
    continueOnError: Option<bool>,
    minResolution: Option<int>,
    quality: Option<int>,
    outputFormat: Option<string>)

  /** What a phase leaves: its value, or the message of the exception it
      raised; either way the filesystem as it then is. */
  datatype Step<T> = Done(fs: FileSystem, value: T) | Raised(fs: FileSystem, error: string)

  /** The phases: extraction of a source into a directory, renaming of a
      list into a directory under a batch id (a map from old to new path),
      filtering of a list, conversion of a list (a map from input to
      output or failure), the `os.walk` listing of a directory, and
      packaging of a list into an archive path. */
  datatype Phases = Phases(
    extract: (FileSystem, string, string) -> Step<seq<string>>,
    rename: (FileSystem, seq<string>, string, string) -> Step<Dict<string>>,
    filter: (FileSystem, seq<string>, string) -> Step<seq<string>>,
    convert: (FileSystem, seq<string>, string) -> Step<Dict<Option<string>>>,
    walk: (FileSystem, string) -> seq<string>,
    package: (FileSystem, seq<string>, string) -> Step<Value>)

  /** A record handed to `save_checkpoint`. */
  datatype Checkpoint =
    | Started(phase: string)
    | Completed(phase: string, count: int)
    | Packaged(path: Value)
    | Failure(error: string)

  /** The state dictionary each record stands for. */
  function StateOf(c: Checkpoint): map<string, Value>
  {
    match c
    case Started(p) => map["phase" := VStr(p), "status" := VStr("started")]
    case Completed(p, n) => map["phase" := VStr(p), "status" := VStr("completed"), "count" := VInt(n)]
    case Packaged(v) => map["phase" := VStr("package"), "status" := VStr("completed"), "path" := v]
    case Failure(e) => map["phase" := VStr("error"), "error" := VStr(e)]
  }

  datatype Stats = Stats(extracted: int, renamed: int, filtered: int, converted: int, packaged: int)

  /** What `process` returns: the results, `{"error": ...}`, or an
      exception that escapes before the `try`. */
  datatype Outcome =
    | Processed(batchId: string, stats: Stats, package: Value)
    | Failed(error: string)
    | Escaped(error: string)

  /** A run: what it returns, the filesystem it leaves and its checkpoint
      records in order. */
  datatype Run = Run(outcome: Outcome, fs: FileSystem, log: seq<Checkpoint>)

  const NoImagesMessage: string := "No valid images found in source"

  // ------------------------------------------------------------ names

  /** `f"batch{random.randint(10000000, 99999999)}"` for the draw `n`. */
  function BatchId(n: nat): string
  {
    "batch" + NatToString(n)
  }

  function Pow10(k: nat): nat
  {
    if k == 0 then 1 else 10 * Pow10(k - 1)
  }

  lemma {:induction false} NatToStringLength(n: nat, k: nat)
    requires Pow10(k) <= n < Pow10(k + 1)
    ensures |NatToString(n)| == k + 1
  {
    if k > 0 {
      NatToStringLength(n / 10, k - 1);
    }
  }

  /** A batch id is "batch" followed by exactly eight digits. */
  lemma BatchIdShape(n: nat)
    requires 10000000 <= n <= 99999999
    ensures |BatchId(n)| == 13 && BatchId(n)[..5] == "batch"
    ensures AllDigits(BatchId(n)[5..])
  {
    assert Pow10(7) == 10000000 && Pow10(8) == 100000000;
    NatToStringLength(n, 7);
    assert BatchId(n)[5..] == NatToString(n);
  }

  datatype Dirs = Dirs(extracted: string, renamed: string, filtered: string, converted: string)

  /** The four scratch directories `<temp>/<batch_id>_<stage>`. */
  function ScratchDirs(temp: string, batchId: string): Dirs
  {
    Dirs(Join(temp, batchId + "_extracted"), Join(temp, batchId + "_renamed"),
         Join(temp, batchId + "_filtered"), Join(temp, batchId + "_converted"))
  }

  function ScratchList(d: Dirs): seq<string>
  {
    [d.extracted, d.renamed, d.filtered, d.converted]
  }

  lemma AppendCancel(a: string, x: string, y: string)
    requires a + x == a + y
    ensures x == y
  {
    assert x == (a + x)[|a|..];
    assert y == (a + y)[|a|..];
  }

  /** Under a plain temporary directory the scratch directories are
      `<temp>/<batch_id>_extracted` and so on, four different paths. */
  lemma ScratchDirsShape(temp: string, batchId: string)
    requires temp != "" && !EndsWith(temp, "/") && batchId != "" && batchId[0] != '/'
    ensures ScratchList(ScratchDirs(temp, batchId)) ==
      [temp + "/" + (batchId + "_extracted"), temp + "/" + (batchId + "_renamed"),
       temp + "/" + (batchId + "_filtered"), temp + "/" + (batchId + "_converted")]
    ensures Distinct(ScratchList(ScratchDirs(temp, batchId)))
  {
    var pre := temp + "/" + batchId;
    var suffixes := ["_extracted", "_renamed", "_filtered", "_converted"];
    forall s | s in suffixes ensures !StartsWith(batchId + s, "/") && temp + "/" + (batchId + s) == pre + s {
      assert (batchId + s)[0] == batchId[0];
    }
    var l := ScratchList(ScratchDirs(temp, batchId));
    forall i, j | 0 <= i < j < 4 ensures l[i] != l[j] {
      if l[i] == l[j] {
        AppendCancel(pre, suffixes[i], suffixes[j]);
      }
    }
  }

  /** `<output>/<batch_id>_processed.zip`. */
  function PackagePath(outputDir: string, batchId: string): string
  {
    Join(outputDir, batchId + "_processed.zip")
  }

  /** `<report_directory>/<batch_id>_report.json`. */
  function ReportPath(reportDir: string, batchId: string): string
  {
    Join(reportDir, batchId + "_report.json")
  }

  /** The stage name of sub-batch `k`, such as `rename_batch_0`. */
  function PhaseName(stage: string, k: nat): string
  {
    stage + "_batch_" + NatToString(k)
  }

  // ------------------------------------------------------------ sub-batches

  /** The state carried through the sub-batches: the filesystem, the
      records so far, the three totals and the exception, if one was
      raised. */
  datatype Totals = Totals(fs: FileSystem, log: seq<Checkpoint>, renamed: int, filtered: int,
                           converted: int, error: Option<string>)

  /** One sub-batch: rename it, filter the renamer's keys (the original
      paths), convert what the filter keeps, each phase between a start
      and a completion record carrying its count. */
  function SubBatch(st: Totals, ph: Phases, dirs: Dirs, batchId: string, batch: seq<string>, k: nat): Totals
  {
    var log1 := st.log + [Started(PhaseName("rename", k))];
    match ph.rename(st.fs, batch, dirs.renamed, batchId)
    case Raised(fs1, e) => st.(fs := fs1, log := log1, error := Some(e))
    case Done(fs1, renamed) =>
      var rc := |renamed.keys|;
      var log2 := log1 + [Completed(PhaseName("rename", k), rc), Started(PhaseName("filter", k))];
      match ph.filter(fs1, renamed.keys, dirs.filtered)
      case Raised(fs2, e) => st.(fs := fs2, log := log2, renamed := st.renamed + rc, error := Some(e))
      case Done(fs2, filtered) =>
        var fc := |filtered|;
        var log3 := log2 + [Completed(PhaseName("filter", k), fc), Started(PhaseName("convert", k))];
        match ph.convert(fs2, filtered, dirs.converted)
        case Raised(fs3, e) =>
          Totals(fs3, log3, st.renamed + rc, st.filtered + fc, st.converted, Some(e))
        case Done(fs3, converted) =>
          var cc := |converted.keys|;
          Totals(fs3, log3 + [Completed(PhaseName("convert", k), cc)], st.renamed + rc, st.filtered + fc,
                 st.converted + cc, None)
  }

  /** The sub-batches from number `k` on, stopping at the first exception. */
  function RunBatches(st: Totals, ph: Phases, dirs: Dirs, batchId: string, batches: seq<seq<string>>, k: nat): Totals
    decreases |batches|
  {
    if batches == [] || st.error.Some? then st
    else RunBatches(SubBatch(st, ph, dirs, batchId, batches[0], k), ph, dirs, batchId, batches[1..], k + 1)
  }

  /** The six records of sub-batch `k`: start and completion of its
      rename, filter and convert phases. */
  ghost predicate Block(b: seq<Checkpoint>, k: nat)
  {
    |b| == 6 &&
    b[0] == Started(PhaseName("rename", k)) && b[1].Completed? && b[1].phase == PhaseName("rename", k) &&
    b[2] == Started(PhaseName("filter", k)) && b[3].Completed? && b[3].phase == PhaseName("filter", k) &&
    b[4] == Started(PhaseName("convert", k)) && b[5].Completed? && b[5].phase == PhaseName("convert", k)
  }

  /** Records made of whole blocks for sub-batches `k`, `k + 1`, .... */
  ghost predicate Blocks(s: seq<Checkpoint>, k: nat)
    decreases |s|
  {
    s == [] || (|s| >= 6 && Block(s[..6], k) && Blocks(s[6..], k + 1))
  }

  /** The sum of the counts at position `j` of each block. */
  ghost function CountSum(s: seq<Checkpoint>, j: nat): int
    requires j < 6
    decreases |s|
  {
    if |s| < 6 then 0
    else (if s[j].Completed? then s[j].count else 0) + CountSum(s[6..], j)
  }

  ghost predicate NoFailure(s: seq<Checkpoint>)
  {
    forall i :: 0 <= i < |s| ==> !s[i].Failure?
  }

  lemma SubBatchFacts(st: Totals, ph: Phases, dirs: Dirs, batchId: string, batch: seq<string>, k: nat)
    ensures var r := SubBatch(st, ph, dirs, batchId, batch, k);
      |r.log| > |st.log| && r.log[..|st.log|] == st.log && NoFailure(r.log[|st.log|..]) &&
      (r.error.None? ==>
        var b := r.log[|st.log|..];
        Block(b, k) && r.renamed == st.renamed + b[1].count && r.filtered == st.filtered + b[3].count &&
        r.converted == st.converted + b[5].count) &&
      (r.error.Some? ==> r.log[|r.log| - 1].Started?)
  {
  }

  lemma BlocksCons(b: seq<Checkpoint>, rest: seq<Checkpoint>, k: nat)
    requires Block(b, k) && Blocks(rest, k + 1)
    ensures Blocks(b + rest, k)
    ensures forall j :: 0 <= j < 6 ==>
      CountSum(b + rest, j) == (if b[j].Completed? then b[j].count else 0) + CountSum(rest, j)
  {
    assert (b + rest)[..6] == b;
    assert (b + rest)[6..] == rest;
  }

  lemma NoFailureAppend(a: seq<Checkpoint>, b: seq<Checkpoint>)
    requires NoFailure(a) && NoFailure(b)
    ensures NoFailure(a + b)
  {
    assert forall i :: |a| <= i < |a + b| ==> (a + b)[i] == b[i - |a|];
  }

  /** From totals `st` to totals `r` over `n` sub-batches numbered from
      `k`: the records only grow and hold no error record; without an
      exception they grew by one whole block per sub-batch, in order, and
      each total by the sum of the counts its phase recorded; with one,
      the records end with the start of the phase that raised. */
  ghost predicate Extends(st: Totals, r: Totals, n: nat, k: nat)
  {
    |r.log| >= |st.log| && r.log[..|st.log|] == st.log && NoFailure(r.log[|st.log|..]) &&
    (r.error.None? ==>
      var seg := r.log[|st.log|..];
      |seg| == 6 * n && Blocks(seg, k) &&
      r.renamed == st.renamed + CountSum(seg, 1) &&
      r.filtered == st.filtered + CountSum(seg, 3) &&
      r.converted == st.converted + CountSum(seg, 5)) &&
    (r.error.Some? ==> |r.log| > |st.log| && r.log[|r.log| - 1].Started?)
  }

  /** A sub-batch without exception followed by the rest. */
  lemma ExtendsChain(st: Totals, s1: Totals, r: Totals, n: nat, k: nat)
    requires |s1.log| > |st.log| && s1.log[..|st.log|] == st.log && NoFailure(s1.log[|st.log|..])
    requires s1.error.None?
    requires var b := s1.log[|st.log|..];
      Block(b, k) && s1.renamed == st.renamed + b[1].count && s1.filtered == st.filtered + b[3].count &&
      s1.converted == st.converted + b[5].count
    requires Extends(s1, r, n, k + 1)
    ensures Extends(st, r, n + 1, k)
  {
    var b := s1.log[|st.log|..];
    var rest := r.log[|s1.log|..];
    assert s1.log == st.log + b;
    assert r.log == s1.log + rest;
    assert r.log[|st.log|..] == b + rest;
    assert r.log[..|st.log|] == st.log;
    NoFailureAppend(b, rest);
    if r.error.None? {
      BlocksCons(b, rest, k);
    }
  }

  /** The sub-batches extend the totals they start from. */
  lemma {:induction false} RunBatchesFacts(st: Totals, ph: Phases, dirs: Dirs, batchId: string,
                                           batches: seq<seq<string>>, k: nat)
    requires st.error.None?
    ensures Extends(st, RunBatches(st, ph, dirs, batchId, batches, k), |batches|, k)
    decreases |batches|
  {
    if batches == [] {
      assert st.log[|st.log|..] == [];
    } else {
      var s1 := SubBatch(st, ph, dirs, batchId, batches[0], k);
      SubBatchFacts(st, ph, dirs, batchId, batches[0], k);
      if s1.error.None? {
        RunBatchesFacts(s1, ph, dirs, batchId, batches[1..], k + 1);
        ExtendsChain(st, s1, RunBatches(s1, ph, dirs, batchId, batches[1..], k + 1), |batches[1..]|, k);
      }
    }
  }

  // ------------------------------------------------------------ one run

  /** The results dictionary `process` returns and writes as the report. */
  function ResultsDocument(batchId: string, source: string, stamp: string, stats: Stats, package: Value): (d: Dict<Value>)
    ensures DictValid(d)
    ensures d.keys == ["batch_id", "source", "timestamp", "stats", "package"]
  {
    var s := map["extracted" := VInt(stats.extracted), "renamed" := VInt(stats.renamed),
                 "filtered" := VInt(stats.filtered), "converted" := VInt(stats.converted),
                 "packaged" := VInt(stats.packaged)];
    Dict(["batch_id", "source", "timestamp", "stats", "package"],
         map["batch_id" := VStr(batchId), "source" := VStr(source), "timestamp" := VStr(stamp),
             "stats" := VMap(s), "package" := package])
  }

  /** Packaging the files found under the converted directory, then the
      JSON report. */
  function Finish(fs: FileSystem, log: seq<Checkpoint>, ph: Phases, dirs: Dirs, outputDir: string,
                  reportDir: Option<string>, batchId: string, source: string, stamp: string, stats: Stats): Run
  {
    var log1 := log + [Started("package")];
    var listing := if IsDir(fs, dirs.converted) then ph.walk(fs, dirs.converted) else [];
    match ph.package(fs, listing, PackagePath(outputDir, batchId))
    case Raised(fs1, e) => Run(Failed(e), fs1, log1 + [Failure(e)])
    case Done(fs1, pkg) => WriteReport(fs1, log1 + [Packaged(pkg)], reportDir, batchId, source, stamp, stats, pkg)
  }

  /** The JSON report written once the package is made. */
  function WriteReport(fs: FileSystem, log: seq<Checkpoint>, reportDir: Option<string>, batchId: string,
                       source: string, stamp: string, stats: Stats, pkg: Value): Run
  {
    if reportDir.None? then Run(Failed("'report_directory'"), fs, log + [Failure("'report_directory'")])
    else
      var path := ReportPath(reportDir.value, batchId);
      var made := MakeDirs(fs, Dirname(path));
      if made.Err? then Run(Failed(made.error), fs, log + [Failure(made.error)])
      else if IsDir(made.value, path) then
        var e := "[Errno 21] Is a directory: '" + path + "'";
        Run(Failed(e), made.value, log + [Failure(e)])
      else
        var doc := ResultsDocument(batchId, source, stamp, stats, pkg);
        Run(Processed(batchId, stats, pkg), made.value[path := File(Document(doc))], log)
  }

  /** The body of the `try`: extraction, the early exit for no images,
      the sub-batches and the finish; an exception ends it with an error
      record. The sub-batches are those the memory generator yields as
      written, so after a critical memory reading some extracted images
      are in no sub-batch. */
  function Attempt(fs: FileSystem, ph: Phases, dirs: Dirs, outputDir: string, reportDir: Option<string>,
                   memCfg: Memory.MemoryConfig, critical: seq<bool>, batchId: string, source: string,
                   stamp: string): Run
  {
    match ph.extract(fs, source, dirs.extracted)
    case Raised(fs1, e) => Run(Failed(e), fs1, [Started("extract"), Failure(e)])
    case Done(fs1, files) =>
      var log1 := [Started("extract"), Completed("extract", |files|)];
      if files == [] then Run(Failed(NoImagesMessage), fs1, log1)
      else
        match Memory.Generate(files, None, memCfg, critical)
        case Err(e) => Run(Failed(e), fs1, log1 + [Failure(e)])
        case Ok(batches) =>
          var t := RunBatches(Totals(fs1, log1, 0, 0, 0, None), ph, dirs, batchId, batches, 0);
          AfterBatches(t, |files|, ph, dirs, outputDir, reportDir, batchId, source, stamp)
  }

  /** After the sub-batches: the error record if one raised, otherwise
      the packaging and the report with the totals. */
  function AfterBatches(t: Totals, extracted: int, ph: Phases, dirs: Dirs, outputDir: string,
                        reportDir: Option<string>, batchId: string, source: string, stamp: string): Run
  {
    if t.error.Some? then Run(Failed(t.error.value), t.fs, t.log + [Failure(t.error.value)])
    else
      Finish(t.fs, t.log, ph, dirs, outputDir, reportDir, batchId, source, stamp,
             Stats(extracted, t.renamed, t.filtered, t.converted, t.converted))
  }

  /** The `finally` clause: `shutil.rmtree` on each scratch path that is
      a directory, in order. */
  function RemoveAll(fs: FileSystem, ds: seq<string>): FileSystem
  {
    if ds == [] then fs else RemoveTree(RemoveAll(fs, ds[..|ds| - 1]), ds[|ds| - 1])
  }

  /** Afterwards none of the paths is a directory, and nothing new
      appears. */
  lemma {:induction false} RemoveAllFacts(fs: FileSystem, ds: seq<string>)
    ensures var r := RemoveAll(fs, ds);
      (forall d :: d in ds ==> !IsDir(r, d)) &&
      (forall p :: p in r ==> p in fs && r[p] == fs[p])
  {
    if ds != [] {
      var init := ds[..|ds| - 1];
      RemoveAllFacts(fs, init);
      assert forall d :: d in ds ==> d in init || d == ds[|ds| - 1];
    }
  }

  function DeleteAfter(config: BatchConfig): bool
  {
    config.deleteAfterPackaging != Some(false)
  }

  /** `process(source_path)` for the draw `draw` and the clock reading
      `stamp`. */
  function ProcessRun(fs: FileSystem, ph: Phases, config: BatchConfig, outputDir: string,
                      memCfg: Memory.MemoryConfig, critical: seq<bool>, source: string, draw: nat,
                      stamp: string): Run
  {
    if config.tempDirectory.None? then Run(Escaped("'temp_directory'"), fs, [])
    else
      var batchId := BatchId(draw);
      var dirs := ScratchDirs(config.tempDirectory.value, batchId);
      var a := Attempt(fs, ph, dirs, outputDir, config.reportDirectory, memCfg, critical, batchId, source, stamp);
      Run(a.outcome, if DeleteAfter(config) then RemoveAll(a.fs, ScratchList(dirs)) else a.fs, a.log)
  }

  // ------------------------------------------------------------ properties

  /** What a finished run promises, for records `log` without errors
      before it: a processed run reports the package for the batch, has
      written the results as its report, and its records end with the
      packaging's start and completion; a failed one ends with the
      packaging's start, possibly its completion, and the error record. */
  ghost predicate FinishPromise(log: seq<Checkpoint>, r: Run, reportDir: Option<string>, batchId: string,
                                source: string, stamp: string, stats: Stats)
  {
    !r.outcome.Escaped? &&
    (r.outcome.Processed? ==>
      r.log == log + [Started("package"), Packaged(r.outcome.package)] &&
      r.outcome.batchId == batchId && r.outcome.stats == stats && reportDir.Some? &&
      IsFile(r.fs, ReportPath(reportDir.value, batchId)) &&
      r.fs[ReportPath(reportDir.value, batchId)].content ==
        Document(ResultsDocument(batchId, source, stamp, stats, r.outcome.package))) &&
    (r.outcome.Failed? ==>
      |r.log| >= |log| + 2 && r.log[..|log|] == log && r.log[|log|] == Started("package") &&
      r.log[|r.log| - 1] == Failure(r.outcome.error) && NoFailure(r.log[..|r.log| - 1]))
  }

  /** The finish when packaging raises. */
  lemma PackageRaisedPromise(fs: FileSystem, log: seq<Checkpoint>, e: string, reportDir: Option<string>,
                             batchId: string, source: string, stamp: string, stats: Stats)
    requires NoFailure(log)
    ensures FinishPromise(log, Run(Failed(e), fs, log + [Started("package")] + [Failure(e)]),
                          reportDir, batchId, source, stamp, stats)
  {
    var log1 := log + [Started("package")];
    NoFailureAppend(log, [Started("package")]);
    assert log1[..|log|] == log;
    FailureAfter(log1, e);
  }

  /** The finish when packaging succeeds and the report is then written. */
  lemma PackageDonePromise(fs: FileSystem, log: seq<Checkpoint>, pkg: Value, reportDir: Option<string>,
                           batchId: string, source: string, stamp: string, stats: Stats)
    requires NoFailure(log)
    ensures FinishPromise(log,
                          WriteReport(fs, log + [Started("package")] + [Packaged(pkg)], reportDir, batchId, source, stamp, stats, pkg),
                          reportDir, batchId, source, stamp, stats)
  {
    var log1 := log + [Started("package")];
    var log2 := log1 + [Packaged(pkg)];
    NoFailureAppend(log, [Started("package")]);
    NoFailureAppend(log1, [Packaged(pkg)]);
    assert log2 == log + [Started("package"), Packaged(pkg)];
    assert log2[..|log|] == log;
    WriteReportFacts(fs, log2, reportDir, batchId, source, stamp, stats, pkg);
    var r := WriteReport(fs, log2, reportDir, batchId, source, stamp, stats, pkg);
    if r.outcome.Failed? {
      FailureAfter(log2, r.outcome.error);
    }
  }

  /** A finish after records without errors keeps `FinishPromise`. */
  lemma FinishFacts(fs: FileSystem, log: seq<Checkpoint>, ph: Phases, dirs: Dirs, outputDir: string,
                    reportDir: Option<string>, batchId: string, source: string, stamp: string, stats: Stats)
    requires NoFailure(log)
    ensures FinishPromise(log, Finish(fs, log, ph, dirs, outputDir, reportDir, batchId, source, stamp, stats),
                          reportDir, batchId, source, stamp, stats)
  {
    var listing := if IsDir(fs, dirs.converted) then ph.walk(fs, dirs.converted) else [];
    var p := ph.package(fs, listing, PackagePath(outputDir, batchId));
    if p.Raised? {
      assert Finish(fs, log, ph, dirs, outputDir, reportDir, batchId, source, stamp, stats) ==
        Run(Failed(p.error), p.fs, log + [Started("package")] + [Failure(p.error)]);
      PackageRaisedPromise(p.fs, log, p.error, reportDir, batchId, source, stamp, stats);
    } else {
      assert Finish(fs, log, ph, dirs, outputDir, reportDir, batchId, source, stamp, stats) ==
        WriteReport(p.fs, log + [Started("package")] + [Packaged(p.value)], reportDir, batchId, source, stamp, stats, p.value);
      PackageDonePromise(p.fs, log, p.value, reportDir, batchId, source, stamp, stats);
    }
  }

  /** Records without errors followed by one error record. */
  lemma FailureAfter(log: seq<Checkpoint>, e: string)
    requires NoFailure(log)
    ensures var l := log + [Failure(e)];
      l[..|log|] == log && l[|l| - 1] == Failure(e) && NoFailure(l[..|l| - 1])
  {
    var l := log + [Failure(e)];
    assert l[..|l| - 1] == log;
  }

  /** Writing the report either succeeds, leaving the records as they
      were and the report in place, or appends one error record. */
  lemma WriteReportFacts(fs: FileSystem, log: seq<Checkpoint>, reportDir: Option<string>, batchId: string,
                         source: string, stamp: string, stats: Stats, pkg: Value)
    ensures var r := WriteReport(fs, log, reportDir, batchId, source, stamp, stats, pkg);
      !r.outcome.Escaped? &&
      (r.outcome.Processed? ==>
        r.log == log && r.outcome.batchId == batchId && r.outcome.stats == stats &&
        r.outcome.package == pkg && reportDir.Some? &&
        IsFile(r.fs, ReportPath(reportDir.value, batchId)) &&
        r.fs[ReportPath(reportDir.value, batchId)].content == Document(ResultsDocument(batchId, source, stamp, stats, pkg))) &&
      (r.outcome.Failed? ==> r.log == log + [Failure(r.outcome.error)])
  {
  }

  lemma NoFailureAfterExtract(fs1: FileSystem, files: seq<string>, t: Totals, ph: Phases, dirs: Dirs,
                              batchId: string, batches: seq<seq<string>>)
    requires t == RunBatches(Totals(fs1, [Started("extract"), Completed("extract", |files|)], 0, 0, 0, None),
                             ph, dirs, batchId, batches, 0)
    ensures |t.log| >= 2 && t.log[..2] == [Started("extract"), Completed("extract", |files|)]
    ensures NoFailure(t.log)
    ensures t.error.None? ==>
      var seg := t.log[2..];
      |seg| == 6 * |batches| && Blocks(seg, 0) &&
      t.renamed == CountSum(seg, 1) && t.filtered == CountSum(seg, 3) && t.converted == CountSum(seg, 5)
  {
    var log1 := [Started("extract"), Completed("extract", |files|)];
    RunBatchesFacts(Totals(fs1, log1, 0, 0, 0, None), ph, dirs, batchId, batches, 0);
    assert t.log == log1 + t.log[2..];
    NoFailureAppend(log1, t.log[2..]);
  }

  /** The records of a successful attempt: the extraction's start and
      completion with the number of images (at least one), one block of
      six records per sub-batch, and the packaging's start and completion;
      the renamed, filtered and converted totals are the sums of the
      counts in the blocks, `packaged` is the converted total, and no
      error record was written. */
  ghost predicate SuccessShape(r: Run)
    requires r.outcome.Processed?
  {
    var s := r.outcome.stats;
    |r.log| >= 4 && |r.log| % 6 == 4 &&
    r.log[0] == Started("extract") && r.log[1] == Completed("extract", s.extracted) && s.extracted >= 1 &&
    Blocks(r.log[2..|r.log| - 2], 0) &&
    r.log[|r.log| - 2] == Started("package") && r.log[|r.log| - 1] == Packaged(r.outcome.package) &&
    s.renamed == CountSum(r.log[2..|r.log| - 2], 1) &&
    s.filtered == CountSum(r.log[2..|r.log| - 2], 3) &&
    s.converted == CountSum(r.log[2..|r.log| - 2], 5) &&
    s.packaged == s.converted &&
    NoFailure(r.log)
  }

  /** A failed attempt ended with exactly one error record, the last, or
      at the no-images exit after the two extraction records. */
  ghost predicate FailureShape(r: Run)
    requires r.outcome.Failed?
  {
    (|r.log| >= 1 && r.log[|r.log| - 1] == Failure(r.outcome.error) && NoFailure(r.log[..|r.log| - 1])) ||
    (r.outcome.error == NoImagesMessage && r.log == [Started("extract"), Completed("extract", 0)])
  }

  lemma SuccessAfterBatches(t: Totals, files: seq<string>, batches: seq<seq<string>>, f: Run)
    requires |files| >= 1 && t.error.None?
    requires |t.log| >= 2 && t.log[..2] == [Started("extract"), Completed("extract", |files|)] && NoFailure(t.log)
    requires var seg := t.log[2..];
      |seg| == 6 * |batches| && Blocks(seg, 0) &&
      t.renamed == CountSum(seg, 1) && t.filtered == CountSum(seg, 3) && t.converted == CountSum(seg, 5)
    requires f.outcome.Processed? && f.outcome.stats == Stats(|files|, t.renamed, t.filtered, t.converted, t.converted)
    requires f.log == t.log + [Started("package"), Packaged(f.outcome.package)]
    ensures SuccessShape(f)
  {
    var tail := [Started("package"), Packaged(f.outcome.package)];
    var mid := f.log[2..|f.log| - 2];
    assert mid == t.log[2..];
    assert f.log[0] == t.log[..2][0] && f.log[1] == t.log[..2][1];
    NoFailureAppend(t.log, tail);
  }

  /** After the extraction records and the sub-batches, the run has the
      records `SuccessShape` or `FailureShape` describes. */
  lemma AfterBatchesFacts(t: Totals, files: seq<string>, batches: seq<seq<string>>, ph: Phases, dirs: Dirs,
                          outputDir: string, reportDir: Option<string>, batchId: string, source: string, stamp: string)
    requires |files| >= 1
    requires |t.log| >= 2 && t.log[..2] == [Started("extract"), Completed("extract", |files|)] && NoFailure(t.log)
    requires t.error.None? ==>
      var seg := t.log[2..];
      |seg| == 6 * |batches| && Blocks(seg, 0) &&
      t.renamed == CountSum(seg, 1) && t.filtered == CountSum(seg, 3) && t.converted == CountSum(seg, 5)
    ensures var a := AfterBatches(t, |files|, ph, dirs, outputDir, reportDir, batchId, source, stamp);
      !a.outcome.Escaped? &&
      (a.outcome.Processed? ==> SuccessShape(a)) &&
      (a.outcome.Failed? ==> FailureShape(a))
  {
    var a := AfterBatches(t, |files|, ph, dirs, outputDir, reportDir, batchId, source, stamp);
    if t.error.Some? {
      assert a.log[..|a.log| - 1] == t.log;
    } else {
      var stats := Stats(|files|, t.renamed, t.filtered, t.converted, t.converted);
      FinishFacts(t.fs, t.log, ph, dirs, outputDir, reportDir, batchId, source, stamp, stats);
      if a.outcome.Processed? {
        SuccessAfterBatches(t, files, batches, a);
      }
    }
  }

  /** A successful attempt has the records and totals `SuccessShape`
      describes; a failed one has the records `FailureShape` describes. */
  lemma AttemptFacts(fs: FileSystem, ph: Phases, dirs: Dirs, outputDir: string, reportDir: Option<string>,
                     memCfg: Memory.MemoryConfig, critical: seq<bool>, batchId: string, source: string, stamp: string)
    ensures var a := Attempt(fs, ph, dirs, outputDir, reportDir, memCfg, critical, batchId, source, stamp);
      !a.outcome.Escaped? &&
      (a.outcome.Processed? ==> SuccessShape(a)) &&
      (a.outcome.Failed? ==> FailureShape(a))
  {
    var a := Attempt(fs, ph, dirs, outputDir, reportDir, memCfg, critical, batchId, source, stamp);
    var step := ph.extract(fs, source, dirs.extracted);
    if step.Raised? {
      assert a.log[..|a.log| - 1] == [Started("extract")];
    } else if step.value != [] {
      var files := step.value;
      var log1 := [Started("extract"), Completed("extract", |files|)];
      var g := Memory.Generate(files, None, memCfg, critical);
      if g.Err? {
        assert a.log[..|a.log| - 1] == log1;
      } else {
        var t := RunBatches(Totals(step.fs, log1, 0, 0, 0, None), ph, dirs, batchId, g.value, 0);
        NoFailureAfterExtract(step.fs, files, t, ph, dirs, batchId, g.value);
        AfterBatchesFacts(t, files, g.value, ph, dirs, outputDir, reportDir, batchId, source, stamp);
      }
    }
  }

  /** A run that returns results has the records and totals of
      `SuccessShape`; a run that fails has those of `FailureShape`: an
      exception in any phase writes exactly one error record, as the
      last, and the no-images exit writes none. */
  lemma RunLog(fs: FileSystem, ph: Phases, config: BatchConfig, outputDir: string,
               memCfg: Memory.MemoryConfig, critical: seq<bool>, source: string, draw: nat, stamp: string)
    ensures var r := ProcessRun(fs, ph, config, outputDir, memCfg, critical, source, draw, stamp);
      (r.outcome.Processed? ==> SuccessShape(r)) &&
      (r.outcome.Failed? ==> FailureShape(r))
  {
    if config.tempDirectory.Some? {
      var batchId := BatchId(draw);
      var dirs := ScratchDirs(config.tempDirectory.value, batchId);
      var a := Attempt(fs, ph, dirs, outputDir, config.reportDirectory, memCfg, critical, batchId, source, stamp);
      AttemptFacts(fs, ph, dirs, outputDir, config.reportDirectory, memCfg, critical, batchId, source, stamp);
      var r := ProcessRun(fs, ph, config, outputDir, memCfg, critical, source, draw, stamp);
      assert r.outcome == a.outcome && r.log == a.log;
      ShapeIgnoresFiles(a, r);
    }
  }

  /** The shapes speak only of the outcome and the records. */
  lemma ShapeIgnoresFiles(a: Run, r: Run)
    requires r.outcome == a.outcome && r.log == a.log
    ensures r.outcome.Processed? ==> (SuccessShape(r) <==> SuccessShape(a))
    ensures r.outcome.Failed? ==> (FailureShape(r) <==> FailureShape(a))
  {
  }

  /** Extraction that finds nothing ends the run with the no-images error
      after exactly the two extraction records, and no later phase runs. */
  lemma NoImagesRun(fs: FileSystem, ph: Phases, config: BatchConfig, outputDir: string,
                    memCfg: Memory.MemoryConfig, critical: seq<bool>, source: string, draw: nat, stamp: string)
    requires config.tempDirectory.Some?
    requires ph.extract(fs, source, ScratchDirs(config.tempDirectory.value, BatchId(draw)).extracted).Done?
    requires ph.extract(fs, source, ScratchDirs(config.tempDirectory.value, BatchId(draw)).extracted).value == []
    ensures var r := ProcessRun(fs, ph, config, outputDir, memCfg, critical, source, draw, stamp);
      r.outcome == Failed(NoImagesMessage) && r.log == [Started("extract"), Completed("extract", 0)]
  {
  }

  /** With deletion after packaging on (the default), none of the four
      scratch directories survives, whether the run succeeded, found no
      images or failed; the cleanup itself creates nothing. */
  lemma CleanupOnEveryPath(fs: FileSystem, ph: Phases, config: BatchConfig, outputDir: string,
                           memCfg: Memory.MemoryConfig, critical: seq<bool>, source: string, draw: nat, stamp: string)
    requires config.tempDirectory.Some? && DeleteAfter(config)
    ensures var r := ProcessRun(fs, ph, config, outputDir, memCfg, critical, source, draw, stamp);
      forall d :: d in ScratchList(ScratchDirs(config.tempDirectory.value, BatchId(draw))) ==> !IsDir(r.fs, d)
  {
    var batchId := BatchId(draw);
    var dirs := ScratchDirs(config.tempDirectory.value, batchId);
    var a := Attempt(fs, ph, dirs, outputDir, config.reportDirectory, memCfg, critical, batchId, source, stamp);
    RemoveAllFacts(a.fs, ScratchList(dirs));
  }

  /** A missing `temp_directory` key raises before the `try`: no record,
      no change, no cleanup. */
  lemma MissingTempDirectory(fs: FileSystem, ph: Phases, config: BatchConfig, outputDir: string,
                             memCfg: Memory.MemoryConfig, critical: seq<bool>, source: string, draw: nat, stamp: string)
    requires config.tempDirectory.None?
    ensures ProcessRun(fs, ph, config, outputDir, memCfg, critical, source, draw, stamp) ==
      Run(Escaped("'temp_directory'"), fs, [])
  {
  }

  /** The `for` loop over the sub-batches, leaving it at the first
      exception. */
  method RunSubBatches(init: Totals, ph: Phases, dirs: Dirs, batchId: string, batches: seq<seq<string>>)
    returns (t: Totals)
    ensures t == RunBatches(init, ph, dirs, batchId, batches, 0)
  {
    t := init;
    var i := 0;
    while i < |batches| && t.error.None?
      invariant 0 <= i <= |batches|
      invariant RunBatches(t, ph, dirs, batchId, batches[i..], i) == RunBatches(init, ph, dirs, batchId, batches, 0)
      decreases |batches| - i
    {
      assert batches[i..][1..] == batches[i + 1..];
      t := SubBatch(t, ph, dirs, batchId, batches[i], i);
      i := i + 1;
    }
    assert RunBatches(t, ph, dirs, batchId, batches[i..], i) == t;
  }

  /** The loop of the `finally` clause over the scratch directories. */
  method RemoveScratch(fs: FileSystem, scratch: seq<string>) returns (left: FileSystem)
    ensures left == RemoveAll(fs, scratch)
  {
    left := fs;
    var j := 0;
    while j < |scratch|
      invariant 0 <= j <= |scratch|
      invariant left == RemoveAll(fs, scratch[..j])
    {
      assert scratch[..j + 1][..j] == scratch[..j];
      left := RemoveTree(left, scratch[j]);
      j := j + 1;
    }
    assert scratch[..|scratch|] == scratch;
  }

  /** The keys of `_initialize_results`, in order: the batch, its source
      and start time, then the counters. */
  const ResultKeys: seq<string> := ["batch_id", "source", "start_time", "extracted_files", "renamed_files",
                                    "analyzed_files", "accepted_files", "rejected_files", "converted_files",
                                    "packaged_files", "elapsed_time"]

  lemma ResultKeysDistinct()
    ensures Distinct(ResultKeys)
  {
  }

  /** The dictionary with the given distinct keys in order, the first
      ones holding `head` and the rest `fill`. */
  function FilledDict(keys: seq<string>, head: seq<Value>, fill: Value): (d: Dict<Value>)
    requires Distinct(keys)
    ensures DictValid(d) && d.keys == keys
    ensures forall i :: 0 <= i < |keys| ==> d.values[keys[i]] == if i < |head| then head[i] else fill
  {
    Dict(keys, map i | 0 <= i < |keys| :: keys[i] := if i < |head| then head[i] else fill)
  }

  /** `_initialize_results(batch_id, source_path)` at clock reading
      `startTime`: the batch, its source and start time, then every
      counter at zero. */
  function InitialResults(batchId: string, source: string, startTime: real): (d: Dict<Value>)
    ensures DictValid(d) && d.keys == ResultKeys
    ensures d.values[ResultKeys[0]] == VStr(batchId) && d.values[ResultKeys[1]] == VStr(source)
    ensures d.values[ResultKeys[2]] == VReal(startTime)
    ensures forall i :: 3 <= i < |ResultKeys| ==> d.values[ResultKeys[i]] == VInt(0)
  {
    ResultKeysDistinct();
    var head := [VStr(batchId), VStr(source), VReal(startTime)];
    assert |head| == 3 && |ResultKeys| == 11;
    FilledDict(ResultKeys, head, VInt(0))
  }

  // ------------------------------------------------------------ the processor

  /** The settings `BatchProcessor.__init__` reads once. */
  datatype Setup = Setup(tempDir: string, outputDir: string, checkpointDir: string, parallel: bool,
                         maxWorkers: int, useCheckpointing: bool, checkpointInterval: int,
                         continueOnError: bool)

  function SetupOf(c: BatchConfig): (s: Setup)
    ensures c.tempDirectory.None? ==> s.tempDir == "data/temp"
    ensures c.outputDirectory.None? ==> s.outputDir == "output"
    ensures c.checkpointDirectory.None? ==> s.checkpointDir == "checkpoints"
    ensures s.parallel <==> c.parallelProcessing != Some(false)
    ensures c.maxWorkers.None? ==> s.maxWorkers == 8
    ensures c.checkpointInterval.None? ==> s.checkpointInterval == 10
  {
    Setup(if c.tempDirectory.Some? then c.tempDirectory.value else "data/temp",
          if c.outputDirectory.Some? then c.outputDirectory.value else "output",
          if c.checkpointDirectory.Some? then c.checkpointDirectory.value else "checkpoints",
          c.parallelProcessing != Some(false),
          if c.maxWorkers.Some? then c.maxWorkers.value else 8,
          c.useCheckpointing != Some(false),
          if c.checkpointInterval.Some? then c.checkpointInterval.value else 10,
          c.continueOnError != Some(false))
  }

  /** The three directories `__init__` creates, in order. */
  function SetUpDirectories(fs: FileSystem, s: Setup): (r: Result<FileSystem>)
    ensures r.Ok? ==> IsDir(r.value, s.tempDir) && IsDir(r.value, s.outputDir) && IsDir(r.value, s.checkpointDir)
    ensures r.Ok? ==> forall p :: p in fs ==> p in r.value && r.value[p] == fs[p]
    ensures r.Err? <==> (MakeDirs(fs, s.tempDir).Err? ||
      (MakeDirs(fs, s.tempDir).Ok? && MakeDirs(MakeDirs(fs, s.tempDir).value, s.outputDir).Err?) ||
      (MakeDirs(fs, s.tempDir).Ok? && MakeDirs(MakeDirs(fs, s.tempDir).value, s.outputDir).Ok? &&
       MakeDirs(MakeDirs(MakeDirs(fs, s.tempDir).value, s.outputDir).value, s.checkpointDir).Err?))
  {
    match MakeDirs(fs, s.tempDir)
    case Err(e) => Err(e)
    case Ok(fs1) =>
      match MakeDirs(fs1, s.outputDir)
      case Err(e) => Err(e)
      case Ok(fs2) => MakeDirs(fs2, s.checkpointDir)
  }

  class BatchProcessor {
    var config: BatchConfig
    var setup: Setup

    /** `BatchProcessor(config)`; the directories are made by
        `SetUpDirectories`. */
    constructor (c: BatchConfig)
      ensures config == c && setup == SetupOf(c)
    {
      config := c;
      setup := SetupOf(c);
    }

    /** `process(source_path)`: the run `ProcessRun` describes, with the
        sub-batches and the cleanup done by loops. */
    method Process(fs: FileSystem, ph: Phases, memCfg: Memory.MemoryConfig, critical: seq<bool>,
                   source: string, draw: nat, stamp: string) returns (run: Run)
      ensures run == ProcessRun(fs, ph, config, setup.outputDir, memCfg, critical, source, draw, stamp)
    {
      if config.tempDirectory.None? {
        return Run(Escaped("'temp_directory'"), fs, []);
      }
      var batchId := BatchId(draw);
      var dirs := ScratchDirs(config.tempDirectory.value, batchId);
      var a: Run;
      var step := ph.extract(fs, source, dirs.extracted);
      if step.Raised? {
        a := Run(Failed(step.error), step.fs, [Started("extract"), Failure(step.error)]);
      } else if step.value == [] {
        a := Run(Failed(NoImagesMessage), step.fs, [Started("extract"), Completed("extract", 0)]);
      } else {
        var files := step.value;
        var log1 := [Started("extract"), Completed("extract", |files|)];
        var g := Memory.Generate(files, None, memCfg, critical);
        if g.Err? {
          a := Run(Failed(g.error), step.fs, log1 + [Failure(g.error)]);
        } else {
          var t := RunSubBatches(Totals(step.fs, log1, 0, 0, 0, None), ph, dirs, batchId, g.value);
          a := AfterBatches(t, |files|, ph, dirs, setup.outputDir, config.reportDirectory, batchId, source, stamp);
        }
      }
      assert a == Attempt(fs, ph, dirs, setup.outputDir, config.reportDirectory, memCfg, critical, batchId, source, stamp);
      var left := a.fs;
      if DeleteAfter(config) {
        left := RemoveScratch(a.fs, ScratchList(dirs));
      }
      run := Run(a.outcome, left, a.log);
    }

    /** `filter_by_resolution(min_resolution)`: only the configuration
        changes; the components built at construction keep what they read. */
    method FilterByResolution(minResolution: int) returns (self: BatchProcessor)
      modifies this
      ensures self == this && config == old(config).(minResolution := Some(minResolution)) && setup == old(setup)
    {
      config := config.(minResolution := Some(minResolution));
      self := this;
    }

    /** `set_output_quality(quality)`. */
    method SetOutputQuality(quality: int) returns (self: BatchProcessor)
      modifies this
      ensures self == this && config == old(config).(quality := Some(quality)) && setup == old(setup)
    {
      config := config.(quality := Some(quality));
      self := this;
    }

    /** `set_output_format(format_name)`: stored in lower case. */
    method SetOutputFormat(formatName: string) returns (self: BatchProcessor)
      modifies this
      ensures self == this && config == old(config).(outputFormat := Some(Lower(formatName))) && setup == old(setup)
    {
      config := config.(outputFormat := Some(Lower(formatName)));
      self := this;
    }

    /** `enable_parallel_processing(enabled, max_workers)`: a falsy worker
        count (absent or 0) leaves the configured one. */
    method EnableParallelProcessing(enabled: bool, maxWorkers: Option<int>) returns (self: BatchProcessor)
      modifies this
      ensures self == this && setup == old(setup)
      ensures config.parallelProcessing == Some(enabled)
      ensures config.maxWorkers == if maxWorkers.Some? && maxWorkers.value != 0 then maxWorkers else old(config).maxWorkers
      ensures config == old(config).(parallelProcessing := config.parallelProcessing, maxWorkers := config.maxWorkers)
    {
      config := config.(parallelProcessing := Some(enabled));
      if maxWorkers.Some? && maxWorkers.value != 0 {
        config := config.(maxWorkers := maxWorkers);
      }
      self := this;
    }

    /** `enable_checkpointing(enabled, interval_minutes)`. */
    method EnableCheckpointing(enabled: bool, intervalMinutes: int) returns (self: BatchProcessor)
      modifies this
      ensures self == this && setup == old(setup)
      ensures config == old(config).(useCheckpointing := Some(enabled), checkpointInterval := Some(intervalMinutes))
    {
      config := config.(useCheckpointing := Some(enabled), checkpointInterval := Some(intervalMinutes));
      self := this;
    }
  }
}
