/** Reports on a batch: CSV tables of rows and the JSON summary. Rows and
    documents are ordered dictionaries; the clock's timestamp is a
    parameter, and the CSV and JSON encodings are the file contents
    `Table` and `Document`. */
module Reports {
  import opened Common
  import opened Text
  import opened Paths
  import opened Files

  datatype ReportConfig = ReportConfig(reportDirectory: Option<string>)

  /** `ReportGenerator(config)`: the report directory (default
      "output/reports"), created at once. */
  function OpenReports(fs: FileSystem, c: ReportConfig): (r: Result<(FileSystem, string)>)
    ensures r.Ok? ==> IsDir(r.value.0, r.value.1)
    ensures c.reportDirectory.None? && r.Ok? ==> r.value.1 == "output/reports"
    ensures r.Ok? <==> MakeDirs(fs, if c.reportDirectory.Some? then c.reportDirectory.value else "output/reports").Ok?
  {
    var dir := if c.reportDirectory.Some? then c.reportDirectory.value else "output/reports";
    var made := MakeDirs(fs, dir);
    if made.Err? then Err(made.error) else Ok((made.value, dir))
  }

  /** The cells `csv.DictWriter` writes for one row: the row's value for
      each field, "" for a missing one. */
  function CsvRow(row: Dict<Value>, fields: seq<string>): (cells: seq<Value>)
    ensures |cells| == |fields|
    ensures forall j :: 0 <= j < |fields| ==>
      cells[j] == if fields[j] in row.values then row.values[fields[j]] else VStr("")
  {
    seq(|fields|, j requires 0 <= j < |fields| => if fields[j] in row.values then row.values[fields[j]] else VStr(""))
  }

  /** A row with a key outside the fields makes `DictWriter` raise. */
  predicate HasExtraKey(data: seq<Dict<Value>>, fields: seq<string>)
  {
    exists i, k :: 0 <= i < |data| && k in data[i].values && k !in fields
  }

  /** `os.path.join(report_dir, f"{report_name}_{timestamp}.csv")`. */
  function CsvPath(reportDir: string, reportName: string, stamp: string): string
  {
    Join(reportDir, reportName + "_" + stamp + ".csv")
  }

  /** For a plain report directory and names without slashes, the report
      is the file `<report_name>_<stamp>.csv` directly inside it. */
  lemma CsvPathFacts(reportDir: string, reportName: string, stamp: string)
    requires reportDir != "" && !EndsWith(reportDir, "/")
    requires '/' !in reportName && '/' !in stamp
    ensures CsvPath(reportDir, reportName, stamp) == reportDir + "/" + (reportName + "_" + stamp + ".csv")
    ensures Dirname(CsvPath(reportDir, reportName, stamp)) == reportDir
  {
    var name := reportName + "_" + stamp + ".csv";
    assert '/' !in name by {
      assert forall i :: 0 <= i < |reportName| ==> name[i] == reportName[i];
      assert forall i :: 0 <= i < |stamp| ==> name[|reportName| + 1 + i] == stamp[i];
      assert name[|reportName|] == '_';
      assert name[|name| - 4..] == ".csv";
    }
    assert !StartsWith(name, "/") by {
      assert name[0] in name;
    }
    DirnameOfJoin(reportDir, name);
  }

  /** `generate_csv_report(data, report_name)`: nothing for no data;
      otherwise the CSV file with the first row's keys as the header. */
  function GenerateCsvReport(fs: FileSystem, reportDir: string, data: seq<Dict<Value>>,
                             reportName: string, stamp: string): Result<(FileSystem, Option<string>)>
  {
    if data == [] then Ok((fs, None))
    else
      var path := CsvPath(reportDir, reportName, stamp);
      var made := MakeDirs(fs, Dirname(path));
      if made.Err? then Err(made.error)
      else if IsDir(made.value, path) then Err("[Errno 21] Is a directory: '" + path + "'")
      else
        var fields := data[0].keys;
        if HasExtraKey(data, fields) then Err("dict contains fields not in fieldnames")
        else
          var rows := seq(|data|, i requires 0 <= i < |data| => CsvRow(data[i], fields));
          Ok((made.value[path := File(Table(fields, rows))], Some(path)))
  }

  /** No data gives no report and changes nothing. Otherwise the report
      fails exactly when its directory cannot be made, its path is a
      directory, or a row has a key the first row lacks; a written report
      has the first row's keys as header and one line per row, each with
      that row's values (or "") in header order, and nothing but the
      directory and the file changes. */
  lemma CsvReportFacts(fs: FileSystem, reportDir: string, data: seq<Dict<Value>>, reportName: string, stamp: string)
    ensures var r := GenerateCsvReport(fs, reportDir, data, reportName, stamp);
      var path := CsvPath(reportDir, reportName, stamp);
      var made := MakeDirs(fs, Dirname(path));
      (data == [] ==> r == Ok((fs, None))) &&
      (data != [] ==> (r.Ok? <==> made.Ok? && !IsDir(made.value, path) && !HasExtraKey(data, data[0].keys))) &&
      (data != [] && r.Ok? ==>
        r.value.1 == Some(path) &&
        IsFile(r.value.0, path) &&
        r.value.0[path].content.Table? &&
        r.value.0[path].content.header == data[0].keys &&
        |r.value.0[path].content.rows| == |data| &&
        (forall i, j :: 0 <= i < |data| && 0 <= j < |data[0].keys| ==>
          r.value.0[path].content.rows[i][j] ==
            if data[0].keys[j] in data[i].values then data[i].values[data[0].keys[j]] else VStr("")) &&
        (forall q :: q != path && q != Dirname(path) ==> (q in r.value.0 <==> q in fs) && (q in fs ==> r.value.0[q] == fs[q])))
  {
  }

  // ------------------------------------------------------------ rejected files

  /** The inner loop of `generate_rejected_files_report`: every info key
      other than the reason key, in order, is put into the row. */
  function CopyInfo(row: Dict<Value>, keys: seq<string>, info: map<string, Value>, reasonKey: string): Dict<Value>
  {
    if keys == [] then row
    else
      var before := CopyInfo(row, keys[..|keys| - 1], info, reasonKey);
      var k := keys[|keys| - 1];
      if k != reasonKey && k in info then Put(before, k, info[k]) else before
  }

  /** Copying keeps the row's columns first and its values except where
      an info key (other than the reason key) overrides them. */
  lemma CopyInfoFacts(row: Dict<Value>, keys: seq<string>, info: map<string, Value>, reasonKey: string)
    requires DictValid(row)
    ensures var r := CopyInfo(row, keys, info, reasonKey);
      DictValid(r) &&
      |r.keys| >= |row.keys| && r.keys[..|row.keys|] == row.keys &&
      (forall k :: k in r.values <==> k in row.values || (k in keys && k in info && k != reasonKey)) &&
      (forall k :: k in r.values ==>
        r.values[k] == if k in keys && k in info && k != reasonKey then info[k] else row.values[k])
  {
    CopyInfoKeys(row, keys, info, reasonKey);
    CopyInfoValues(row, keys, info, reasonKey);
  }

  lemma {:induction false} CopyInfoKeys(row: Dict<Value>, keys: seq<string>, info: map<string, Value>, reasonKey: string)
    requires DictValid(row)
    ensures var r := CopyInfo(row, keys, info, reasonKey);
      DictValid(r) &&
      |r.keys| >= |row.keys| && r.keys[..|row.keys|] == row.keys &&
      (forall k :: k in r.values <==> k in row.values || (k in keys && k in info && k != reasonKey))
  {
    if keys != [] {
      var init := keys[..|keys| - 1];
      var k := keys[|keys| - 1];
      assert keys == init + [k];
      assert forall x :: x in keys <==> x in init || x == k;
      CopyInfoKeys(row, init, info, reasonKey);
      var before := CopyInfo(row, init, info, reasonKey);
      assert CopyInfo(row, keys, info, reasonKey) == if k != reasonKey && k in info then Put(before, k, info[k]) else before;
      if k != reasonKey && k in info {
        var after := Put(before, k, info[k]);
        if k !in before.values {
          assert after.keys[..|row.keys|] == before.keys[..|row.keys|];
        }
      }
    }
  }

  lemma {:induction false} CopyInfoValues(row: Dict<Value>, keys: seq<string>, info: map<string, Value>, reasonKey: string)
    ensures var r := CopyInfo(row, keys, info, reasonKey);
      forall k :: k in r.values ==>
        if k in keys && k in info && k != reasonKey then r.values[k] == info[k]
        else k in row.values && r.values[k] == row.values[k]
  {
    if keys != [] {
      var init := keys[..|keys| - 1];
      var k := keys[|keys| - 1];
      assert keys == init + [k];
      assert forall x :: x in keys <==> x in init || x == k;
      CopyInfoValues(row, init, info, reasonKey);
      var before := CopyInfo(row, init, info, reasonKey);
      assert CopyInfo(row, keys, info, reasonKey) == if k != reasonKey && k in info then Put(before, k, info[k]) else before;
    }
  }

  /** The row for one rejected file: its path and the reason (or "Unknown
      reason"), then the other info keys. */
  function RejectedRow(path: string, info: Dict<Value>, reasonKey: string): Dict<Value>
  {
    var reason := if reasonKey in info.values then info.values[reasonKey] else VStr("Unknown reason");
    CopyInfo(StartRow(path, reason), info.keys, info.values, reasonKey)
  }

  /** The row a rejected file starts from: its path, then the reason. */
  function StartRow(path: string, reason: Value): (r: Dict<Value>)
    ensures DictValid(r) && r.keys == ["file_path", "reason"]
    ensures r.values == map["file_path" := VStr(path), "reason" := reason]
  {
    Put(Put(EmptyDict(), "file_path", VStr(path)), "reason", reason)
  }

  /** A row has the columns `file_path` and `reason` first, then the
      info keys other than the reason key; `file_path` is the path and
      `reason` the info's reason or "Unknown reason", unless an info key
      of that name (other than the reason key) overrides it; every other
      info value is copied. */
  lemma RejectedRowFacts(path: string, info: Dict<Value>, reasonKey: string)
    requires DictValid(info)
    ensures var r := RejectedRow(path, info, reasonKey);
      DictValid(r) && |r.keys| >= 2 && r.keys[0] == "file_path" && r.keys[1] == "reason" &&
      (forall k :: k in r.values <==> k == "file_path" || k == "reason" || (k in info.values && k != reasonKey)) &&
      r.values["file_path"] ==
        (if "file_path" in info.values && reasonKey != "file_path" then info.values["file_path"] else VStr(path)) &&
      r.values["reason"] ==
        (if "reason" in info.values && reasonKey != "reason" then info.values["reason"]
         else if reasonKey in info.values then info.values[reasonKey] else VStr("Unknown reason")) &&
      (forall k :: k in info.values && k != reasonKey ==> r.values[k] == info.values[k])
  {
    RejectedRowColumns(path, info, reasonKey);
    RejectedRowValues(path, info, reasonKey);
  }

  /** The columns of a row: `file_path` and `reason` first, then the info
      keys other than the reason key. */
  lemma RejectedRowColumns(path: string, info: Dict<Value>, reasonKey: string)
    requires DictValid(info)
    ensures var r := RejectedRow(path, info, reasonKey);
      DictValid(r) && |r.keys| >= 2 && r.keys[0] == "file_path" && r.keys[1] == "reason" &&
      (forall k :: k in r.values <==> k == "file_path" || k == "reason" || (k in info.values && k != reasonKey))
  {
    var reason := if reasonKey in info.values then info.values[reasonKey] else VStr("Unknown reason");
    var start := StartRow(path, reason);
    var r := CopyInfo(start, info.keys, info.values, reasonKey);
    assert r == RejectedRow(path, info, reasonKey);
    CopyInfoFacts(start, info.keys, info.values, reasonKey);
    assert r.keys[..2] == start.keys;
    assert r.keys[0] == "file_path" && r.keys[1] == "reason" by {
      assert r.keys[0] == r.keys[..2][0] && r.keys[1] == r.keys[..2][1];
    }
  }

  /** The values of a row: the path and the reason unless an info key of
      that name overrides them, and every other info value. */
  lemma RejectedRowValues(path: string, info: Dict<Value>, reasonKey: string)
    requires DictValid(info)
    ensures var r := RejectedRow(path, info, reasonKey);
      "file_path" in r.values && "reason" in r.values &&
      r.values["file_path"] ==
        (if "file_path" in info.values && reasonKey != "file_path" then info.values["file_path"] else VStr(path)) &&
      r.values["reason"] ==
        (if "reason" in info.values && reasonKey != "reason" then info.values["reason"]
         else if reasonKey in info.values then info.values[reasonKey] else VStr("Unknown reason")) &&
      (forall k :: k in info.values && k != reasonKey ==> k in r.values && r.values[k] == info.values[k])
  {
    var reason := if reasonKey in info.values then info.values[reasonKey] else VStr("Unknown reason");
    var start := StartRow(path, reason);
    var r := CopyInfo(start, info.keys, info.values, reasonKey);
    assert r == RejectedRow(path, info, reasonKey);
    assert "file_path" in start.values && "reason" in start.values;
    CopyInfoFacts(start, info.keys, info.values, reasonKey);
    assert "file_path" in r.values && "reason" in r.values;
  }

  /** The rows of the rejected report, one per rejected path in the
      dictionary's order. */
  function RejectedRows(rejected: Dict<Dict<Value>>, reasonKey: string): (rows: seq<Dict<Value>>)
    ensures |rows| == |rejected.keys|
    ensures forall i :: 0 <= i < |rows| && rejected.keys[i] in rejected.values ==>
      rows[i] == RejectedRow(rejected.keys[i], rejected.values[rejected.keys[i]], reasonKey)
  {
    seq(|rejected.keys|, i requires 0 <= i < |rejected.keys| =>
      RejectedRow(rejected.keys[i],
                  if rejected.keys[i] in rejected.values then rejected.values[rejected.keys[i]] else EmptyDict(),
                  reasonKey))
  }

  /** The outer loop of `generate_rejected_files_report` building the
      rows. */
  method BuildRejectedRows(rejected: Dict<Dict<Value>>, reasonKey: string) returns (reportData: seq<Dict<Value>>)
    ensures reportData == RejectedRows(rejected, reasonKey)
  {
    reportData := [];
    var i := 0;
    while i < |rejected.keys|
      invariant 0 <= i <= |rejected.keys|
      invariant reportData == RejectedRows(rejected, reasonKey)[..i]
    {
      var path := rejected.keys[i];
      var info := if path in rejected.values then rejected.values[path] else EmptyDict();
      var reason := if reasonKey in info.values then info.values[reasonKey] else VStr("Unknown reason");
      var row := CopyRowInfo(StartRow(path, reason), info, reasonKey);
      RowsPrefixStep(rejected, reasonKey, i);
      reportData := reportData + [row];
      i := i + 1;
    }
  }

  /** The rows up to the `i`-th, extended by the `i`-th. */
  lemma RowsPrefixStep(rejected: Dict<Dict<Value>>, reasonKey: string, i: nat)
    requires i < |rejected.keys|
    ensures var path := rejected.keys[i];
      var info := if path in rejected.values then rejected.values[path] else EmptyDict();
      RejectedRows(rejected, reasonKey)[..i + 1] ==
        RejectedRows(rejected, reasonKey)[..i] + [RejectedRow(path, info, reasonKey)]
  {
    var rows := RejectedRows(rejected, reasonKey);
    assert rows[..i + 1] == rows[..i] + [rows[i]];
  }

  /** The inner loop of `generate_rejected_files_report`: the info keys
      other than the reason key, copied after the row's first columns. */
  method CopyRowInfo(start: Dict<Value>, info: Dict<Value>, reasonKey: string) returns (row: Dict<Value>)
    ensures row == CopyInfo(start, info.keys, info.values, reasonKey)
  {
    row := start;
    var j := 0;
    while j < |info.keys|
      invariant 0 <= j <= |info.keys|
      invariant row == CopyInfo(start, info.keys[..j], info.values, reasonKey)
    {
      assert info.keys[..j + 1][..j] == info.keys[..j];
      var key := info.keys[j];
      if key != reasonKey && key in info.values {
        row := Put(row, key, info.values[key]);
      }
      j := j + 1;
    }
    assert info.keys[..|info.keys|] == info.keys;
  }

  /** `generate_rejected_files_report(rejected_files, reason_key)`. */
  function GenerateRejectedFilesReport(fs: FileSystem, reportDir: string, rejected: Dict<Dict<Value>>,
                                       reasonKey: string, stamp: string): Result<(FileSystem, Option<string>)>
  {
    GenerateCsvReport(fs, reportDir, RejectedRows(rejected, reasonKey), "rejected_files", stamp)
  }

  // ------------------------------------------------------------ summary

  /** `generate_summary_report(batch_results, output_path)`: the results
      plus `generated_at`, written to the given path or to
      `<report_dir>/batch_summary_<stamp>.json`. */
  function GenerateSummaryReport(fs: FileSystem, reportDir: string, results: Dict<Value>,
                                 outputPath: Option<string>, stamp: string): Result<(FileSystem, string)>
  {
    var path := if outputPath.None? || outputPath.value == "" then Join(reportDir, "batch_summary_" + stamp + ".json")
                else outputPath.value;
    var made := MakeDirs(fs, Dirname(path));
    if made.Err? then Err(made.error)
    else if IsDir(made.value, path) then Err("[Errno 21] Is a directory: '" + path + "'")
    else Ok((made.value[path := File(Document(Put(results, "generated_at", VStr(stamp))))], path))
  }

  /** The written summary holds every result key with its value, except
      that `generated_at` is the stamp, and keeps the results' key order
      with `generated_at` at the end when it is new. */
  lemma SummaryReportFacts(fs: FileSystem, reportDir: string, results: Dict<Value>,
                           outputPath: Option<string>, stamp: string)
    requires DictValid(results)
    ensures var r := GenerateSummaryReport(fs, reportDir, results, outputPath, stamp);
      r.Ok? ==>
        IsFile(r.value.0, r.value.1) && r.value.0[r.value.1].content.Document? &&
        var doc := r.value.0[r.value.1].content.fields;
        DictValid(doc) &&
        doc.values["generated_at"] == VStr(stamp) &&
        (forall k :: k in doc.values <==> k in results.values || k == "generated_at") &&
        (forall k :: k in results.values && k != "generated_at" ==> doc.values[k] == results.values[k]) &&
        (doc.keys == results.keys || doc.keys == results.keys + ["generated_at"])
    ensures outputPath.Some? && outputPath.value != "" && GenerateSummaryReport(fs, reportDir, results, outputPath, stamp).Ok? ==>
      GenerateSummaryReport(fs, reportDir, results, outputPath, stamp).value.1 == outputPath.value
  {
  }
}
