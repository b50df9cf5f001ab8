/** `BatchProcessor.compare_batches`: two JSON batch reports compared stat
    by stat. Reports are read from the filesystem as JSON objects; the
    clock reading is a parameter. */
module BatchComparison {
  import opened Common
  import opened Text
  import opened Paths
  import opened Files

  /** The stats compared, in order. */
  const NumericStats: seq<string> := ["total_images", "processed_images", "filtered_out",
                                        "avg_width", "avg_height", "output_size"]

  /** Whether Python arithmetic treats the value as a number. */
  predicate IsNumber(v: Value)
  {
    v.VInt? || v.VBool? || v.VReal?
  }

  function AsInt(v: Value): int
    requires v.VInt? || v.VBool?
  {
    if v.VInt? then v.i else if v.b then 1 else 0
  }

  function AsReal(v: Value): real
    requires IsNumber(v)
  {
    if v.VReal? then v.r else AsInt(v) as real
  }

  /** Python's `x - y`: an integer for integers (booleans count as 0 and
      1), a float when either is a float, and a `TypeError` otherwise. */
  function Sub(x: Value, y: Value): (r: Option<Value>)
    ensures r.Some? <==> IsNumber(x) && IsNumber(y)
    ensures (x.VInt? || x.VBool?) && (y.VInt? || y.VBool?) ==> r == Some(VInt(AsInt(x) - AsInt(y)))
  {
    if !IsNumber(x) || !IsNumber(y) then None
    else if x.VReal? || y.VReal? then Some(VReal(AsReal(x) - AsReal(y)))
    else Some(VInt(AsInt(x) - AsInt(y)))
  }

  /** Swapping the operands negates the difference. */
  lemma SubAntisymmetric(x: Value, y: Value)
    requires IsNumber(x) && IsNumber(y)
    ensures Sub(y, x).value == Negate(Sub(x, y).value)
  {
  }

  function Negate(v: Value): Value
  {
    match v
    case VInt(i) => VInt(-i)
    case VReal(r) => VReal(-r)
    case _ => v
  }

  // ------------------------------------------------------------ numeric stats

  /** The `<stat>_diff` entries for the stats present in both reports,
      in order; `None` when a subtraction raises. */
  function StatDiffs(d: Dict<Value>, stats1: map<string, Value>, stats2: map<string, Value>, names: seq<string>): Option<Dict<Value>>
  {
    if names == [] then Some(d)
    else
      match StatDiffs(d, stats1, stats2, names[..|names| - 1])
      case None => None
      case Some(before) =>
        var stat := names[|names| - 1];
        if stat in stats1 && stat in stats2 then
          match Sub(stats2[stat], stats1[stat])
          case None => None
          case Some(v) => Some(Put(before, DiffKey(stat), v))
        else Some(before)
  }

  /** The entry name `<stat>_diff`. */
  function DiffKey(stat: string): string
  {
    stat + "_diff"
  }

  /** Distinct stats have distinct `<stat>_diff` keys. */
  lemma DiffKeyInjective(a: string, b: string)
    requires DiffKey(a) == DiffKey(b)
    ensures a == b
  {
    assert a == DiffKey(a)[..|a|];
    assert b == DiffKey(b)[..|b|];
  }

  /** The differences fail exactly when a stat present in both is not a
      number in one of them. */
  lemma {:induction false} StatDiffsDefined(d: Dict<Value>, stats1: map<string, Value>, stats2: map<string, Value>,
                                            names: seq<string>)
    ensures StatDiffs(d, stats1, stats2, names).Some? <==>
      forall s :: s in names && s in stats1 && s in stats2 ==> IsNumber(stats1[s]) && IsNumber(stats2[s])
  {
    if names != [] {
      var init := names[..|names| - 1];
      assert names == init + [names[|names| - 1]];
      StatDiffsDefined(d, stats1, stats2, init);
    }
  }

  /** `r` holds the entries of `d` and, for each of `names` present in
      both stats, the entry `<stat>_diff` with the second value minus the
      first, and nothing else. */
  ghost predicate DiffsCover(d: Dict<Value>, r: Dict<Value>, stats1: map<string, Value>, stats2: map<string, Value>,
                             names: seq<string>)
  {
    DictValid(r) &&
    (forall k :: k in d.values ==> k in r.values && r.values[k] == d.values[k]) &&
    (forall s :: s in names ==> (DiffKey(s) in r.values <==> s in stats1 && s in stats2)) &&
    (forall s :: s in names && s in stats1 && s in stats2 ==> Sub(stats2[s], stats1[s]) == Some(r.values[DiffKey(s)])) &&
    (forall k :: k in r.values ==> k in d.values || exists s :: s in names && k == DiffKey(s))
  }

  /** When the differences are defined they cover the stats: every stat
      present in both has the entry `<stat>_diff` equal to the second value
      minus the first, the stats missing from either have none, earlier
      entries stay, and nothing else is added. */
  lemma {:induction false} StatDiffsFacts(d: Dict<Value>, stats1: map<string, Value>, stats2: map<string, Value>,
                                          names: seq<string>)
    requires DictValid(d)
    requires forall k :: k in d.values ==> forall s :: s in names ==> k != DiffKey(s)
    ensures var r := StatDiffs(d, stats1, stats2, names);
      r.Some? ==> DiffsCover(d, r.value, stats1, stats2, names)
  {
    if names != [] {
      var init := names[..|names| - 1];
      var stat := names[|names| - 1];
      assert names == init + [stat];
      StatDiffsFacts(d, stats1, stats2, init);
      var prev := StatDiffs(d, stats1, stats2, init);
      if prev.Some? && (stat in stats1 && stat in stats2 ==> Sub(stats2[stat], stats1[stat]).Some?) {
        StatDiffsStep(d, stats1, stats2, init, stat, prev.value);
      }
    }
  }

  /** One stat added to the differences of the ones before it. */
  lemma StatDiffsStep(d: Dict<Value>, stats1: map<string, Value>, stats2: map<string, Value>,
                      init: seq<string>, stat: string, p: Dict<Value>)
    requires DiffsCover(d, p, stats1, stats2, init)
    requires forall k :: k in d.values ==> k != DiffKey(stat)
    requires stat in stats1 && stat in stats2 ==> Sub(stats2[stat], stats1[stat]).Some?
    ensures var r := if stat in stats1 && stat in stats2
                     then Put(p, DiffKey(stat), Sub(stats2[stat], stats1[stat]).value)
                     else p;
      DiffsCover(d, r, stats1, stats2, init + [stat])
  {
    forall s | s in init && s != stat ensures DiffKey(s) != DiffKey(stat) {
      if DiffKey(s) == DiffKey(stat) {
        DiffKeyInjective(s, stat);
      }
    }
    assert forall s :: s in init + [stat] <==> s in init || s == stat;
    if stat in stats1 && stat in stats2 {
      assert DiffKey(stat) in p.values ==> stat in init by {
        if DiffKey(stat) in p.values {
          var s' :| s' in init && DiffKey(stat) == DiffKey(s');
          DiffKeyInjective(stat, s');
        }
      }
      StatDiffsPut(d, stats1, stats2, init, stat, p, Sub(stats2[stat], stats1[stat]).value);
    }
  }

  /** The case of `StatDiffsStep` where the stat is in both. */
  lemma StatDiffsPut(d: Dict<Value>, stats1: map<string, Value>, stats2: map<string, Value>,
                     init: seq<string>, stat: string, p: Dict<Value>, v: Value)
    requires DiffsCover(d, p, stats1, stats2, init)
    requires forall k :: k in d.values ==> k != DiffKey(stat)
    requires stat in stats1 && stat in stats2 && Sub(stats2[stat], stats1[stat]) == Some(v)
    requires DiffKey(stat) in p.values ==> stat in init
    requires forall s :: s in init && s != stat ==> DiffKey(s) != DiffKey(stat)
    requires forall s :: s in init + [stat] <==> s in init || s == stat
    ensures DiffsCover(d, Put(p, DiffKey(stat), v), stats1, stats2, init + [stat])
  {
  }

  /** The loop filling the `<stat>_diff` entries. */
  method FillStatDiffs(d: Dict<Value>, stats1: map<string, Value>, stats2: map<string, Value>, names: seq<string>)
    returns (r: Option<Dict<Value>>)
    ensures r == StatDiffs(d, stats1, stats2, names)
  {
    var acc := d;
    var i := 0;
    while i < |names|
      invariant 0 <= i <= |names|
      invariant StatDiffs(d, stats1, stats2, names[..i]) == Some(acc)
    {
      assert names[..i + 1][..i] == names[..i];
      var stat := names[i];
      if stat in stats1 && stat in stats2 {
        var diff := Sub(stats2[stat], stats1[stat]);
        if diff.None? {
          FailureStays(d, stats1, stats2, names, i + 1);
          return None;
        }
        acc := Put(acc, DiffKey(stat), diff.value);
      }
      i := i + 1;
    }
    assert names[..|names|] == names;
    r := Some(acc);
  }

  /** Once a subtraction has raised, later stats do not matter. */
  lemma {:induction false} FailureStays(d: Dict<Value>, stats1: map<string, Value>, stats2: map<string, Value>,
                                        names: seq<string>, n: nat)
    requires n <= |names| && StatDiffs(d, stats1, stats2, names[..n]).None?
    ensures StatDiffs(d, stats1, stats2, names).None?
    decreases |names| - n
  {
    if n < |names| {
      assert names[..n + 1][..n] == names[..n];
      FailureStays(d, stats1, stats2, names, n + 1);
    } else {
      assert names[..n] == names;
    }
  }

  // ------------------------------------------------------------ formats

  /** `d.get(fmt, 0)`. */
  function CountOr0(m: map<string, Value>, fmt: string): Value
  {
    if fmt in m then m[fmt] else VInt(0)
  }

  /** The format differences over the union of both batches' formats,
      a missing format counting as 0; `None` when a subtraction raises. */
  function FormatDiffs(f1: map<string, Value>, f2: map<string, Value>): Option<map<string, Value>>
  {
    if forall fmt :: fmt in f1.Keys + f2.Keys ==> Sub(CountOr0(f2, fmt), CountOr0(f1, fmt)).Some? then
      Some(map fmt | fmt in f1.Keys + f2.Keys :: Sub(CountOr0(f2, fmt), CountOr0(f1, fmt)).value)
    else None
  }

  /** The loop over the union of the formats, in whatever order the set
      yields them. */
  method FillFormatDiffs(f1: map<string, Value>, f2: map<string, Value>) returns (r: Option<map<string, Value>>)
    ensures r == FormatDiffs(f1, f2)
  {
    var all := f1.Keys + f2.Keys;
    var remaining := all;
    var acc: map<string, Value> := map[];
    while remaining != {}
      invariant remaining <= all
      invariant acc.Keys == all - remaining
      invariant forall fmt :: fmt in acc ==> Sub(CountOr0(f2, fmt), CountOr0(f1, fmt)) == Some(acc[fmt])
      decreases remaining
    {
      var fmt :| fmt in remaining;
      var diff := Sub(CountOr0(f2, fmt), CountOr0(f1, fmt));
      if diff.None? {
        return None;
      }
      acc := acc[fmt := diff.value];
      remaining := remaining - {fmt};
    }
    assert acc == map fmt | fmt in f1.Keys + f2.Keys :: Sub(CountOr0(f2, fmt), CountOr0(f1, fmt)).value;
    r := Some(acc);
  }

  /** Swapping the two batches negates every format difference and keeps
      the same formats. */
  lemma FormatDiffsSwap(f1: map<string, Value>, f2: map<string, Value>)
    ensures FormatDiffs(f1, f2).Some? <==> FormatDiffs(f2, f1).Some?
    ensures FormatDiffs(f1, f2).Some? ==>
      FormatDiffs(f1, f2).value.Keys == FormatDiffs(f2, f1).value.Keys &&
      forall fmt :: fmt in FormatDiffs(f1, f2).value ==>
        FormatDiffs(f2, f1).value[fmt] == Negate(FormatDiffs(f1, f2).value[fmt])
  {
    var keys := f1.Keys + f2.Keys;
    assert f2.Keys + f1.Keys == keys;
    forall fmt | fmt in keys
      ensures Sub(CountOr0(f2, fmt), CountOr0(f1, fmt)).Some? <==> Sub(CountOr0(f1, fmt), CountOr0(f2, fmt)).Some?
    {
    }
    if FormatDiffs(f1, f2).Some? {
      var m12 := map fmt | fmt in keys :: Sub(CountOr0(f2, fmt), CountOr0(f1, fmt)).value;
      var m21 := map fmt | fmt in keys :: Sub(CountOr0(f1, fmt), CountOr0(f2, fmt)).value;
      assert FormatDiffs(f1, f2) == Some(m12);
      assert FormatDiffs(f2, f1) == Some(m21);
      forall fmt | fmt in keys
        ensures m21[fmt] == Negate(m12[fmt])
      {
        SubAntisymmetric(CountOr0(f2, fmt), CountOr0(f1, fmt));
      }
    }
  }

  // ------------------------------------------------------------ summary

  /** The sign of a number: 1, 0 or -1. */
  function Sign(v: Value): int
  {
    match v
    case VInt(i) => if i > 0 then 1 else if i < 0 then -1 else 0
    case VBool(b) => if b then 1 else 0
    case VReal(r) => if r > 0.0 then 1 else if r < 0.0 then -1 else 0
    case _ => 0
  }

  /** `str(v)` in an f-string, as far as integers, booleans, `None` and
      strings go. */
  function Display(v: Value): string
  {
    match v
    case VStr(s) => s
    case VInt(i) => IntToString(i)
    case VBool(b) => if b then "True" else "False"
    case VNone => "None"
    case _ => "<value>"
  }

  /** `abs(diff)`. */
  function Abs(v: Value): Value
  {
    match v
    case VInt(i) => VInt(if i < 0 then -i else i)
    case VBool(b) => VInt(if b then 1 else 0)
    case VReal(r) => VReal(if r < 0.0 then -r else r)
    case _ => v
  }

  /** The summary lines, from the differences computed. */
  function Summary(diffs: map<string, Value>, id1: Value, id2: Value): (lines: seq<string>)
    ensures |lines| <= 3
  {
    var b2 := "Batch " + Display(id2);
    var total :=
      if DiffKey("total_images") in diffs then
        var d := diffs[DiffKey("total_images")];
        if Sign(d) > 0 then [b2 + " has " + Display(Abs(d)) + " more images than " + Display(id1)]
        else if Sign(d) < 0 then [b2 + " has " + Display(Abs(d)) + " fewer images than " + Display(id1)]
        else []
      else [];
    var processed :=
      if DiffKey("processed_images") in diffs then
        var d := diffs[DiffKey("processed_images")];
        if Sign(d) > 0 then [b2 + " processed " + Display(Abs(d)) + " more images"]
        else if Sign(d) < 0 then [b2 + " processed " + Display(Abs(d)) + " fewer images"]
        else []
      else [];
    var dims :=
      if DiffKey("avg_width") in diffs && DiffKey("avg_height") in diffs then
        var w := Sign(diffs[DiffKey("avg_width")]);
        var h := Sign(diffs[DiffKey("avg_height")]);
        if w > 0 || h > 0 then [b2 + " has larger average image dimensions"]
        else if w < 0 || h < 0 then [b2 + " has smaller average image dimensions"]
        else []
      else [];
    total + processed + dims
  }

  // ------------------------------------------------------------ the comparison

  /** The comparison returned: the two reports by batch id (one entry
      when the ids coincide), the clock reading, the `<stat>_diff`
      entries, the format differences when both reports have formats,
      and the summary. Percentage changes are floats and not modelled. */
  datatype Comparison = Comparison(batches: seq<(Value, Dict<Value>)>, timestamp: string, diffs: Dict<Value>,
                                   formatDifferences: Option<map<string, Value>>, summary: seq<string>)

  /** A report as `json.load` reads it: a JSON object in a file. */
  function Load(fs: FileSystem, p: string): Option<Dict<Value>>
  {
    if IsFile(fs, p) && fs[p].content.Document? then Some(fs[p].content.fields) else None
  }

  predicate Hashable(v: Value)
  {
    !v.VList? && !v.VMap?
  }

  /** Python's `key in v` for the stats of a report: key membership for
      an object, element membership for a list, a substring test for a
      string; `None` (a `TypeError`) for a number, a boolean or null. */
  function Has(v: Value, key: string): (r: Option<bool>)
    ensures r.None? <==> !(v.VMap? || v.VList? || v.VStr?)
    ensures v.VMap? ==> r == Some(key in v.m)
    ensures v.VList? ==> r == Some(VStr(key) in v.items)
  {
    match v
    case VMap(m) => Some(key in m)
    case VList(xs) => Some(VStr(key) in xs)
    case VStr(s) => Some(Contains(s, key))
    case _ => None
  }

  /** `key in stats1 and key in stats2`: the second test is made only when
      the first holds. */
  function HasBoth(v1: Value, v2: Value, key: string): (r: Option<bool>)
    ensures Has(v1, key) == Some(false) ==> r == Some(false)
    ensures Has(v1, key) == Some(true) ==> r == Has(v2, key)
    ensures Has(v1, key).None? ==> r.None?
  {
    match Has(v1, key)
    case None => None
    case Some(false) => Some(false)
    case Some(true) => Has(v2, key)
  }

  /** Every key the comparison looks up in both stats. */
  const StatsKeys: seq<string> := NumericStats + ["formats"]

  /** The comparison entries before any difference: the clock reading. */
  function StartDiffs(stamp: string): (d: Dict<Value>)
    ensures DictValid(d) && d.keys == ["timestamp"] && d.values == map["timestamp" := VStr(stamp)]
  {
    Dict(["timestamp"], map["timestamp" := VStr(stamp)])
  }

  /** The comparison of two loaded reports, before it is written; `None`
      for anything that raises. When either report's stats is not an
      object, the membership tests still run: a test that raises, or a key
      found in both (whose lookup then raises), gives `None`, and otherwise
      nothing is compared and the summary is empty. */
  function Compare(batch1: Dict<Value>, batch2: Dict<Value>, stamp: string): Option<Comparison>
  {
    if !("batch_id" in batch1.values && "batch_id" in batch2.values) then None
    else if !("stats" in batch1.values && "stats" in batch2.values) then None
    else
      var s1 := batch1.values["stats"];
      var s2 := batch2.values["stats"];
      var id1 := batch1.values["batch_id"];
      var id2 := batch2.values["batch_id"];
      if !Hashable(id1) || !Hashable(id2) then None
      else
        var batches := if id1 == id2 then [(id1, batch2)] else [(id1, batch1), (id2, batch2)];
        if !(s1.VMap? && s2.VMap?) then
          if forall k :: k in StatsKeys ==> HasBoth(s1, s2, k) == Some(false)
          then Some(Comparison(batches, stamp, StartDiffs(stamp), None, []))
          else None
        else
          match StatDiffs(StartDiffs(stamp), s1.m, s2.m, NumericStats)
          case None => None
          case Some(diffs) => WithFormats(batches, stamp, diffs, s1.m, s2.m, id1, id2)
  }

  /** The rest of the comparison once the stat differences are in: the
      format differences when both reports have formats, then the
      summary. */
  function WithFormats(batches: seq<(Value, Dict<Value>)>, stamp: string, diffs: Dict<Value>,
                       s1: map<string, Value>, s2: map<string, Value>, id1: Value, id2: Value): (c: Option<Comparison>)
    ensures c.Some? ==> c.value.diffs == diffs && c.value.summary == Summary(diffs.values, id1, id2)
    ensures !("formats" in s1 && "formats" in s2) ==> c.Some? && c.value.formatDifferences.None?
  {
    if "formats" in s1 && "formats" in s2 then
      var f1 := s1["formats"];
      var f2 := s2["formats"];
      if !f1.VMap? || !f2.VMap? then None
      else
        match FormatDiffs(f1.m, f2.m)
        case None => None
        case Some(fd) => Some(Comparison(batches, stamp, diffs, Some(fd), Summary(diffs.values, id1, id2)))
    else Some(Comparison(batches, stamp, diffs, None, Summary(diffs.values, id1, id2)))
  }

  /** `comparison_<id1>_<id2>.json` beside the first report. */
  function ComparisonPath(report1: string, id1: Value, id2: Value): string
  {
    Join(Dirname(report1), "comparison_" + Display(id1) + "_" + Display(id2) + ".json")
  }

  /** `compare_batches(batch1_report, batch2_report)`: the comparison,
      also written beside the first report; `None` for a report that
      cannot be read, lacks `batch_id` or `stats`, or anything else that
      raises. */
  function CompareBatches(fs: FileSystem, report1: string, report2: string, stamp: string)
    : Option<(FileSystem, Comparison)>
  {
    match (Load(fs, report1), Load(fs, report2))
    case (Some(b1), Some(b2)) =>
      (match Compare(b1, b2, stamp)
       case None => None
       case Some(c) =>
         var path := ComparisonPath(report1, b1.values["batch_id"], b2.values["batch_id"]);
         if IsDir(fs, path) then None
         else Some((fs[path := File(Document(ComparisonDocument(c)))], c)))
    case _ => None
  }

  /** The written comparison: `batches` and `comparison` objects. */
  function ComparisonDocument(c: Comparison): Dict<Value>
  {
    var batches := BatchesMap(c.batches);
    var cmp := c.diffs.values +
      (if c.formatDifferences.Some? then map["format_differences" := VMap(c.formatDifferences.value)] else map[]) +
      map["summary" := VList(seq(|c.summary|, i requires 0 <= i < |c.summary| => VStr(c.summary[i])))];
    Dict(["batches", "comparison"], map["batches" := VMap(batches), "comparison" := VMap(cmp)])
  }

  /** The `batches` object: later entries win on a repeated key. */
  function BatchesMap(entries: seq<(Value, Dict<Value>)>): (m: map<string, Value>)
    ensures forall e :: e in entries ==> Display(e.0) in m
  {
    if entries == [] then map[]
    else
      var last := entries[|entries| - 1];
      BatchesMap(entries[..|entries| - 1])[Display(last.0) := VMap(last.1.values)]
  }

  // ------------------------------------------------------------ properties

  /** A report without `batch_id` or `stats` gives `None`. */
  lemma MissingKeyGivesNone(fs: FileSystem, report1: string, report2: string, stamp: string)
    requires Load(fs, report1).Some? && Load(fs, report2).Some?
    requires var b1 := Load(fs, report1).value; var b2 := Load(fs, report2).value;
      "batch_id" !in b1.values || "batch_id" !in b2.values || "stats" !in b1.values || "stats" !in b2.values
    ensures CompareBatches(fs, report1, report2, stamp).None?
  {
  }

  /** An unreadable report gives `None`. */
  lemma UnreadableGivesNone(fs: FileSystem, report1: string, report2: string, stamp: string)
    requires Load(fs, report1).None? || Load(fs, report2).None?
    ensures CompareBatches(fs, report1, report2, stamp).None?
  {
  }

  /** For two well-formed reports the comparison's entries are the stat
      differences, and the comparison fails when they do. */
  lemma CompareUsesStatDiffs(batch1: Dict<Value>, batch2: Dict<Value>, stamp: string)
    requires "batch_id" in batch1.values && "batch_id" in batch2.values
    requires Hashable(batch1.values["batch_id"]) && Hashable(batch2.values["batch_id"])
    requires "stats" in batch1.values && "stats" in batch2.values
    requires batch1.values["stats"].VMap? && batch2.values["stats"].VMap?
    ensures var d := StatDiffs(StartDiffs(stamp), batch1.values["stats"].m, batch2.values["stats"].m, NumericStats);
      var c := Compare(batch1, batch2, stamp);
      (d.None? ==> c.None?) &&
      (c.Some? ==> d.Some? && c.value.diffs == d.value) &&
      (c.Some? ==> c.value.summary == Summary(d.value.values, batch1.values["batch_id"], batch2.values["batch_id"]))
  {
  }

  /** Stats that are not both objects: the comparison fails exactly when a
      membership test raises or a key is found in both, and otherwise has
      no differences, no format differences and an empty summary. */
  lemma CompareOtherStats(batch1: Dict<Value>, batch2: Dict<Value>, stamp: string)
    requires "batch_id" in batch1.values && "batch_id" in batch2.values
    requires Hashable(batch1.values["batch_id"]) && Hashable(batch2.values["batch_id"])
    requires "stats" in batch1.values && "stats" in batch2.values
    requires !(batch1.values["stats"].VMap? && batch2.values["stats"].VMap?)
    ensures var s1 := batch1.values["stats"]; var s2 := batch2.values["stats"];
      var c := Compare(batch1, batch2, stamp);
      (c.Some? <==> forall k :: k in StatsKeys ==> HasBoth(s1, s2, k) == Some(false)) &&
      (c.Some? ==> c.value.diffs == StartDiffs(stamp) && c.value.formatDifferences.None? && c.value.summary == [])
  {
  }

  /** A list of stats naming none of the keys compared is never indexed:
      whatever the other report's stats are, the comparison succeeds with
      no differences. */
  lemma ListStatsCompareToNothing(batch1: Dict<Value>, batch2: Dict<Value>, stamp: string)
    requires "batch_id" in batch1.values && "batch_id" in batch2.values
    requires Hashable(batch1.values["batch_id"]) && Hashable(batch2.values["batch_id"])
    requires "stats" in batch1.values && "stats" in batch2.values
    requires batch1.values["stats"].VList?
    requires forall k :: k in StatsKeys ==> VStr(k) !in batch1.values["stats"].items
    ensures var c := Compare(batch1, batch2, stamp);
      c.Some? && c.value.diffs == StartDiffs(stamp) && c.value.summary == []
  {
    CompareOtherStats(batch1, batch2, stamp);
  }

  /** A stat found in both reports when one of them is not an object
      makes the comparison fail: that report's stats cannot be indexed by
      name. */
  lemma SharedStatInOtherStatsFails(batch1: Dict<Value>, batch2: Dict<Value>, stamp: string, k: string)
    requires "batch_id" in batch1.values && "batch_id" in batch2.values
    requires "stats" in batch1.values && "stats" in batch2.values
    requires !(batch1.values["stats"].VMap? && batch2.values["stats"].VMap?)
    requires k in StatsKeys && HasBoth(batch1.values["stats"], batch2.values["stats"], k) == Some(true)
    ensures Compare(batch1, batch2, stamp).None?
  {
  }

  /** The differences start with the clock reading; for each numeric stat
      the entry `<stat>_diff` exists exactly when both reports have the
      stat, holding the second value minus the first. */
  lemma StartDiffsFacts(stamp: string, s1: map<string, Value>, s2: map<string, Value>)
    ensures var r := StatDiffs(StartDiffs(stamp), s1, s2, NumericStats);
      (r.Some? <==> forall s :: s in NumericStats && s in s1 && s in s2 ==> IsNumber(s1[s]) && IsNumber(s2[s])) &&
      (r.Some? ==>
        DictValid(r.value) && |r.value.keys| >= 1 && r.value.keys[0] == "timestamp" &&
        r.value.values["timestamp"] == VStr(stamp) &&
        forall s :: s in NumericStats ==>
          (DiffKey(s) in r.value.values <==> s in s1 && s in s2) &&
          (s in s1 && s in s2 ==> Sub(s2[s], s1[s]) == Some(r.value.values[DiffKey(s)])))
  {
    var start := StartDiffs(stamp);
    forall k, s | k in start.values && s in NumericStats ensures k != DiffKey(s) {
      assert k == "timestamp";
      assert DiffKey(s)[|DiffKey(s)| - 1] == 'f';
    }
    StatDiffsDefined(start, s1, s2, NumericStats);
    StatDiffsFacts(start, s1, s2, NumericStats);
    StartStays(start, s1, s2, NumericStats);
  }

  /** The first key stays first as entries are added. */
  lemma {:induction false} StartStays(d: Dict<Value>, stats1: map<string, Value>, stats2: map<string, Value>,
                                      names: seq<string>)
    requires |d.keys| >= 1
    ensures var r := StatDiffs(d, stats1, stats2, names);
      r.Some? ==> |r.value.keys| >= 1 && r.value.keys[0] == d.keys[0]
  {
    if names != [] {
      StartStays(d, stats1, stats2, names[..|names| - 1]);
    }
  }

  /** The two reports of the comparison test: 100, 80 and 20 images
      against 120, 100 and 20 give the differences 20, 20 and 0, and the
      summary opens with the 20 extra images. */
  lemma TestReportsExample(stamp: string, s1: map<string, Value>, s2: map<string, Value>, b1: Dict<Value>, b2: Dict<Value>)
    requires s1 == map["total_images" := VInt(100), "processed_images" := VInt(80), "filtered_out" := VInt(20)]
    requires s2 == map["total_images" := VInt(120), "processed_images" := VInt(100), "filtered_out" := VInt(20)]
    requires b1 == Dict(["batch_id", "stats"], map["batch_id" := VStr("batch1"), "stats" := VMap(s1)])
    requires b2 == Dict(["batch_id", "stats"], map["batch_id" := VStr("batch2"), "stats" := VMap(s2)])
    ensures var c := Compare(b1, b2, stamp);
      c.Some? &&
      DiffKey("total_images") in c.value.diffs.values && DiffKey("processed_images") in c.value.diffs.values &&
      DiffKey("filtered_out") in c.value.diffs.values && |c.value.summary| >= 1 &&
      c.value.diffs.values[DiffKey("total_images")] == VInt(20) &&
      c.value.diffs.values[DiffKey("processed_images")] == VInt(20) &&
      c.value.diffs.values[DiffKey("filtered_out")] == VInt(0) &&
      c.value.summary[0] == "Batch " + "batch2" + " has " + "20" + " more images than " + "batch1"
  {
    assert b1.values["stats"] == VMap(s1) && b2.values["stats"] == VMap(s2);
    assert b1.values["batch_id"] == VStr("batch1") && b2.values["batch_id"] == VStr("batch2");
    CompareUsesStatDiffs(b1, b2, stamp);
    ExampleDiffs(stamp, s1, s2);
    var diffs := StatDiffs(StartDiffs(stamp), s1, s2, NumericStats).value.values;
    DisplayTwenty();
    SummaryFirstLine(diffs, VStr("batch1"), VStr("batch2"));
  }

  lemma DisplayTwenty()
    ensures Display(Abs(VInt(20))) == "20"
  {
    assert NatToString(20) == NatToString(2) + [DigitChar(0)];
  }

  /** The stat differences of the comparison test. */
  lemma ExampleDiffs(stamp: string, s1: map<string, Value>, s2: map<string, Value>)
    requires s1 == map["total_images" := VInt(100), "processed_images" := VInt(80), "filtered_out" := VInt(20)]
    requires s2 == map["total_images" := VInt(120), "processed_images" := VInt(100), "filtered_out" := VInt(20)]
    ensures var r := StatDiffs(StartDiffs(stamp), s1, s2, NumericStats);
      r.Some? &&
      DiffKey("total_images") in r.value.values && DiffKey("processed_images") in r.value.values &&
      DiffKey("filtered_out") in r.value.values &&
      r.value.values[DiffKey("total_images")] == VInt(20) &&
      r.value.values[DiffKey("processed_images")] == VInt(20) &&
      r.value.values[DiffKey("filtered_out")] == VInt(0)
  {
    StartDiffsFacts(stamp, s1, s2);
    assert "total_images" in NumericStats && "processed_images" in NumericStats && "filtered_out" in NumericStats;
  }

  /** With more images in the second batch the summary opens with how
      many more. */
  lemma SummaryFirstLine(diffs: map<string, Value>, id1: Value, id2: Value)
    requires DiffKey("total_images") in diffs && Sign(diffs[DiffKey("total_images")]) > 0
    ensures var lines := Summary(diffs, id1, id2);
      |lines| >= 1 &&
      lines[0] == "Batch " + Display(id2) + " has " + Display(Abs(diffs[DiffKey("total_images")])) + " more images than " + Display(id1)
  {
  }

  /** Swapping the two reports negates every stat difference. */
  lemma StatDiffsSwap(stamp: string, s1: map<string, Value>, s2: map<string, Value>)
    ensures var r := StatDiffs(StartDiffs(stamp), s1, s2, NumericStats);
      var q := StatDiffs(StartDiffs(stamp), s2, s1, NumericStats);
      (r.Some? <==> q.Some?) &&
      (r.Some? ==> forall s :: s in NumericStats && s in s1 && s in s2 ==>
        DiffKey(s) in r.value.values && DiffKey(s) in q.value.values &&
        q.value.values[DiffKey(s)] == Negate(r.value.values[DiffKey(s)]))
  {
    StartDiffsFacts(stamp, s1, s2);
    StartDiffsFacts(stamp, s2, s1);
    forall s | s in NumericStats && s in s1 && s in s2 && IsNumber(s1[s]) && IsNumber(s2[s]) {
      SubAntisymmetric(s2[s], s1[s]);
    }
  }

  /** A batch compared with itself: every difference is zero and the
      summary is empty. */
  lemma SelfComparison(stamp: string, stats: map<string, Value>, id: Value)
    requires forall s :: s in NumericStats && s in stats ==> IsNumber(stats[s])
    ensures var r := StatDiffs(StartDiffs(stamp), stats, stats, NumericStats);
      r.Some? &&
      (forall s :: s in NumericStats && s in stats ==> DiffKey(s) in r.value.values && Sign(r.value.values[DiffKey(s)]) == 0) &&
      Summary(r.value.values, id, id) == []
  {
    StartDiffsFacts(stamp, stats, stats);
    var r := StatDiffs(StartDiffs(stamp), stats, stats, NumericStats);
    assert "total_images" in NumericStats && "processed_images" in NumericStats;
    assert "avg_width" in NumericStats && "avg_height" in NumericStats;
  }

  // ------------------------------------------------------------ as a method

  /** The membership tests of both loops and the format test, for stats
      that are not both objects: true when none raises and no key is in
      both. */
  method NoKeyInBoth(s1: Value, s2: Value, keys: seq<string>) returns (clear: bool)
    ensures clear <==> forall k :: k in keys ==> HasBoth(s1, s2, k) == Some(false)
  {
    var i := 0;
    while i < |keys|
      invariant 0 <= i <= |keys|
      invariant forall j :: 0 <= j < i ==> HasBoth(s1, s2, keys[j]) == Some(false)
    {
      if HasBoth(s1, s2, keys[i]) != Some(false) {
        return false;
      }
      i := i + 1;
    }
    return true;
  }

  /** `compare_batches` with its two loops: the numeric stats in order
      and the union of the formats as the set yields it. */
  method CompareReports(fs: FileSystem, report1: string, report2: string, stamp: string)
    returns (r: Option<(FileSystem, Comparison)>)
    ensures r == CompareBatches(fs, report1, report2, stamp)
  {
    var l1 := Load(fs, report1);
    var l2 := Load(fs, report2);
    if l1.None? || l2.None? {
      return None;
    }
    var batch1, batch2 := l1.value, l2.value;
    if !("batch_id" in batch1.values && "batch_id" in batch2.values) || !("stats" in batch1.values && "stats" in batch2.values) {
      return None;
    }
    var s1, s2 := batch1.values["stats"], batch2.values["stats"];
    var id1, id2 := batch1.values["batch_id"], batch2.values["batch_id"];
    if !Hashable(id1) || !Hashable(id2) {
      return None;
    }
    var batches := if id1 == id2 then [(id1, batch2)] else [(id1, batch1), (id2, batch2)];
    var c: Comparison;
    if !(s1.VMap? && s2.VMap?) {
      var clear := NoKeyInBoth(s1, s2, StatsKeys);
      if !clear {
        return None;
      }
      c := Comparison(batches, stamp, StartDiffs(stamp), None, []);
    } else {
      var diffs := FillStatDiffs(StartDiffs(stamp), s1.m, s2.m, NumericStats);
      if diffs.None? {
        return None;
      }
      if "formats" in s1.m && "formats" in s2.m {
        var f1, f2 := s1.m["formats"], s2.m["formats"];
        if !f1.VMap? || !f2.VMap? {
          return None;
        }
        var fd := FillFormatDiffs(f1.m, f2.m);
        if fd.None? {
          return None;
        }
        c := Comparison(batches, stamp, diffs.value, fd, Summary(diffs.value.values, id1, id2));
      } else {
        c := Comparison(batches, stamp, diffs.value, None, Summary(diffs.value.values, id1, id2));
      }
    }
    assert Compare(batch1, batch2, stamp) == Some(c);
    var path := ComparisonPath(report1, id1, id2);
    if IsDir(fs, path) {
      return None;
    }
    r := Some((fs[path := File(Document(ComparisonDocument(c)))], c));
  }
}
