/** The analysis phase: describes each image (dimensions, format, size,
    whether it reaches the minimum resolution, its aspect class) and sums
    the descriptions up. */
module Analyzer {
  import opened Common
  import opened Text
  import opened Paths
  import opened Files
  import Filter

  /** What `analyze_image` returns: the "File not found" entry, the entry
      for a file the image library cannot open, or the description. The
      aspect class is absent when the ratio is not positive. */
  datatype Analysis =
    | NotFound(path: string)
    | Unopened(path: string, error: string)
    | Analysed(path: string, width: int, height: int, format: string, fileSize: int,
               meetsMinResolution: bool, aspectType: Option<string>)

  /** The error text for a file the image library does not open. */
  function OpenError(e: Entry): string
  {
    if e.File? && e.content.Unreadable? then e.content.reason
    else if e.Dir? then "[Errno 21] Is a directory"
    else "cannot identify image file"
  }

  /** The aspect class of a `width` by `height` image, from the ratio
      rounded to three decimals (zero when the height is not positive):
      "square" for a rounded ratio within 0.9..1.1, "landscape" above it,
      "portrait" below it, and none when the rounded ratio is not
      positive. In exact terms, with ties of the rounding going to the
      even neighbour: */
  function AspectType(width: int, height: int): (r: Option<string>)
    ensures r.Some? <==> height > 0 && 2000 * width > height
    ensures r == Some("square") <==> height > 0 && 1799 * height <= 2000 * width <= 2201 * height
    ensures r == Some("landscape") <==> height > 0 && 2000 * width > 2201 * height
    ensures r == Some("portrait") <==> height > 0 && height < 2000 * width < 1799 * height
  {
    if height <= 0 then None
    else
      var milli := RoundDiv(1000 * width, height);
      RoundDivAtLeast(1000 * width, height, 1);
      RoundDivAtLeast(1000 * width, height, 900);
      RoundDivAtLeast(1000 * width, height, 1101);
      if milli <= 0 then None
      else if 900 <= milli <= 1100 then Some("square")
      else if milli > 1100 then Some("landscape")
      else Some("portrait")
  }

  /** `round(n / d)` reaches `m` exactly when `n / d` is above `m - 1/2`,
      or equal to it with `m` even. */
  lemma RoundDivAtLeast(n: int, d: int, m: int)
    requires d > 0
    ensures RoundDiv(n, d) >= m <==> 2 * n > (2 * m - 1) * d || (2 * n == (2 * m - 1) * d && m % 2 == 0)
  {
    var r := RoundDiv(n, d);
    MulDistributes(r, m, d);
    MulSteps(r - m, d);
    var t := (r - m) * d;
    assert r * d == m * d + t;
    assert (2 * m - 1) * d == 2 * (m * d) - d;
  }

  lemma MulDistributes(a: int, b: int, d: int)
    ensures a * d == b * d + (a - b) * d
  {
  }

  /** The multiples of a positive `d` by `k` around zero. */
  lemma MulSteps(k: int, d: int)
    requires d > 0
    ensures k >= 1 ==> k * d >= d
    ensures k == 0 ==> k * d == 0
    ensures k == -1 ==> k * d == -d
    ensures k <= -2 ==> k * d <= -2 * d
  {
    if k >= 1 {
      assert k * d == (k - 1) * d + d;
      MulNonNegative(k - 1, d);
    } else if k <= -2 {
      assert k * d == -((-k - 2) * d) - 2 * d;
      MulNonNegative(-k - 2, d);
    }
  }

  lemma MulNonNegative(a: int, d: int)
    requires a >= 0 && d > 0
    ensures a * d >= 0
  {
  }

  /** `analyze_image(image_path)`. */
  function AnalyzeImage(fs: FileSystem, p: string, minRes: int): Analysis
  {
    if p !in fs then NotFound(p)
    else if !IsValidImage(fs, p) then Unopened(p, OpenError(fs[p]))
    else
      var c := fs[p].content;
      Analysed(p, c.width, c.height, c.format, c.size,
               c.width >= minRes && c.height >= minRes, AspectType(c.width, c.height))
  }

  /** The analyser's resolution flag is the filter's criterion: an image
      is flagged exactly when the filter would keep it. */
  lemma FlagIsFilterCriterion(fs: FileSystem, p: string, minRes: int)
    ensures var a := AnalyzeImage(fs, p, minRes);
      (a.Analysed? && a.meetsMinResolution) <==> Filter.MeetsCriteria(fs, p, minRes)
    ensures AnalyzeImage(fs, p, minRes).NotFound? <==> p !in fs
  {
  }

  /** The loop of `process` from the remaining inputs on. */
  function AnalyzeSteps(results: Dict<Analysis>, files: seq<string>, fs: FileSystem, minRes: int): Dict<Analysis>
    decreases |files|
  {
    if files == [] then results
    else AnalyzeSteps(Put(results, files[0], AnalyzeImage(fs, files[0], minRes)), files[1..], fs, minRes)
  }

  /** `process(file_paths)`: a dictionary input is given as its values. */
  method Process(fs: FileSystem, paths: seq<string>, minRes: int) returns (results: Dict<Analysis>)
    ensures results == AnalyzeSteps(EmptyDict(), paths, fs, minRes)
  {
    results := EmptyDict();
    var completed := 0;
    while completed < |paths|
      invariant 0 <= completed <= |paths|
      invariant AnalyzeSteps(results, paths[completed..], fs, minRes) == AnalyzeSteps(EmptyDict(), paths, fs, minRes)
    {
      assert paths[completed..][1..] == paths[completed + 1..];
      results := Put(results, paths[completed], AnalyzeImage(fs, paths[completed], minRes));
      completed := completed + 1;
    }
  }

  /** Every input gets its analysis as the value, earlier keys are kept,
      and each new key is added once. */
  lemma {:induction false} AnalyzeStepsFacts(results: Dict<Analysis>, files: seq<string>, fs: FileSystem, minRes: int)
    requires DictValid(results)
    requires forall k :: k in results.values ==> results.values[k] == AnalyzeImage(fs, k, minRes)
    ensures var r := AnalyzeSteps(results, files, fs, minRes);
      DictValid(r) &&
      (forall k :: k in r.values <==> k in results.values || k in files) &&
      (forall k :: k in r.values ==> r.values[k] == AnalyzeImage(fs, k, minRes)) &&
      |r.keys| <= |results.keys| + |files| &&
      (Distinct(files) && (forall k :: k in files ==> k !in results.values) ==>
        |r.keys| == |results.keys| + |files|)
    decreases |files|
  {
    if files != [] {
      var next := Put(results, files[0], AnalyzeImage(fs, files[0], minRes));
      assert AnalyzeSteps(results, files, fs, minRes) == AnalyzeSteps(next, files[1..], fs, minRes);
      AnalyzeStepsFacts(next, files[1..], fs, minRes);
      forall k | k in files[1..] ensures k in files {
      }
      if Distinct(files) && (forall k :: k in files ==> k !in results.values) {
        FreshTail(results, files, AnalyzeImage(fs, files[0], minRes));
      }
    }
  }

  /** Distinct inputs none of which is a key yet stay so after the first
      is added. */
  lemma FreshTail<V>(results: Dict<V>, files: seq<string>, v: V)
    requires files != [] && Distinct(files) && (forall k :: k in files ==> k !in results.values)
    ensures files[0] !in results.values
    ensures Distinct(files[1..]) && forall k :: k in files[1..] ==> k !in Put(results, files[0], v).values
  {
    var next := Put(results, files[0], v);
    assert files[0] in files;
    assert Distinct(files[1..]) by {
      forall i, j | 0 <= i < j < |files[1..]| ensures files[1..][i] != files[1..][j] {
        assert files[1..][i] == files[i + 1] && files[1..][j] == files[j + 1];
      }
    }
    forall k | k in files[1..] ensures k !in next.values {
      var i :| 0 <= i < |files[1..]| && files[1..][i] == k;
      assert files[i + 1] == k && files[0] != files[i + 1];
      assert k in files;
    }
  }

  /** `process` has one entry per distinct input, holding that input's
      analysis. */
  lemma ProcessFacts(fs: FileSystem, paths: seq<string>, minRes: int)
    ensures var r := AnalyzeSteps(EmptyDict(), paths, fs, minRes);
      DictValid(r) &&
      (forall k :: k in r.values <==> k in paths) &&
      (forall k :: k in r.values ==> r.values[k] == AnalyzeImage(fs, k, minRes)) &&
      |r.keys| <= |paths| &&
      (Distinct(paths) ==> |r.keys| == |paths|)
  {
    AnalyzeStepsFacts(EmptyDict(), paths, fs, minRes);
  }

  // ------------------------------------------------------------ statistics

  /** The count held for `k`, 0 when there is none. */
  function CountOf(m: map<string, nat>, k: string): nat
  {
    if k in m then m[k] else 0
  }

  /** Sum of the counts of a counting dictionary, in key order. */
  function CountTotal(keys: seq<string>, m: map<string, nat>): nat
  {
    if keys == [] then 0
    else CountTotal(keys[..|keys| - 1], m) + CountOf(m, keys[|keys| - 1])
  }

  /** `d[k] = d.get(k, 0) + 1`. */
  function Bump(d: Dict<nat>, k: string): Dict<nat>
  {
    Put(d, k, CountOf(d.values, k) + 1)
  }

  lemma {:induction false} CountTotalOther(keys: seq<string>, m: map<string, nat>, k: string, v: nat)
    requires k !in keys
    ensures CountTotal(keys, m[k := v]) == CountTotal(keys, m)
  {
    if keys != [] {
      CountTotalOther(keys[..|keys| - 1], m, k, v);
      assert keys[|keys| - 1] in keys;
    }
  }

  lemma {:induction false} CountTotalUpdate(keys: seq<string>, m: map<string, nat>, k: string, v: nat)
    requires Distinct(keys) && k in keys
    ensures CountTotal(keys, m[k := v]) + CountOf(m, k) == CountTotal(keys, m) + v
  {
    var init := keys[..|keys| - 1];
    var last := keys[|keys| - 1];
    assert keys == init + [last];
    if last == k {
      assert k !in init;
      CountTotalOther(init, m, k, v);
    } else {
      assert k in init;
      assert Distinct(init) by {
        forall i, j | 0 <= i < j < |init| ensures init[i] != init[j] {
          assert init[i] == keys[i] && init[j] == keys[j];
        }
      }
      CountTotalUpdate(init, m, k, v);
    }
  }

  /** One more count adds one to the total. */
  lemma BumpTotal(d: Dict<nat>, k: string)
    requires DictValid(d)
    ensures DictValid(Bump(d, k))
    ensures CountTotal(Bump(d, k).keys, Bump(d, k).values) == CountTotal(d.keys, d.values) + 1
  {
    var v := CountOf(d.values, k) + 1;
    if k in d.values {
      CountTotalUpdate(d.keys, d.values, k, v);
    } else {
      var ks := d.keys + [k];
      assert ks[..|ks| - 1] == d.keys;
      CountTotalOther(d.keys, d.values, k, v);
    }
  }

  /** The counters `calculate_statistics` keeps while it walks the results. */
  datatype Tally = Tally(meetResolution: nat, failed: nat, totalWidth: int, totalHeight: int, totalSize: int,
                         formats: Dict<nat>, aspectTypes: Dict<nat>)

  /** One entry of the walk: errors are only counted. */
  function AddEntry(t: Tally, a: Analysis): Tally
  {
    if !a.Analysed? then t.(failed := t.failed + 1)
    else
      Tally(t.meetResolution + (if a.meetsMinResolution then 1 else 0),
            t.failed,
            t.totalWidth + a.width, t.totalHeight + a.height, t.totalSize + a.fileSize,
            Bump(t.formats, a.format),
            Bump(t.aspectTypes, if a.aspectType.Some? then a.aspectType.value else "unknown"))
  }

  /** The walk over the results in key order. */
  function TallySteps(t: Tally, keys: seq<string>, m: map<string, Analysis>): Tally
    decreases |keys|
  {
    if keys == [] then t
    else TallySteps(if keys[0] in m then AddEntry(t, m[keys[0]]) else t, keys[1..], m)
  }

  /** How many of the keys hold an error entry, and how many a description. */
  function ErrorCount(keys: seq<string>, m: map<string, Analysis>): nat
  {
    if keys == [] then 0
    else (if keys[0] in m && !m[keys[0]].Analysed? then 1 else 0) + ErrorCount(keys[1..], m)
  }

  function ValidCount(keys: seq<string>, m: map<string, Analysis>): nat
  {
    if keys == [] then 0
    else (if keys[0] in m && m[keys[0]].Analysed? then 1 else 0) + ValidCount(keys[1..], m)
  }

  /** What the walk adds up: the errors, at most one resolution count per
      description, and one format and one aspect count per description. */
  lemma {:induction false} TallyFacts(t: Tally, keys: seq<string>, m: map<string, Analysis>)
    requires DictValid(t.formats) && DictValid(t.aspectTypes)
    ensures var r := TallySteps(t, keys, m);
      DictValid(r.formats) && DictValid(r.aspectTypes) &&
      r.failed == t.failed + ErrorCount(keys, m) &&
      r.meetResolution <= t.meetResolution + ValidCount(keys, m) &&
      CountTotal(r.formats.keys, r.formats.values) == CountTotal(t.formats.keys, t.formats.values) + ValidCount(keys, m) &&
      CountTotal(r.aspectTypes.keys, r.aspectTypes.values) ==
        CountTotal(t.aspectTypes.keys, t.aspectTypes.values) + ValidCount(keys, m)
    decreases |keys|
  {
    if keys != [] {
      if keys[0] in m && m[keys[0]].Analysed? {
        var a := m[keys[0]];
        BumpTotal(t.formats, a.format);
        BumpTotal(t.aspectTypes, if a.aspectType.Some? then a.aspectType.value else "unknown");
        TallyFacts(AddEntry(t, a), keys[1..], m);
      } else if keys[0] in m {
        TallyFacts(AddEntry(t, m[keys[0]]), keys[1..], m);
      } else {
        TallyFacts(t, keys[1..], m);
      }
    }
  }

  /** Every key of a well-formed dictionary holds either an error or a
      description. */
  lemma {:induction false} CountsCover(keys: seq<string>, m: map<string, Analysis>)
    requires forall k :: k in keys ==> k in m
    ensures ErrorCount(keys, m) + ValidCount(keys, m) == |keys|
  {
    if keys != [] {
      assert keys[0] in keys;
      forall k | k in keys[1..] ensures k in m {
        assert k in keys;
      }
      CountsCover(keys[1..], m);
    }
  }

  /** Python's `round(n / d)` for a positive `d`: to the nearest integer,
      halves to the even neighbour. */
  function RoundDiv(n: int, d: int): (r: int)
    requires d > 0
    ensures 2 * (n - r * d) <= d && 2 * (r * d - n) <= d
    ensures 2 * (n - r * d) == d || 2 * (r * d - n) == d ==> r % 2 == 0
  {
    var q := n / d;
    var rem := n % d;
    assert n == q * d + rem;
    assert (q + 1) * d == q * d + d;
    if 2 * rem > d then q + 1
    else if 2 * rem < d then q
    else if q % 2 == 0 then q else q + 1
  }

  /** What `calculate_statistics` returns. The percentage and megabyte
      averages are floating point and not part of this model. */
  datatype Statistics = Statistics(total: nat, meetResolution: nat, failed: nat,
                                   totalWidth: int, totalHeight: int, totalSize: int,
                                   formats: Dict<nat>, aspectTypes: Dict<nat>,
                                   avgWidth: int, avgHeight: int)

  /** `calculate_statistics(analysis_results)`, the loop over the items. */
  method CalculateStatistics(results: Dict<Analysis>) returns (stats: Statistics)
    ensures var t := TallySteps(Tally(0, 0, 0, 0, 0, EmptyDict(), EmptyDict()), results.keys, results.values);
      var valid := |results.keys| - t.failed;
      stats == Statistics(|results.keys|, t.meetResolution, t.failed, t.totalWidth, t.totalHeight, t.totalSize,
                          t.formats, t.aspectTypes,
                          if valid > 0 then RoundDiv(t.totalWidth, valid) else 0,
                          if valid > 0 then RoundDiv(t.totalHeight, valid) else 0)
  {
    var t := Tally(0, 0, 0, 0, 0, EmptyDict(), EmptyDict());
    var i := 0;
    while i < |results.keys|
      invariant 0 <= i <= |results.keys|
      invariant TallySteps(t, results.keys[i..], results.values) ==
        TallySteps(Tally(0, 0, 0, 0, 0, EmptyDict(), EmptyDict()), results.keys, results.values)
    {
      assert results.keys[i..][1..] == results.keys[i + 1..];
      var k := results.keys[i];
      if k in results.values {
        t := AddEntry(t, results.values[k]);
      }
      i := i + 1;
    }
    var valid := |results.keys| - t.failed;
    stats := Statistics(|results.keys|, t.meetResolution, t.failed, t.totalWidth, t.totalHeight, t.totalSize,
                        t.formats, t.aspectTypes,
                        if valid > 0 then RoundDiv(t.totalWidth, valid) else 0,
                        if valid > 0 then RoundDiv(t.totalHeight, valid) else 0);
  }

  /** The statistics of well-formed results: `total` counts the entries,
      `failed` the error entries, `meet_resolution` is at most the number
      of descriptions, the format counts and the aspect counts each add up
      to that number, and the averages are 0 when there is none. */
  lemma StatisticsFacts(results: Dict<Analysis>)
    requires DictValid(results)
    ensures var t := TallySteps(Tally(0, 0, 0, 0, 0, EmptyDict(), EmptyDict()), results.keys, results.values);
      var valid := |results.keys| - t.failed;
      t.failed == ErrorCount(results.keys, results.values) &&
      t.failed <= |results.keys| &&
      t.meetResolution <= valid &&
      CountTotal(t.formats.keys, t.formats.values) == valid &&
      CountTotal(t.aspectTypes.keys, t.aspectTypes.values) == valid &&
      (valid == 0 ==> ValidCount(results.keys, results.values) == 0)
  {
    var empty := Tally(0, 0, 0, 0, 0, EmptyDict(), EmptyDict());
    TallyFacts(empty, results.keys, results.values);
    CountsCover(results.keys, results.values);
  }
}
