/** The filter phase: keeps the images whose width and height both reach a
    minimum resolution and copies them into an output directory. */
module Filter {
  import opened Common
  import opened Text
  import opened Paths
  import opened Files

  const DefaultMinResolution: int := 800

  /** `min_resolution` from the configuration, defaulting to 800. */
  function MinResolution(configured: Option<int>): int
  {
    if configured.Some? then configured.value else DefaultMinResolution
  }

  /** `meets_criteria(image_path)`: a file the image library cannot open
      (or a missing one) fails the criteria instead of raising. */
  predicate MeetsCriteria(fs: FileSystem, p: string, minRes: int)
  {
    IsValidImage(fs, p) && fs[p].content.width >= minRes && fs[p].content.height >= minRes
  }

  /** The inputs that meet the criteria, in input order. */
  function Accepted(fs: FileSystem, ps: seq<string>, minRes: int): (r: seq<string>)
    ensures |r| <= |ps|
    ensures forall p :: p in r <==> p in ps && MeetsCriteria(fs, p, minRes)
  {
    if ps == [] then []
    else
      assert ps == [ps[0]] + ps[1..];
      (if MeetsCriteria(fs, ps[0], minRes) then [ps[0]] else []) + Accepted(fs, ps[1..], minRes)
  }

  /** `<out>/<basename(p)>` for each `p`, in order. */
  function Outputs(out: string, ps: seq<string>): (r: seq<string>)
    ensures |r| == |ps|
    ensures forall i :: 0 <= i < |ps| ==> r[i] == Join(out, Basename(ps[i]))
  {
    if ps == [] then [] else [Join(out, Basename(ps[0]))] + Outputs(out, ps[1..])
  }

  /** The loop state of `process`: the filesystem, `filtered_files` and
      `rejected_count`. */
  datatype Filtering = Filtering(fs: FileSystem, filtered: seq<string>, rejected: nat)

  /** The loop of `process` over the remaining inputs. */
  function FilterSteps(st: Filtering, files: seq<string>, out: string, minRes: int): Result<Filtering>
    decreases |files|
  {
    if files == [] then Ok(st)
    else if MeetsCriteria(st.fs, files[0], minRes) then
      var target := Join(out, Basename(files[0]));
      match Copy(st.fs, files[0], target)
      case Err(e) => Err(e)
      case Ok(fs1) => FilterSteps(Filtering(fs1, st.filtered + [target], st.rejected), files[1..], out, minRes)
    else
      FilterSteps(Filtering(st.fs, st.filtered, st.rejected + 1), files[1..], out, minRes)
  }

  /** `process(file_paths, output_dir)`: creating the output directory or a
      copy may raise. */
  function FilterAll(fs: FileSystem, paths: seq<string>, out: string, minRes: int): Result<Filtering>
  {
    match MakeDirs(fs, out)
    case Err(e) => Err(e)
    case Ok(fs1) => FilterSteps(Filtering(fs1, [], 0), paths, out, minRes)
  }

  /** `process(file_paths, output_dir)`. */
  method Process(fs: FileSystem, paths: seq<string>, out: string, minRes: int) returns (r: Result<Filtering>)
    ensures r == FilterAll(fs, paths, out, minRes)
  {
    var made := MakeDirs(fs, out);
    if made.Err? {
      return Err(made.error);
    }
    var st := Filtering(made.value, [], 0);
    var i := 0;
    while i < |paths|
      invariant 0 <= i <= |paths|
      invariant FilterSteps(st, paths[i..], out, minRes) == FilterAll(fs, paths, out, minRes)
    {
      assert paths[i..][1..] == paths[i + 1..];
      if MeetsCriteria(st.fs, paths[i], minRes) {
        var target := Join(out, Basename(paths[i]));
        var copied := Copy(st.fs, paths[i], target);
        if copied.Err? {
          return Err(copied.error);
        }
        st := Filtering(copied.value, st.filtered + [target], st.rejected);
      } else {
        st := Filtering(st.fs, st.filtered, st.rejected + 1);
      }
      i := i + 1;
    }
    r := Ok(st);
  }

  // ---------------------------------------------------------------- properties

  /** Every input is either passed on or counted as rejected. */
  lemma {:induction false} FilterStepsCounts(st: Filtering, files: seq<string>, out: string, minRes: int)
    ensures var r := FilterSteps(st, files, out, minRes);
      r.Ok? ==> |r.value.filtered| + r.value.rejected == |st.filtered| + st.rejected + |files|
    decreases |files|
  {
    if files != [] {
      if MeetsCriteria(st.fs, files[0], minRes) {
        var target := Join(out, Basename(files[0]));
        var copied := Copy(st.fs, files[0], target);
        if copied.Ok? {
          var next := Filtering(copied.value, st.filtered + [target], st.rejected);
          FilterStepsCounts(next, files[1..], out, minRes);
        }
      } else {
        FilterStepsCounts(Filtering(st.fs, st.filtered, st.rejected + 1), files[1..], out, minRes);
      }
    }
  }

  /** `len(filtered_files) + rejected_count == len(file_paths)`. */
  lemma FilterAllCounts(fs: FileSystem, paths: seq<string>, out: string, minRes: int)
    ensures var r := FilterAll(fs, paths, out, minRes);
      r.Ok? ==> |r.value.filtered| + r.value.rejected == |paths|
  {
    if MakeDirs(fs, out).Ok? {
      FilterStepsCounts(Filtering(MakeDirs(fs, out).value, [], 0), paths, out, minRes);
    }
  }

  /** What filtering needs of the output directory: a usable name that holds
      none of the inputs. */
  ghost predicate Apart(paths: seq<string>, out: string)
  {
    out != "" && !EndsWith(out, "/") && forall p :: p in paths ==> p != out && !Under(p, out)
  }

  /** One accepted input: its copy succeeds and changes only the output
      directory. */
  lemma AcceptStep(fs: FileSystem, fs0: FileSystem, p: string, out: string)
    requires out != "" && !EndsWith(out, "/") && p != out && !Under(p, out)
    requires IsDir(fs, out) && SameOutside(fs, fs0, out) && IsFile(fs0, p)
    ensures var r := Copy(fs, p, Join(out, Basename(p)));
      r.Ok? && IsDir(r.value, out) && SameOutside(r.value, fs0, out)
  {
    assert !StartsWith(Basename(p), "/") by {
      if Basename(p) != [] {
        assert Basename(p)[0] in Basename(p);
      }
    }
    CopyKeepsOutside(fs, fs0, p, out, Basename(p));
  }

  /** The loop state after deciding `p` on the starting filesystem `fs0`. */
  ghost function Next(st: Filtering, p: string, out: string, minRes: int, fs0: FileSystem): Filtering
  {
    if MeetsCriteria(fs0, p, minRes) then
      match Copy(st.fs, p, Join(out, Basename(p)))
      case Ok(fs1) => Filtering(fs1, st.filtered + Outputs(out, [p]), st.rejected)
      case Err(_) => st
    else Filtering(st.fs, st.filtered, st.rejected + 1)
  }

  /** One turn of the loop on an input apart from the output directory. */
  lemma StepFacts(st: Filtering, files: seq<string>, out: string, minRes: int, fs0: FileSystem)
    requires files != [] && Apart(files, out)
    requires IsDir(st.fs, out) && SameOutside(st.fs, fs0, out)
    ensures var next := Next(st, files[0], out, minRes, fs0);
      FilterSteps(st, files, out, minRes) == FilterSteps(next, files[1..], out, minRes) &&
      IsDir(next.fs, out) && SameOutside(next.fs, fs0, out) && Apart(files[1..], out) &&
      next.filtered == st.filtered + Outputs(out, if MeetsCriteria(fs0, files[0], minRes) then [files[0]] else []) &&
      next.rejected == st.rejected + (if MeetsCriteria(fs0, files[0], minRes) then 0 else 1)
  {
    var p := files[0];
    assert p in files;
    assert Apart(files[1..], out) by {
      forall q | q in files[1..] ensures q in files {
      }
    }
    assert MeetsCriteria(st.fs, p, minRes) == MeetsCriteria(fs0, p, minRes);
    if MeetsCriteria(fs0, p, minRes) {
      AcceptStep(st.fs, fs0, p, out);
      assert Outputs(out, [p]) == [Join(out, Basename(p))];
    } else {
      assert Outputs(out, []) == [];
    }
  }

  lemma OutputsAppend(out: string, a: seq<string>, b: seq<string>)
    ensures Outputs(out, a + b) == Outputs(out, a) + Outputs(out, b)
  {
  }

  lemma Regroup(total: seq<string>, a: seq<string>, b: seq<string>, c: seq<string>)
    requires total == a + b + c
    ensures total == a + (b + c)
  {
  }

  /** The loop decides each input on the starting filesystem, so it passes
      on `<out>/<basename(p)>` for exactly the accepted inputs, in order. */
  lemma {:induction false} FilterStepsFacts(st: Filtering, files: seq<string>, out: string, minRes: int,
                                            fs0: FileSystem)
    requires Apart(files, out)
    requires IsDir(st.fs, out) && SameOutside(st.fs, fs0, out)
    ensures var r := FilterSteps(st, files, out, minRes);
      r.Ok? && IsDir(r.value.fs, out) && SameOutside(r.value.fs, fs0, out) &&
      r.value.filtered == st.filtered + Outputs(out, Accepted(fs0, files, minRes)) &&
      r.value.rejected == st.rejected + |files| - |Accepted(fs0, files, minRes)|
    decreases |files|
  {
    if files == [] {
      assert st.filtered + [] == st.filtered;
    } else {
      var p := files[0];
      StepFacts(st, files, out, minRes, fs0);
      var next := Next(st, p, out, minRes, fs0);
      FilterStepsFacts(next, files[1..], out, minRes, fs0);
      var head := if MeetsCriteria(fs0, p, minRes) then [p] else [];
      var rest := Accepted(fs0, files[1..], minRes);
      assert Accepted(fs0, files, minRes) == head + rest;
      OutputsAppend(out, head, rest);
      var r := FilterSteps(next, files[1..], out, minRes);
      var oh, ot := Outputs(out, head), Outputs(out, rest);
      Regroup(r.value.filtered, st.filtered, oh, ot);
    }
  }

  /** With the output directory apart from the inputs, filtering succeeds,
      returns `<out>/<basename(p)>` for each input `p` that meets the
      criteria, in input order, rejects the rest, and changes nothing
      outside the output directory. */
  lemma FilterAllFacts(fs: FileSystem, paths: seq<string>, out: string, minRes: int)
    requires Apart(paths, out)
    requires out in fs ==> fs[out].Dir?
    ensures var r := FilterAll(fs, paths, out, minRes);
      r.Ok? && r.value.filtered == Outputs(out, Accepted(fs, paths, minRes)) &&
      r.value.rejected == |paths| - |Accepted(fs, paths, minRes)| &&
      SameOutside(r.value.fs, fs, out)
  {
    var fs1 := MakeDirs(fs, out).value;
    assert SameOutside(fs1, fs, out);
    FilterStepsFacts(Filtering(fs1, [], 0), paths, out, minRes, fs);
  }

  /** Raising the minimum resolution never accepts an input that a lower
      one rejected, nor more inputs. */
  lemma {:induction false} AcceptedMonotone(fs: FileSystem, ps: seq<string>, low: int, high: int)
    requires low <= high
    ensures forall p :: p in Accepted(fs, ps, high) ==> p in Accepted(fs, ps, low)
    ensures |Accepted(fs, ps, high)| <= |Accepted(fs, ps, low)|
  {
    if ps != [] {
      AcceptedMonotone(fs, ps[1..], low, high);
    }
  }

  /** Everything the output directory holds is a file meeting the criteria. */
  ghost predicate OnlyAccepted(fs: FileSystem, out: string, minRes: int)
  {
    forall q :: q in fs && Under(q, out) ==> fs[q].File? && MeetsCriteria(fs, q, minRes)
  }

  /** A copy of an accepted input into an output directory holding only
      accepted files keeps it so, and lands at `<out>/<basename(p)>`. */
  lemma AcceptStepClean(fs: FileSystem, p: string, out: string, minRes: int)
    requires out != "" && !EndsWith(out, "/") && p != out && !Under(p, out)
    requires IsDir(fs, out) && OnlyAccepted(fs, out, minRes) && MeetsCriteria(fs, p, minRes)
    ensures var target := Join(out, Basename(p));
      var r := Copy(fs, p, target);
      r.Ok? && IsDir(r.value, out) && OnlyAccepted(r.value, out, minRes) && target in r.value
  {
    var target := Join(out, Basename(p));
    assert !StartsWith(Basename(p), "/") by {
      if Basename(p) != [] {
        assert Basename(p)[0] in Basename(p);
      }
    }
    CopyIntoDir(fs, p, out, Basename(p));
    assert !IsDir(fs, target);
    assert CopyTarget(fs, p, target) == target;
  }

  /** Re-filtering the output gives the same verdict: when the output
      directory starts out holding nothing, every path the loop passes on
      names a copy that meets the criteria. */
  lemma {:induction false} FilterStepsRefilter(st: Filtering, files: seq<string>, out: string, minRes: int)
    requires Apart(files, out)
    requires IsDir(st.fs, out) && OnlyAccepted(st.fs, out, minRes)
    requires forall q :: q in st.filtered ==> q in st.fs && Under(q, out)
    ensures var r := FilterSteps(st, files, out, minRes);
      r.Ok? ==> forall q :: q in r.value.filtered ==> MeetsCriteria(r.value.fs, q, minRes)
    decreases |files|
  {
    if files != [] {
      var p := files[0];
      assert p in files;
      assert Apart(files[1..], out) by {
        forall q | q in files[1..] ensures q in files {
        }
      }
      if MeetsCriteria(st.fs, p, minRes) {
        var target := Join(out, Basename(p));
        AcceptStepClean(st.fs, p, out, minRes);
        CopyIntoDir(st.fs, p, out, Basename(p));
        var next := Filtering(Copy(st.fs, p, target).value, st.filtered + [target], st.rejected);
        FilterStepsRefilter(next, files[1..], out, minRes);
      } else {
        FilterStepsRefilter(Filtering(st.fs, st.filtered, st.rejected + 1), files[1..], out, minRes);
      }
    } else {
      assert forall q :: q in st.filtered ==> q in st.fs && Under(q, out);
    }
  }

  /** `process` on an output directory that does not exist yet: every
      path it returns names an image that `meets_criteria` accepts too. */
  lemma FilterAllRefilter(fs: FileSystem, paths: seq<string>, out: string, minRes: int)
    requires Apart(paths, out)
    requires forall q :: q in fs ==> q != out && !Under(q, out)
    ensures var r := FilterAll(fs, paths, out, minRes);
      r.Ok? ==> forall q :: q in r.value.filtered ==> MeetsCriteria(r.value.fs, q, minRes)
  {
    var fs1 := MakeDirs(fs, out).value;
    assert OnlyAccepted(fs1, out, minRes);
    FilterStepsRefilter(Filtering(fs1, [], 0), paths, out, minRes);
  }
}
