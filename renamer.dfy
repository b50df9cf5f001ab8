/** Model of src/phases/renamer.py: each input, taken in sorted order, is
    copied into the output directory under `<prefix><nnnnnn><suffix>`, where
    `nnnnnn` is its 1-based position zero-padded to at least six digits. */
module Renamer {
  import opened Common
  import opened Text
  import opened Paths
  import opened Files

  /** The `batch_prefix` used when the configuration names none. */
  const DefaultPrefix: string := "bid"

  function PrefixFromConfig(batchPrefix: Option<string>): (prefix: string)
    ensures batchPrefix.None? ==> prefix == DefaultPrefix
  {
    if batchPrefix.Some? then batchPrefix.value else DefaultPrefix
  }

  /** The file name `rename_file` builds for sequence number `n`. */
  function NewName(prefix: string, path: string, n: nat): string
  {
    prefix + FormatPadded(n, 6) + Suffix(Name(path))
  }

  /** A run of digits followed by nothing or by a non-digit is the digit
      prefix of the whole. */
  lemma {:induction false} DigitPrefixOfDigits(d: string, s: string)
    requires AllDigits(d)
    requires s == [] || !IsDigit(s[0])
    ensures DigitPrefix(d + s) == d
  {
    if d != [] {
      assert (d + s)[1..] == d[1..] + s;
      DigitPrefixOfDigits(d[1..], s);
    }
  }

  /** The new name is the prefix, then the sequence number as at least six
      digits, then the original suffix, which is empty or starts with a dot. */
  lemma NewNameShape(prefix: string, path: string, n: nat)
    ensures var name := NewName(prefix, path, n);
      StartsWith(name, prefix) && EndsWith(name, Suffix(Name(path))) &&
      var digits := DigitPrefix(name[|prefix|..]);
      |digits| >= 6 && DigitsValue(digits) == n
  {
    var name := NewName(prefix, path, n);
    var digits := FormatPadded(n, 6);
    var suffix := Suffix(Name(path));
    assert name[..|prefix|] == prefix;
    assert name[|prefix|..] == digits + suffix;
    DigitPrefixOfDigits(digits, suffix);
    FormatPaddedValue(n, 6);
  }

  /** Names with one prefix and different sequence numbers differ. */
  lemma NewNamesDistinct(prefix: string, p: string, q: string, i: nat, j: nat)
    requires NewName(prefix, p, i) == NewName(prefix, q, j)
    ensures i == j
  {
    var a := NewName(prefix, p, i);
    NewNameShape(prefix, p, i);
    NewNameShape(prefix, q, j);
  }

  lemma NewNameRelative(prefix: string, path: string, n: nat)
    requires !StartsWith(prefix, "/")
    ensures !StartsWith(NewName(prefix, path, n), "/")
  {
    var name := NewName(prefix, path, n);
    if prefix != "" {
      assert name[..1] == prefix[..1];
    } else {
      assert name[0] == FormatPadded(n, 6)[0];
    }
  }

  /** `rename_file(file_path, output_dir, batch_id, sequence_number)`: the
      directory is created (an error there raises), then the file is copied;
      a failed copy gives None. The batch id takes no part in the name. */
  function RenameFile(fs: FileSystem, prefix: string, path: string, out: string, batchId: string, n: nat)
    : (r: Result<(FileSystem, Option<string>)>)
    ensures r.Ok? <==> MakeDirs(fs, out).Ok?
    ensures r.Ok? && r.value.1.Some? ==> r.value.1.value == Join(out, NewName(prefix, path, n))
  {
    match MakeDirs(fs, out)
    case Err(e) => Err(e)
    case Ok(fs1) =>
      var newPath := Join(out, NewName(prefix, path, n));
      match Copy(fs1, path, newPath)
      case Err(_) => Ok((fs1, None))
      case Ok(fs2) => Ok((fs2, Some(newPath)))
  }

  /** The batch-id normalisation at the start of `process`: no id becomes
      the prefix; an id without the prefix becomes the prefix plus its first
      run of digits, or, failing that, the prefix plus the current second
      modulo one million as six digits. */
  function NormaliseBatchId(batchId: Option<string>, prefix: string, now: real): (r: string)
    ensures StartsWith(r, prefix)
    ensures batchId.None? ==> r == prefix
    ensures batchId.Some? && StartsWith(batchId.value, prefix) ==> r == batchId.value
    ensures batchId.Some? && !StartsWith(batchId.value, prefix) ==>
      |r| > |prefix| && AllDigits(r[|prefix|..]) &&
      (FirstDigitRun(batchId.value).Some? ==> Contains(batchId.value, r[|prefix|..])) &&
      (FirstDigitRun(batchId.value).None? ==> DigitsValue(r[|prefix|..]) == Trunc(now) % 1000000)
  {
    if batchId.None? then prefix
    else if StartsWith(batchId.value, prefix) then batchId.value
    else
      match FirstDigitRun(batchId.value)
      case Some(d) =>
        assert (prefix + d)[|prefix|..] == d;
        prefix + d
      case None =>
        var d := FormatPadded(Trunc(now) % 1000000, 6);
        FormatPaddedValue(Trunc(now) % 1000000, 6);
        assert (prefix + d)[|prefix|..] == d;
        prefix + d
  }

  /** The output directory and the `renamed_files` dictionary. */
  datatype Renaming = Renaming(fs: FileSystem, renamed: Dict<string>)

  /** The loop of `process` from position `done` of the sorted inputs on. */
  function RenameSteps(st: Renaming, prefix: string, files: seq<string>, out: string, batchId: string, done: nat)
    : Result<Renaming>
    decreases |files|
  {
    if files == [] then Ok(st)
    else
      match RenameFile(st.fs, prefix, files[0], out, batchId, done + 1)
      case Err(e) => Err(e)
      case Ok(step) =>
        var renamed := if step.1.Some? && step.1.value != "" then Put(st.renamed, files[0], step.1.value) else st.renamed;
        RenameSteps(Renaming(step.0, renamed), prefix, files[1..], out, batchId, done + 1)
  }

  /** `process(file_paths, output_dir, batch_id)`. */
  function RenameAll(fs: FileSystem, prefix: string, paths: seq<string>, out: string, batchId: string): Result<Renaming>
  {
    match MakeDirs(fs, out)
    case Err(e) => Err(e)
    case Ok(fs1) => RenameSteps(Renaming(fs1, EmptyDict()), prefix, SortStrings(paths), out, batchId, 0)
  }

  /** `process(file_paths, output_dir, batch_id)`; `now` is the clock
      reading used when the id has to be generated. Also returns the
      normalised id, which is only printed. */
  method Process(fs: FileSystem, prefix: string, paths: seq<string>, out: string, batchId: Option<string>, now: real)
    returns (r: Result<Renaming>, normalised: string)
    ensures normalised == NormaliseBatchId(batchId, prefix, now)
    ensures r == RenameAll(fs, prefix, paths, out, normalised)
  {
    normalised := NormaliseBatchId(batchId, prefix, now);
    var made := MakeDirs(fs, out);
    if made.Err? {
      return Err(made.error), normalised;
    }
    var sorted := SortStrings(paths);
    var st := Renaming(made.value, EmptyDict());
    var i := 0;
    while i < |sorted|
      invariant 0 <= i <= |sorted|
      invariant RenameSteps(st, prefix, sorted[i..], out, normalised, i) == RenameAll(fs, prefix, paths, out, normalised)
    {
      var step := RenameFile(st.fs, prefix, sorted[i], out, normalised, i + 1);
      assert sorted[i..][1..] == sorted[i + 1..];
      if step.Err? {
        return Err(step.error), normalised;
      }
      var newPath := step.value.1;
      if newPath.Some? && newPath.value != "" {
        st := Renaming(step.value.0, Put(st.renamed, sorted[i], newPath.value));
      } else {
        st := Renaming(step.value.0, st.renamed);
      }
      i := i + 1;
    }
    r := Ok(st);
  }

  // ---------------------------------------------------------------- properties

  /** What renaming needs of the output directory: a usable directory that
      holds none of the inputs, and a relative prefix. */
  ghost predicate Separate(fs: FileSystem, prefix: string, all: seq<string>, out: string)
  {
    out != "" && !EndsWith(out, "/") && !StartsWith(prefix, "/") &&
    forall p :: p in all ==> p != out && !Under(p, out)
  }

  /** One step of the loop on an input outside the output directory: the
      copy succeeds exactly when the input is a regular file in `fs0`, and
      only the output directory changes. */
  lemma OneStep(fs: FileSystem, prefix: string, path: string, out: string, batchId: string, n: nat, fs0: FileSystem)
    requires out != "" && !EndsWith(out, "/") && !StartsWith(prefix, "/")
    requires path != out && !Under(path, out)
    requires IsDir(fs, out) && SameOutside(fs, fs0, out)
    ensures var r := RenameFile(fs, prefix, path, out, batchId, n);
      r.Ok? && IsDir(r.value.0, out) && SameOutside(r.value.0, fs0, out) &&
      (r.value.1.Some? <==> IsFile(fs0, path)) &&
      (r.value.1.Some? ==> r.value.1.value == Join(out, NewName(prefix, path, n)) && r.value.1.value != "")
  {
    assert MakeDirs(fs, out) == Ok(fs);
    NewNameRelative(prefix, path, n);
    CopyKeepsOutside(fs, fs0, path, out, NewName(prefix, path, n));
  }

  lemma PutFresh(d: Dict<string>, all: seq<string>, done: nat, v: string)
    requires done < |all|
    requires forall i, j :: 0 <= i < j < |all| ==> all[i] != all[j]
    requires DictValid(d) && forall k :: k in d.keys ==> k in all[..done]
    ensures all[done] !in d.values
  {
  }

  /** The dictionary after one step of the loop. */
  lemma PutStep(d: Dict<string>, prefix: string, all: seq<string>, out: string, done: nat, fs0: FileSystem,
                np: Option<string>)
    requires done < |all|
    requires forall i, j :: 0 <= i < j < |all| ==> all[i] != all[j]
    requires DictValid(d) && d.keys == ExistingFiles(fs0, all[..done])
    requires forall i :: 0 <= i < done && all[i] in d.values ==>
      d.values[all[i]] == Join(out, NewName(prefix, all[i], i + 1))
    requires np.Some? <==> IsFile(fs0, all[done])
    requires np.Some? ==> np.value == Join(out, NewName(prefix, all[done], done + 1)) && np.value != ""
    ensures var r := if np.Some? && np.value != "" then Put(d, all[done], np.value) else d;
      DictValid(r) && r.keys == ExistingFiles(fs0, all[..done + 1]) &&
      forall i :: 0 <= i < done + 1 && all[i] in r.values ==>
        r.values[all[i]] == Join(out, NewName(prefix, all[i], i + 1))
  {
    assert all[..done + 1] == all[..done] + [all[done]];
    PutFresh(d, all, done, all[done]);
  }

  /** The renaming loop keeps the inputs untouched, so each copy succeeds
      exactly when its input is a regular file in the starting filesystem,
      and the dictionary collects those inputs in sorted order, each with
      its numbered name. */
  lemma {:induction false} StepsFacts(st: Renaming, prefix: string, all: seq<string>, out: string, batchId: string,
                                      done: nat, fs0: FileSystem)
    requires done <= |all|
    requires Separate(fs0, prefix, all, out)
    requires forall i, j :: 0 <= i < j < |all| ==> all[i] != all[j]
    requires IsDir(st.fs, out) && SameOutside(st.fs, fs0, out)
    requires DictValid(st.renamed) && st.renamed.keys == ExistingFiles(fs0, all[..done])
    requires forall i :: 0 <= i < done && all[i] in st.renamed.values ==>
      st.renamed.values[all[i]] == Join(out, NewName(prefix, all[i], i + 1))
    ensures var r := RenameSteps(st, prefix, all[done..], out, batchId, done);
      r.Ok? && DictValid(r.value.renamed) && r.value.renamed.keys == ExistingFiles(fs0, all) &&
      forall i :: 0 <= i < |all| && all[i] in r.value.renamed.values ==>
        r.value.renamed.values[all[i]] == Join(out, NewName(prefix, all[i], i + 1))
    decreases |all| - done
  {
    if done == |all| {
      assert all[..done] == all;
    } else {
      var path := all[done];
      assert path in all;
      OneStep(st.fs, prefix, path, out, batchId, done + 1, fs0);
      var step := RenameFile(st.fs, prefix, path, out, batchId, done + 1).value;
      var renamed := if step.1.Some? && step.1.value != "" then Put(st.renamed, path, step.1.value) else st.renamed;
      PutStep(st.renamed, prefix, all, out, done, fs0, step.1);
      assert all[done..][1..] == all[done + 1..];
      assert RenameSteps(st, prefix, all[done..], out, batchId, done) ==
        RenameSteps(Renaming(step.0, renamed), prefix, all[done + 1..], out, batchId, done + 1);
      StepsFacts(Renaming(step.0, renamed), prefix, all, out, batchId, done + 1, fs0);
    }
  }

  /** With the output directory apart from the inputs, renaming distinct
      inputs succeeds, keeps exactly the inputs that are regular files, in
      sorted order, and maps the i-th of the sorted inputs to
      `<out>/<prefix><i+1 padded><suffix>`. */
  lemma RenameAllFacts(fs: FileSystem, prefix: string, paths: seq<string>, out: string, batchId: string)
    requires Separate(fs, prefix, paths, out)
    requires out in fs ==> fs[out].Dir?
    requires forall i, j :: 0 <= i < j < |paths| ==> paths[i] != paths[j]
    ensures var r := RenameAll(fs, prefix, paths, out, batchId);
      var sorted := SortStrings(paths);
      r.Ok? && DictValid(r.value.renamed) && r.value.renamed.keys == ExistingFiles(fs, sorted) &&
      (forall p :: p in r.value.renamed.values <==> p in paths && IsFile(fs, p)) &&
      forall i :: 0 <= i < |sorted| && sorted[i] in r.value.renamed.values ==>
        r.value.renamed.values[sorted[i]] == Join(out, NewName(prefix, sorted[i], i + 1))
  {
    var sorted := SortStrings(paths);
    var fs1 := MakeDirs(fs, out).value;
    SameElements(paths, sorted);
    DistinctPermutation(paths, sorted);
    assert Separate(fs, prefix, sorted, out);
    assert SameOutside(fs1, fs, out);
    assert sorted[..0] == [];
    assert sorted[0..] == sorted;
    StepsFacts(Renaming(fs1, EmptyDict()), prefix, sorted, out, batchId, 0, fs);
  }

  /** Text that does not start with a slash leaves the question of a
      leading slash to what comes before it. */
  lemma SlashBefore(a: string, b: string)
    requires b != [] && b[0] != '/'
    ensures StartsWith(a + b, "/") <==> StartsWith(a, "/")
  {
    if a != [] {
      assert (a + b)[0] == a[0];
    } else {
      assert a + b == b;
    }
  }

  /** A new name is absolute exactly when the prefix is. */
  lemma NewNameSlash(prefix: string, path: string, n: nat)
    ensures StartsWith(NewName(prefix, path, n), "/") <==> StartsWith(prefix, "/")
  {
    var digits := FormatPadded(n, 6);
    var rest := digits + Suffix(Name(path));
    assert NewName(prefix, path, n) == prefix + rest;
    assert IsDigit(digits[0]);
    assert rest[0] == digits[0];
    SlashBefore(prefix, rest);
  }

  /** The new paths of one call are pairwise distinct. */
  lemma RenamedPathsDistinct(prefix: string, out: string, sorted: seq<string>, i: nat, j: nat)
    requires i < j < |sorted|
    ensures Join(out, NewName(prefix, sorted[i], i + 1)) != Join(out, NewName(prefix, sorted[j], j + 1))
  {
    NumberedPathsDistinct(prefix, out, sorted[i], sorted[j], i + 1, j + 1);
  }

  lemma NumberedPathsDistinct(prefix: string, out: string, p: string, q: string, m: nat, n: nat)
    requires m != n
    ensures Join(out, NewName(prefix, p, m)) != Join(out, NewName(prefix, q, n))
  {
    var a := NewName(prefix, p, m);
    var b := NewName(prefix, q, n);
    NewNameSlash(prefix, p, m);
    NewNameSlash(prefix, q, n);
    if a == b {
      NewNamesDistinct(prefix, p, q, m, n);
      assert false;
    }
    JoinDistinct(out, a, b);
  }

  lemma JoinDistinct(out: string, a: string, b: string)
    requires StartsWith(a, "/") <==> StartsWith(b, "/")
    requires a != b
    ensures Join(out, a) != Join(out, b)
  {
    if Join(out, a) == Join(out, b) {
      JoinInjective(out, a, b);
    }
  }
}
