/** The packaging phase: writes the existing input files into a zip archive
    under their base names, with an optional metadata entry, and deletes the
    inputs afterwards when so configured. The clock's two readings (the
    file-name stamp and the creation time text), the archive's size on disk
    and the elapsed time are parameters. */
module Packager {
  import opened Common
  import opened Text
  import opened Paths
  import opened Files

  /** The configuration keys the packager reads. */
  datatype PackagerConfig = PackagerConfig(
    deleteAfterPackaging: Option<bool>,
    compressionLevel: Option<int>,
    includeMetadata: Option<bool>)

  datatype Settings = Settings(deleteAfter: bool, level: int, includeMetadata: bool)

  /** `Packager(config)`: delete after packaging, level 9, with metadata. */
  function SettingsOf(config: PackagerConfig): Settings
  {
    Settings(
      config.deleteAfterPackaging.None? || config.deleteAfterPackaging.value,
      if config.compressionLevel.Some? then config.compressionLevel.value else 9,
      config.includeMetadata.None? || config.includeMetadata.value)
  }

  /** The stamp goes before the suffix unless the path already contains it;
      `with_stem` raises on a path with an empty name. */
  function Stamped(output: string, stamp: string): Result<string>
  {
    if Contains(output, stamp) then Ok(output)
    else WithStem(output, Stem(Name(output)) + "_" + stamp)
  }

  /** The archive path `create_package` writes: stamped, then given a
      `.zip` suffix unless it ends with one in any letter case. */
  function PackagePath(output: string, stamp: string): Result<string>
  {
    match Stamped(output, stamp)
    case Err(e) => Err(e)
    case Ok(p) => Ok(if EndsWith(Lower(p), ".zip") then p else p + ".zip")
  }

  lemma StampedContains(output: string, stamp: string)
    ensures Stamped(output, stamp).Ok? ==> Contains(Stamped(output, stamp).value, stamp)
  {
    if !Contains(output, stamp) && Stamped(output, stamp).Ok? {
      var name := Name(output);
      var stem := Stem(name) + "_" + stamp;
      var newName := stem + Suffix(name);
      var r := WithStem(output, stem).value;
      WithStemEndsWith(output, stem);
      ContainsSelf(stamp);
      ContainsConcat(Stem(name) + "_", stamp, Suffix(name), stamp);
      assert Stem(name) + "_" + stamp + Suffix(name) == newName;
      assert r == r[..|r| - |newName|] + newName + "";
      ContainsConcat(r[..|r| - |newName|], newName, "", stamp);
    }
  }

  lemma LowerZipSuffix(p: string)
    ensures EndsWith(Lower(p + ".zip"), ".zip")
  {
    var l := Lower(p + ".zip");
    assert l[|l| - 4..] == ".zip";
  }

  /** The package path contains the stamp and ends with `.zip`. */
  lemma PackagePathShape(output: string, stamp: string)
    ensures var r := PackagePath(output, stamp);
      r.Ok? ==> Contains(r.value, stamp) && EndsWith(Lower(r.value), ".zip")
  {
    StampedContains(output, stamp);
    var s := Stamped(output, stamp);
    if s.Ok? && !EndsWith(Lower(s.value), ".zip") {
      ContainsConcat("", s.value, ".zip", stamp);
      assert "" + s.value + ".zip" == s.value + ".zip";
      LowerZipSuffix(s.value);
    }
  }

  /** Rewriting a package path a second time changes nothing. */
  lemma PackagePathIdempotent(output: string, stamp: string)
    requires PackagePath(output, stamp).Ok?
    ensures PackagePath(PackagePath(output, stamp).value, stamp) == PackagePath(output, stamp)
  {
    PackagePathShape(output, stamp);
  }

  /** The zip entries for the files that still exist: each under its base
      name, in order. */
  function Entries(fs: FileSystem, files: seq<string>): (r: seq<Member>)
    ensures |r| <= |files|
  {
    if files == [] then []
    else
      var init := Entries(fs, files[..|files| - 1]);
      var p := files[|files| - 1];
      if IsFile(fs, p) then init + [Member(Basename(p), true, fs[p].content)] else init
  }

  /** For files that all exist, there is one entry per file, named by its
      base name and holding its content. */
  lemma {:induction false} EntriesOfFiles(fs: FileSystem, files: seq<string>)
    requires forall i :: 0 <= i < |files| ==> IsFile(fs, files[i])
    ensures |Entries(fs, files)| == |files|
    ensures forall i :: 0 <= i < |files| ==>
      IsFile(fs, files[i]) && Entries(fs, files)[i] == Member(Basename(files[i]), true, fs[files[i]].content)
  {
    if files != [] {
      var init := files[..|files| - 1];
      var p := files[|files| - 1];
      EntriesOfFiles(fs, init);
      var e := Entries(fs, init);
      assert Entries(fs, files) == e + [Member(Basename(p), true, fs[p].content)];
      forall i | 0 <= i < |files|
        ensures IsFile(fs, files[i]) && Entries(fs, files)[i] == Member(Basename(files[i]), true, fs[files[i]].content)
      {
        if i < |init| {
          assert files[i] == init[i];
        }
      }
    }
  }

  /** The `metadata.txt` text: creation time, file count and level. */
  function MetadataText(created: string, count: nat, level: int): string
  {
    "Package created: " + created + "\n" +
    "Files included: " + NatToString(count) + "\n" +
    "Compression level: " + IntToString(level) + "\n"
  }

  /** The metadata records the number of packaged files and the level. */
  lemma MetadataRecords(created: string, count: nat, level: int)
    ensures Contains(MetadataText(created, count, level), "Files included: " + NatToString(count) + "\n")
    ensures Contains(MetadataText(created, count, level), "Compression level: " + IntToString(level) + "\n")
  {
    var a := "Package created: " + created + "\n";
    var b := "Files included: " + NatToString(count) + "\n";
    var c := "Compression level: " + IntToString(level) + "\n";
    assert MetadataText(created, count, level) == a + b + c;
    ContainsSelf(b);
    ContainsConcat(a, b, c, b);
    ContainsSelf(c);
    ContainsConcat(a + b, c, "", c);
    assert a + b + c + "" == a + b + c;
  }

  /** Everything the archive holds. */
  function Members(fs: FileSystem, valid: seq<string>, settings: Settings, created: string): seq<Member>
  {
    Entries(fs, valid) +
    (if settings.includeMetadata
     then [Member("metadata.txt", true, Text(MetadataText(created, |valid|, settings.level)))]
     else [])
  }

  /** The levels zlib accepts for deflate compression. */
  predicate ValidLevel(level: int)
  {
    -1 <= level <= 9
  }

  /** What is left in the archive's place when the first write raises:
      the zip file opened for writing, holding the one local header
      written before the compressor was refused. */
  const IncompleteArchive: Content := Unreadable("incomplete zip archive")

  /** `create_package(file_paths, output_path)`: every failure gives
      `None` (the output directory cannot be made, the name cannot be
      stamped, a directory is in the archive's place, or the level is one
      zlib refuses and something is written — the archive file then stays
      behind). */
  function CreatePackage(fs: FileSystem, paths: seq<string>, output: string, settings: Settings,
                         stamp: string, created: string): (r: (FileSystem, Option<string>))
  {
    match MakeDirs(fs, Dirname(output))
    case Err(_) => (fs, None)
    case Ok(fs1) =>
      match PackagePath(output, stamp)
      case Err(_) => (fs1, None)
      case Ok(path) =>
        if IsDir(fs1, path) then (fs1, None)
        else
          var members := Members(fs1, ExistingFiles(fs1, paths), settings, created);
          if !ValidLevel(settings.level) && members != [] then (fs1[path := File(IncompleteArchive)], None)
          else (fs1[path := File(Archive(ZipArchive, members))], Some(path))
  }

  /** The first loop of `create_package`: the inputs that are regular
      files, in order. */
  method CollectValid(fs: FileSystem, paths: seq<string>) returns (valid: seq<string>)
    ensures valid == ExistingFiles(fs, paths)
  {
    valid := [];
    var i := 0;
    while i < |paths|
      invariant 0 <= i <= |paths|
      invariant valid == ExistingFiles(fs, paths[..i])
    {
      assert paths[..i + 1][..i] == paths[..i];
      if IsFile(fs, paths[i]) {
        valid := valid + [paths[i]];
      }
      i := i + 1;
    }
    assert paths[..|paths|] == paths;
  }

  /** The second loop: each file still there is written under its base
      name. */
  method WriteEntries(fs: FileSystem, valid: seq<string>) returns (entries: seq<Member>)
    ensures entries == Entries(fs, valid)
  {
    entries := [];
    var j := 0;
    while j < |valid|
      invariant 0 <= j <= |valid|
      invariant entries == Entries(fs, valid[..j])
    {
      assert valid[..j + 1][..j] == valid[..j];
      if IsFile(fs, valid[j]) {
        entries := entries + [Member(Basename(valid[j]), true, fs[valid[j]].content)];
      }
      j := j + 1;
    }
    assert valid[..|valid|] == valid;
  }

  /** `create_package(file_paths, output_path)`. */
  method CreatePackageLoop(fs: FileSystem, paths: seq<string>, output: string, settings: Settings,
                           stamp: string, created: string) returns (fs2: FileSystem, path: Option<string>)
    ensures (fs2, path) == CreatePackage(fs, paths, output, settings, stamp, created)
  {
    var made := MakeDirs(fs, Dirname(output));
    if made.Err? {
      return fs, None;
    }
    var fs1 := made.value;
    var named := PackagePath(output, stamp);
    if named.Err? || IsDir(fs1, named.value) {
      return fs1, None;
    }
    var valid := CollectValid(fs1, paths);
    var entries := WriteEntries(fs1, valid);
    if settings.includeMetadata {
      entries := entries + [Member("metadata.txt", true, Text(MetadataText(created, |valid|, settings.level)))];
    } else {
      assert entries + [] == entries;
    }
    if !ValidLevel(settings.level) && entries != [] {
      // the first entry written asks zlib for a compressor, which raises
      return fs1[named.value := File(IncompleteArchive)], None;
    }
    fs2, path := fs1[named.value := File(Archive(ZipArchive, entries))], Some(named.value);
  }

  /** The archive holds one entry per existing file, under its base name
      and in input order, then `metadata.txt` exactly when metadata is
      included. */
  lemma MembersFacts(fs: FileSystem, paths: seq<string>, settings: Settings, created: string)
    ensures var valid := ExistingFiles(fs, paths);
      var members := Members(fs, valid, settings, created);
      |members| == |valid| + (if settings.includeMetadata then 1 else 0) &&
      (forall i :: 0 <= i < |valid| ==>
        IsFile(fs, valid[i]) && members[i] == Member(Basename(valid[i]), true, fs[valid[i]].content)) &&
      (settings.includeMetadata ==>
        members[|valid|] == Member("metadata.txt", true, Text(MetadataText(created, |valid|, settings.level))))
  {
    var valid := ExistingFiles(fs, paths);
    assert forall i :: 0 <= i < |valid| ==> valid[i] in valid;
    EntriesOfFiles(fs, valid);
  }

  /** A package is made exactly when the directory and name steps succeed,
      no directory is in the archive's place, and the level is one zlib
      accepts or nothing is written (no input is a file and metadata is
      off); a refused level leaves the incomplete archive behind. */
  lemma CreatePackageSucceeds(fs: FileSystem, paths: seq<string>, output: string, settings: Settings,
                              stamp: string, created: string)
    ensures var r := CreatePackage(fs, paths, output, settings, stamp, created);
      var made := MakeDirs(fs, Dirname(output));
      var named := PackagePath(output, stamp);
      (r.1.Some? <==>
        made.Ok? && named.Ok? && !IsDir(made.value, named.value) &&
        (ValidLevel(settings.level) || (ExistingFiles(fs, paths) == [] && !settings.includeMetadata))) &&
      (made.Ok? && named.Ok? && !IsDir(made.value, named.value) && !ValidLevel(settings.level) && r.1.None? ==>
        r.0 == made.value[named.value := File(IncompleteArchive)])
  {
    var made := MakeDirs(fs, Dirname(output));
    if made.Ok? {
      var fs1 := made.value;
      ExistingFilesSameFiles(fs1, fs, paths);
      MembersFacts(fs1, paths, settings, created);
    }
  }

  /** A successful package is a zip archive at the rewritten path, built
      from the inputs as they were before the call. */
  lemma CreatePackageArchive(fs: FileSystem, paths: seq<string>, output: string, settings: Settings,
                             stamp: string, created: string)
    ensures var r := CreatePackage(fs, paths, output, settings, stamp, created);
      r.1.Some? ==>
        PackagePath(output, stamp) == Ok(r.1.value) && r.1.value in r.0 &&
        r.0[r.1.value] == File(Archive(ZipArchive, Members(fs, ExistingFiles(fs, paths), settings, created)))
  {
    var r := CreatePackage(fs, paths, output, settings, stamp, created);
    if r.1.Some? {
      var fs1 := MakeDirs(fs, Dirname(output)).value;
      ExistingFilesSameFiles(fs1, fs, paths);
      var valid := ExistingFiles(fs, paths);
      assert forall i :: 0 <= i < |valid| ==> valid[i] in valid;
      EntriesSameFiles(fs1, fs, valid);
    }
  }

  lemma {:induction false} EntriesSameFiles(a: FileSystem, b: FileSystem, s: seq<string>)
    requires forall p :: IsFile(a, p) <==> IsFile(b, p)
    requires forall p :: IsFile(a, p) ==> p in b && a[p] == b[p]
    ensures Entries(a, s) == Entries(b, s)
  {
    if s != [] {
      EntriesSameFiles(a, b, s[..|s| - 1]);
    }
  }

  /** Nothing but the archive path and its directory changes, whether
      the package is made or not. */
  lemma CreatePackageFrame(fs: FileSystem, paths: seq<string>, output: string, settings: Settings,
                           stamp: string, created: string)
    ensures var r := CreatePackage(fs, paths, output, settings, stamp, created);
      var named := PackagePath(output, stamp);
      forall q :: q != Dirname(output) && (named.Err? || q != named.value) ==>
        (q in r.0 <==> q in fs) && (q in r.0 ==> r.0[q] == fs[q])
  {
    var made := MakeDirs(fs, Dirname(output));
    var named := PackagePath(output, stamp);
    if made.Ok? && named.Ok? && !IsDir(made.value, named.value) {
      var members := Members(made.value, ExistingFiles(made.value, paths), settings, created);
      var e := if !ValidLevel(settings.level) && members != [] then File(IncompleteArchive)
               else File(Archive(ZipArchive, members));
      assert CreatePackage(fs, paths, output, settings, stamp, created).0 == made.value[named.value := e];
    }
  }

  /** The regular-file test alone decides which inputs are kept. */
  lemma {:induction false} ExistingFilesSameFiles(a: FileSystem, b: FileSystem, s: seq<string>)
    requires forall p :: IsFile(a, p) <==> IsFile(b, p)
    requires forall p :: IsFile(a, p) ==> p in b && a[p] == b[p]
    ensures ExistingFiles(a, s) == ExistingFiles(b, s)
  {
    if s != [] {
      ExistingFilesSameFiles(a, b, s[..|s| - 1]);
    }
  }

  /** `cleanup_files` over a prefix of the inputs: the filesystem and
      `deleted_files` so far. */
  function CleanupPrefix(fs: FileSystem, files: seq<string>): (FileSystem, seq<string>)
  {
    if files == [] then (fs, [])
    else
      var step := CleanupPrefix(fs, files[..|files| - 1]);
      var p := files[|files| - 1];
      if IsFile(step.0, p) then (Remove(step.0, p), step.1 + [p]) else step
  }

  /** `cleanup_files(file_paths)`: nothing happens unless deletion after
      packaging is configured. */
  function CleanupFiles(fs: FileSystem, files: seq<string>, deleteAfter: bool): (FileSystem, seq<string>)
  {
    if deleteAfter then CleanupPrefix(fs, files) else (fs, [])
  }

  /** `cleanup_files(file_paths)`, the loop that removes each existing
      file and appends it to `deleted_files`. */
  method Cleanup(fs: FileSystem, files: seq<string>, deleteAfter: bool) returns (fs2: FileSystem, deleted: seq<string>)
    ensures (fs2, deleted) == CleanupFiles(fs, files, deleteAfter)
  {
    if !deleteAfter {
      return fs, [];
    }
    fs2, deleted := fs, [];
    var i := 0;
    while i < |files|
      invariant 0 <= i <= |files|
      invariant (fs2, deleted) == CleanupPrefix(fs, files[..i])
    {
      assert files[..i + 1][..i] == files[..i];
      if IsFile(fs2, files[i]) {
        fs2 := Remove(fs2, files[i]);
        deleted := deleted + [files[i]];
      }
      i := i + 1;
    }
    assert files[..|files|] == files;
  }

  /** Cleanup deletes exactly the inputs that were regular files, each
      once, and nothing else. */
  lemma {:induction false} CleanupPrefixFacts(fs: FileSystem, files: seq<string>)
    ensures var r := CleanupPrefix(fs, files);
      Distinct(r.1) &&
      (forall p :: p in r.1 <==> p in files && IsFile(fs, p)) &&
      r.0 == fs - set p | p in r.1
  {
    if files != [] {
      var init := files[..|files| - 1];
      var p := files[|files| - 1];
      CleanupPrefixFacts(fs, init);
      var step := CleanupPrefix(fs, init);
      assert files == init + [p];
      if IsFile(step.0, p) {
        assert p !in step.1;
        assert (set q | q in step.1 + [p]) == (set q | q in step.1) + {p};
      }
    }
  }

  /** What `process` returns. */
  datatype PackageResult =
    | Packaged(packagePath: string, fileCount: nat, deletedFiles: seq<string>, packageSize: nat, elapsed: real)
    | Failed(fileCount: nat, error: string)

  /** `process(file_paths, output_path)`; `packageSize` is the size the
      operating system reports for the written archive. */
  function Process(fs: FileSystem, paths: seq<string>, output: string, settings: Settings,
                   stamp: string, created: string, packageSize: nat, elapsed: real)
    : (FileSystem, PackageResult)
  {
    AfterPackage(CreatePackage(fs, paths, output, settings, stamp, created), paths, settings.deleteAfter,
                 packageSize, elapsed)
  }

  /** What follows writing the archive: the failure, or the cleanup. */
  function AfterPackage(made: (FileSystem, Option<string>), paths: seq<string>, deleteAfter: bool,
                        packageSize: nat, elapsed: real): (FileSystem, PackageResult)
  {
    match made.1
    case None => (made.0, Failed(|paths|, "Failed to create package"))
    case Some(path) =>
      var cleaned := CleanupFiles(made.0, paths, deleteAfter);
      (cleaned.0, Packaged(path, |paths|, cleaned.1, packageSize, elapsed))
  }

  /** The result as the dictionary `process` returns. */
  function ResultValue(r: PackageResult): Value
  {
    match r
    case Packaged(path, count, deleted, size, elapsed) =>
      VMap(map[
        "package_path" := VStr(path),
        "file_count" := VInt(count),
        "deleted_files" := VList(seq(|deleted|, i requires 0 <= i < |deleted| => VStr(deleted[i]))),
        "package_size" := VInt(size),
        "elapsed_seconds" := VReal(elapsed)])
    case Failed(count, error) =>
      VMap(map["package_path" := VNone, "file_count" := VInt(count), "error" := VStr(error)])
  }

  /** `file_count` is the number of inputs whatever happens; a failed
      package deletes nothing and reports "Failed to create package"; a
      successful one deletes, when configured, exactly the inputs that
      were regular files, and otherwise nothing. */
  lemma ProcessFacts(fs: FileSystem, paths: seq<string>, output: string, settings: Settings,
                     stamp: string, created: string, packageSize: nat, elapsed: real)
    ensures var made := CreatePackage(fs, paths, output, settings, stamp, created);
      var r := Process(fs, paths, output, settings, stamp, created, packageSize, elapsed);
      r.1.fileCount == |paths| &&
      (r.1.Failed? <==> made.1.None?) &&
      (r.1.Failed? ==> r.0 == made.0 && r.1.error == "Failed to create package") &&
      (r.1.Packaged? ==>
        r.1.packagePath == made.1.value &&
        Distinct(r.1.deletedFiles) &&
        (forall p :: p in r.1.deletedFiles <==> settings.deleteAfter && p in paths && IsFile(made.0, p)) &&
        r.0 == made.0 - set p | p in r.1.deletedFiles)
  {
    AfterPackageFacts(CreatePackage(fs, paths, output, settings, stamp, created), paths, settings.deleteAfter,
                      packageSize, elapsed);
  }

  lemma AfterPackageFacts(made: (FileSystem, Option<string>), paths: seq<string>, deleteAfter: bool,
                          packageSize: nat, elapsed: real)
    ensures var r := AfterPackage(made, paths, deleteAfter, packageSize, elapsed);
      r.1.fileCount == |paths| &&
      (r.1.Failed? <==> made.1.None?) &&
      (r.1.Failed? ==> r.0 == made.0 && r.1.error == "Failed to create package") &&
      (r.1.Packaged? ==>
        r.1.packagePath == made.1.value &&
        Distinct(r.1.deletedFiles) &&
        (forall p :: p in r.1.deletedFiles <==> deleteAfter && p in paths && IsFile(made.0, p)) &&
        r.0 == made.0 - set p | p in r.1.deletedFiles)
  {
    if made.1.Some? && deleteAfter {
      CleanupPrefixFacts(made.0, paths);
    }
    if made.1.Some? && !deleteAfter {
      assert (set p: string | p in [] :: p) == {};
    }
  }
}
